/**
 * The gift-code dialog (components/GiftCodeModal.tsx): the upper-cased
 * input, the submission to the root component's redeem handler, and the
 * reset that follows a success.
 */
module GiftCode {
  import opened Wrappers
  import opened Text
  import opened Ledger
  import opened AppRoot

  datatype Status = Idle | Succeeded | Errored

  class GiftCodeModal {
    var code: string
    var status: Status
    var msg: string
    /** The codes handed to the redeem handler so far, in order. */
    ghost var submitted: seq<string>

    /** The code field only ever holds upper-cased input. */
    ghost predicate Valid()
      reads this
    {
      NoLowercase(code)
    }

    constructor ()
      ensures Valid() && code == "" && status == Idle && msg == "" && submitted == []
    {
      code := "";
      status := Idle;
      msg := "";
      submitted := [];
    }

    /** The input's `onChange`: store the upper-cased text and reset the status and message. */
    method Edit(typed: string)
      modifies this
      ensures Valid() && code == ToUpper(typed) && status == Idle && msg == ""
      ensures submitted == old(submitted)
    {
      code := ToUpper(typed);
      status := Idle;
      msg := "";
    }

    /** The redeem button is disabled for an empty code and after a success. */
    predicate SubmitDisabled(): (b: bool)
      reads this
      ensures status == Succeeded ==> b
      ensures !b ==> code != ""
      ensures code != "" && AllWhitespace(code) && status != Succeeded ==> !b
    {
      code == "" || status == Succeeded
    }

    /**
     * `handleSubmit`: a blank code does nothing; otherwise the trimmed code
     * goes to the redeem handler once, and the status and message report
     * its result. The code matched is the trimmed input as shown.
     */
    method Submit(app: App)
      requires Valid()
      modifies this, app, app.storage
      ensures Valid() && code == old(code)
      ensures IsBlank(code) ==> unchanged(this) && unchanged(app) && unchanged(app.storage)
      ensures !IsBlank(code) ==>
        var r := Redeem(old(app.user), Trim(code));
        && submitted == old(submitted) + [Trim(code)]
        && (status == Succeeded <==> r.Redeemed?) && (status == Errored <==> r.Rejected?)
        && msg == ResultOf(r).message
        && ToUpper(Trim(code)) == Trim(code)
        && (r.Redeemed? ==> r.bonus == GiftBonus(Trim(code)).value)
        && (r.Rejected? ==> unchanged(app) && unchanged(app.storage))
        && (r.Redeemed? ==>
              && app.user == Some(r.updated)
              && app.storage.users == Persist(old(app.storage.users), r.updated))
      ensures app.storage.currentUser == old(app.storage.currentUser) && app.SameFlags()
      ensures old(app.Valid()) ==> app.Valid()
      ensures old(app.Consistent()) ==> app.Consistent()
      ensures old(app.Solvent()) ==> app.Solvent()
    {
      if IsBlank(code) {
        return;
      }
      var trimmed := Trim(code);
      TrimKeepsNoLowercase(code);
      UpperFixed(trimmed);
      Send(app, trimmed);
    }

    /** The non-blank branch of `handleSubmit`: hand `t` to the redeem handler and report its result. */
    method Send(app: App, t: string)
      modifies this, app, app.storage
      ensures code == old(code)
      ensures
        var r := Redeem(old(app.user), t);
        && submitted == old(submitted) + [t]
        && (status == Succeeded <==> r.Redeemed?) && (status == Errored <==> r.Rejected?)
        && msg == ResultOf(r).message
        && (r.Redeemed? ==> r.bonus == GiftBonus(ToUpper(t)).value)
        && (r.Rejected? ==> unchanged(app) && unchanged(app.storage))
        && (r.Redeemed? ==>
              && app.user == Some(r.updated)
              && app.storage.users == Persist(old(app.storage.users), r.updated))
      ensures app.storage.currentUser == old(app.storage.currentUser) && app.SameFlags()
      ensures old(app.Valid()) ==> app.Valid()
      ensures old(app.Consistent()) ==> app.Consistent()
      ensures old(app.Solvent()) ==> app.Solvent()
    {
      var result := app.RedeemGift(t);
      submitted := submitted + [t];
      status := if result.success then Succeeded else Errored;
      msg := result.message;
    }

    /** The callback scheduled after a success: close the dialog and reset the form. */
    method CloseAfterSuccess(app: App)
      modifies this, app
      ensures Valid() && code == "" && status == Idle && msg == "" && submitted == old(submitted)
      ensures !app.isGiftOpen
      ensures app.user == old(app.user) && app.credits == old(app.credits)
      ensures app.isSubscriptionOpen == old(app.isSubscriptionOpen) && app.subscriptionMessage == old(app.subscriptionMessage)
      ensures app.isInitialized == old(app.isInitialized)
      ensures old(app.Valid()) ==> app.Valid()
      ensures old(app.Consistent()) ==> app.Consistent()
      ensures old(app.Solvent()) ==> app.Solvent()
    {
      app.SetGiftOpen(false);
      code := "";
      status := Idle;
      msg := "";
    }
  }
}
