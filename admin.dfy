/**
 * The demo top-up panel (components/AdminPanel.tsx): a closed panel that
 * opens on request and adds a typed, strictly positive amount of credits.
 */
module Admin {
  import opened Wrappers
  import opened Numbers
  import opened Ledger
  import opened AppRoot

  const DEFAULT_AMOUNT: string := "49"

  /** The amount `handleAdd` passes on: `parseInt` of the text, when it is a number above zero. */
  function AcceptedAmount(amount: string): (r: Option<int>)
    ensures r.Some? <==> ParseInt(amount).Some? && ParseInt(amount).value > 0
    ensures r.Some? ==> r == ParseInt(amount) && r.value > 0
  {
    match ParseInt(amount)
    case Some(v) => if v > 0 then Some(v) else None
    case None => None
  }

  /** The pre-filled amount is accepted as 49 credits. */
  lemma DefaultAmountAccepted()
    ensures AcceptedAmount(DEFAULT_AMOUNT) == Some(49)
  {
    assert NatToString(49) == DEFAULT_AMOUNT;
    ParseIntRoundTrip(49);
  }

  /** Every positive whole number, typed in decimal, is accepted as itself. */
  lemma AcceptsPositive(n: nat)
    requires n > 0
    ensures AcceptedAmount(NatToString(n)) == Some(n)
  {
    ParseIntRoundTrip(n);
  }

  /** Zero is refused. */
  lemma RefusesZero()
    ensures AcceptedAmount(NatToString(0)) == None
  {
    ParseIntRoundTrip(0);
  }

  /** Negative numbers are refused. */
  lemma RefusesNegative(n: nat)
    ensures AcceptedAmount("-" + NatToString(n)) == None
  {
    ParseIntSigned("", '-', n);
    assert "" + ['-'] + NatToString(n) == "-" + NatToString(n);
  }

  class AdminPanel {
    var isOpen: bool
    var amount: string

    constructor ()
      ensures !isOpen && amount == DEFAULT_AMOUNT
    {
      isOpen := false;
      amount := DEFAULT_AMOUNT;
    }

    /** The shield button and the close control. */
    method SetOpen(open: bool)
      modifies this
      ensures isOpen == open && amount == old(amount)
    {
      isOpen := open;
    }

    /** The amount field's `onChange`. */
    method EditAmount(value: string)
      modifies this
      ensures amount == value && isOpen == old(isOpen)
    {
      amount := value;
    }

    /**
     * `handleAdd`: an accepted amount is added through the root component's
     * handler and the panel closes; anything else changes nothing.
     */
    method Add(app: App)
      modifies this, app, app.storage
      ensures amount == old(amount)
      ensures AcceptedAmount(amount).None? ==>
        isOpen == old(isOpen) && unchanged(app) && unchanged(app.storage)
      ensures AcceptedAmount(amount).Some? ==> !isOpen
      ensures AcceptedAmount(amount).Some? && old(app.user).None? ==> unchanged(app) && unchanged(app.storage)
      ensures AcceptedAmount(amount).Some? && old(app.user).Some? ==>
        && app.user == Some(Credit(old(app.user).value, AcceptedAmount(amount).value))
        && app.storage.users == Persist(old(app.storage.users), app.user.value)
      ensures app.storage.currentUser == old(app.storage.currentUser) && app.SameFlags()
      ensures old(app.Valid()) ==> app.Valid()
      ensures old(app.Consistent()) ==> app.Consistent()
      ensures old(app.Solvent()) ==> app.Solvent()
    {
      var parsed := AcceptedAmount(amount);
      if parsed.Some? {
        Accept(app, parsed.value);
      }
    }

    /** The accepted branch of `handleAdd`: credit the amount, close the panel. */
    method Accept(app: App, n: int)
      requires n > 0
      modifies this, app, app.storage
      ensures amount == old(amount) && !isOpen
      ensures old(app.user).None? ==> unchanged(app) && unchanged(app.storage)
      ensures old(app.user).Some? ==>
        && app.user == Some(Credit(old(app.user).value, n))
        && app.storage.users == Persist(old(app.storage.users), app.user.value)
      ensures app.storage.currentUser == old(app.storage.currentUser) && app.SameFlags()
      ensures old(app.Valid()) ==> app.Valid()
      ensures old(app.Consistent()) ==> app.Consistent()
      ensures old(app.Solvent()) ==> app.Solvent()
    {
      app.AddCredits(n);
      isOpen := false;
    }
  }
}
