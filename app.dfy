/**
 * The root component (App.tsx): the session's user, the displayed balance,
 * the modal flags it owns, and the handlers it passes to its children.
 */
module AppRoot {
  import opened Wrappers
  import opened Types
  import opened Storage
  import opened Ledger

  class App {
    const storage: LocalStorage
    var user: Option<User>
    var credits: int
    var isInitialized: bool
    var isSubscriptionOpen: bool
    var subscriptionMessage: Option<string>
    var isGiftOpen: bool

    /** The displayed balance is the session user's, and 0 when nobody is logged in. */
    ghost predicate Valid()
      reads this
    {
      if user.Some? then credits == user.value.credits else credits == 0
    }

    /**
     * The stored map is well keyed, and a logged-in user is exactly the record
     * stored under its email, which is also the session key.
     */
    ghost predicate Consistent()
      reads this, storage
    {
      && WellKeyed(storage.users)
      && (user.Some? ==>
            && storage.users.Some?
            && user.value.email in storage.users.value
            && storage.users.value[user.value.email] == user.value
            && storage.currentUser == Some(user.value.email))
    }

    /** No balance, stored or displayed, is negative. */
    ghost predicate Solvent()
      reads this, storage
    {
      && StoreSolvent(storage.users)
      && (user.Some? ==> user.value.credits >= 0)
      && credits >= 0
    }

    /** The `canGenerate` prop: the displayed balance covers one image. */
    function CanGenerate(): (b: bool)
      reads this
      ensures Valid() ==> (b <==> user.Some? && user.value.credits >= COST_PER_IMAGE)
    {
      credits >= COST_PER_IMAGE
    }

    /** The modal and initialisation flags are as they were. */
    twostate predicate SameFlags()
      reads this
    {
      && isInitialized == old(isInitialized)
      && isSubscriptionOpen == old(isSubscriptionOpen)
      && subscriptionMessage == old(subscriptionMessage)
      && isGiftOpen == old(isGiftOpen)
    }

    /** The component's initial state, before the session-restore effect runs. */
    constructor (storage: LocalStorage)
      ensures this.storage == storage
      ensures user == None && credits == 0 && !isInitialized
      ensures !isSubscriptionOpen && subscriptionMessage == None && !isGiftOpen
      ensures Valid()
      ensures WellKeyed(storage.users) ==> Consistent()
      ensures StoreSolvent(storage.users) ==> Solvent()
    {
      this.storage := storage;
      user := None;
      credits := 0;
      isInitialized := false;
      isSubscriptionOpen := false;
      subscriptionMessage := None;
      isGiftOpen := false;
    }

    /**
     * The session-restore effect: the account stored under the session key
     * becomes the current user; if there is none, nothing but the
     * initialisation flag changes.
     */
    method RestoreSession()
      modifies this
      ensures isInitialized
      ensures SessionRecord(storage.users, storage.currentUser).Some? ==>
                user == SessionRecord(storage.users, storage.currentUser) && credits == user.value.credits
      ensures SessionRecord(storage.users, storage.currentUser).None? ==>
                user == old(user) && credits == old(credits)
      ensures isSubscriptionOpen == old(isSubscriptionOpen) && subscriptionMessage == old(subscriptionMessage)
      ensures isGiftOpen == old(isGiftOpen)
      ensures old(Valid()) ==> Valid()
      ensures old(Consistent()) ==> Consistent()
      ensures old(Solvent()) ==> Solvent()
    {
      var restored := SessionRecord(storage.users, storage.currentUser);
      if restored.Some? {
        user := restored;
        credits := restored.value.credits;
      }
      isInitialized := true;
    }

    /**
     * `updateUserInStorage`: the record becomes the session user and the
     * displayed balance, and is written into the stored map if there is one.
     */
    method UpdateUserInStorage(u: User)
      modifies this, storage
      ensures user == Some(u) && credits == u.credits && Valid()
      ensures storage.users == Persist(old(storage.users), u)
      ensures storage.currentUser == old(storage.currentUser)
      ensures SameFlags()
      ensures old(Consistent()) && old(user).Some? && old(user).value.email == u.email ==> Consistent()
      ensures old(Solvent()) && u.credits >= 0 ==> Solvent()
    {
      user := Some(u);
      credits := u.credits;
      storage.users := Persist(storage.users, u);
    }

    /** `handleLogin`: the record becomes the session user and its email the session key. */
    method Login(u: User)
      modifies this, storage
      ensures user == Some(u) && credits == u.credits && Valid()
      ensures storage.currentUser == Some(u.email) && storage.users == old(storage.users)
      ensures SameFlags()
      ensures old(Consistent()) && StoredUnderEmail(storage.users, u) ==> Consistent()
      ensures old(Solvent()) && StoredUnderEmail(storage.users, u) ==> Solvent()
    {
      user := Some(u);
      credits := u.credits;
      storage.currentUser := Some(u.email);
    }

    /** `handleLogout`: no session user, a displayed balance of 0, no session key. */
    method Logout()
      modifies this, storage
      ensures user == None && credits == 0 && Valid()
      ensures storage.currentUser == None && storage.users == old(storage.users)
      ensures SameFlags()
      ensures old(Consistent()) ==> Consistent()
      ensures old(Solvent()) ==> Solvent()
    {
      user := None;
      credits := 0;
      storage.currentUser := None;
    }

    /** `handleConsumeCredit`: debit one image, clamped at zero; nothing without a session user. */
    method ConsumeCredit()
      modifies this, storage
      ensures old(user).None? ==> unchanged(this) && unchanged(storage)
      ensures old(user).Some? ==>
                && user == Some(Debit(old(user).value)) && credits == user.value.credits
                && storage.users == Persist(old(storage.users), user.value)
                && storage.currentUser == old(storage.currentUser)
      ensures SameFlags()
      ensures old(Valid()) ==> Valid()
      ensures old(Consistent()) ==> Consistent()
      ensures old(Solvent()) ==> Solvent()
    {
      if user.None? {
        return;
      }
      UpdateUserInStorage(Debit(user.value));
    }

    /** `handleAddCredits`: add the amount; nothing without a session user. */
    method AddCredits(amount: int)
      modifies this, storage
      ensures old(user).None? ==> unchanged(this) && unchanged(storage)
      ensures old(user).Some? ==>
                && user == Some(Credit(old(user).value, amount)) && credits == user.value.credits
                && storage.users == Persist(old(storage.users), user.value)
                && storage.currentUser == old(storage.currentUser)
      ensures SameFlags()
      ensures old(Valid()) ==> Valid()
      ensures old(Consistent()) ==> Consistent()
      ensures old(Solvent()) && amount >= 0 ==> Solvent()
    {
      if user.None? {
        return;
      }
      UpdateUserInStorage(Credit(user.value, amount));
    }

    /**
     * `handleRedeemGift`: a refusal changes nothing; a redemption credits the
     * bonus and sets the gift flag in one update of the record.
     */
    method RedeemGift(code: string) returns (result: RedeemResult)
      modifies this, storage
      ensures result == ResultOf(Redeem(old(user), code))
      ensures Redeem(old(user), code).Rejected? ==> unchanged(this) && unchanged(storage)
      ensures Redeem(old(user), code).Redeemed? ==>
                && user == Some(Redeem(old(user), code).updated) && credits == user.value.credits
                && storage.users == Persist(old(storage.users), user.value)
                && storage.currentUser == old(storage.currentUser)
      ensures SameFlags()
      ensures old(Valid()) ==> Valid()
      ensures old(Consistent()) ==> Consistent()
      ensures old(Solvent()) ==> Solvent()
    {
      var outcome := Redeem(user, code);
      if outcome.Redeemed? {
        UpdateUserInStorage(outcome.updated);
      }
      result := ResultOf(outcome);
    }

    /** `openSubscription`: an empty or missing message is stored as no message. */
    method OpenSubscription(message: Option<string>)
      modifies this
      ensures isSubscriptionOpen
      ensures subscriptionMessage == if message.Some? && message.value != "" then message else None
      ensures user == old(user) && credits == old(credits) && isGiftOpen == old(isGiftOpen)
      ensures isInitialized == old(isInitialized)
      ensures old(Valid()) ==> Valid()
      ensures old(Consistent()) ==> Consistent()
      ensures old(Solvent()) ==> Solvent()
    {
      subscriptionMessage := if message.Some? && message.value != "" then message else None;
      isSubscriptionOpen := true;
    }

    /** `closeSubscription`. */
    method CloseSubscription()
      modifies this
      ensures !isSubscriptionOpen && subscriptionMessage == None
      ensures user == old(user) && credits == old(credits) && isGiftOpen == old(isGiftOpen)
      ensures isInitialized == old(isInitialized)
      ensures old(Valid()) ==> Valid()
      ensures old(Consistent()) ==> Consistent()
      ensures old(Solvent()) ==> Solvent()
    {
      isSubscriptionOpen := false;
      subscriptionMessage := None;
    }

    /** The gift button's `setIsGiftOpen(true)` and the modal's `onClose`. */
    method SetGiftOpen(open: bool)
      modifies this
      ensures isGiftOpen == open
      ensures user == old(user) && credits == old(credits) && isInitialized == old(isInitialized)
      ensures isSubscriptionOpen == old(isSubscriptionOpen) && subscriptionMessage == old(subscriptionMessage)
      ensures old(Valid()) ==> Valid()
      ensures old(Consistent()) ==> Consistent()
      ensures old(Solvent()) ==> Solvent()
    {
      isGiftOpen := open;
    }
  }

  /** The record is the one stored under its own email. */
  predicate StoredUnderEmail(store: Option<map<string, User>>, u: User) {
    store.Some? && u.email in store.value && store.value[u.email] == u
  }

  /**
   * Mounting the root component: initial state, then the session-restore
   * effect. A user is current exactly when the session key names a stored account.
   */
  method Mount(storage: LocalStorage) returns (app: App)
    ensures fresh(app) && app.storage == storage && app.isInitialized
    ensures app.user == SessionRecord(storage.users, storage.currentUser)
    ensures app.Valid()
    ensures WellKeyed(storage.users) ==> app.Consistent()
    ensures StoreSolvent(storage.users) ==> app.Solvent()
  {
    app := new App(storage);
    app.RestoreSession();
  }
}
