/**
 * The sign-in screen (components/AuthScreen.tsx): field validation, then a
 * login or a signup against the stored account map.
 */
module Auth {
  import opened Wrappers
  import opened Types
  import opened Text
  import opened Storage
  import opened AppRoot

  const FILL_ALL_FIELDS: string := "Please fill in all fields."
  const INVALID_CREDENTIALS: string := "Invalid email or password."
  const USER_EXISTS: string := "User already exists. Please login."

  /**
   * Accounts are keyed by the lower-cased, trimmed email: the key is a slice of
   * the lower-cased email with only whitespace around it, and has no upper-case
   * letter and no whitespace at either end.
   */
  function NormalizeEmail(email: string): (key: string)
    ensures |key| <= |email| && NoUppercase(key)
    ensures key == [] || (!IsWhitespace(key[0]) && !IsWhitespace(key[|key| - 1]))
    ensures InnerText(key, ToLower(email))
  {
    var lowered := ToLower(email);
    TrimKeepsNoUppercase(lowered);
    Trim(lowered)
  }

  /** What a submission decides: a refusal with its message, or the user to log in and the store after it. */
  datatype AuthOutcome = Refused(message: string) | Authenticated(user: User, store: Option<map<string, User>>)

  /** The delayed part of `handleSubmit`: login or signup under the normalised key. */
  function Decide(isLogin: bool, key: string, password: string, store: Option<map<string, User>>): (r: AuthOutcome)
    ensures r.Authenticated? ==> r.user.password == Some(password) && r.store.Some? && key in r.store.value
    ensures r.Authenticated? ==> r.store.value[key] == r.user
    ensures isLogin ==> (r.Authenticated? ==> r.store == store) && (r.Refused? ==> r.message == INVALID_CREDENTIALS)
    ensures !isLogin && r.Authenticated? ==>
      r.user.email == key && r.user.credits == INITIAL_CREDITS && !r.user.redeemedGift
    ensures !isLogin && r.Refused? ==> r.message == USER_EXISTS
  {
    var users := store.GetOr(map[]);
    if isLogin then
      if key in users && users[key].password == Some(password) then Authenticated(users[key], store)
      else Refused(INVALID_CREDENTIALS)
    else if key in users then Refused(USER_EXISTS)
    else
      var created := User(key, Some(password), INITIAL_CREDITS, false);
      Authenticated(created, Some(users[key := created]))
  }

  /** `handleSubmit`'s decision on the mode, the two fields and the stored account map. */
  function Authenticate(isLogin: bool, email: string, password: string, store: Option<map<string, User>>): (r: AuthOutcome)
    ensures r.Authenticated? ==> email != "" && password != "" && r.user.password == Some(password)
    ensures r.Refused? ==> r.message in {FILL_ALL_FIELDS, INVALID_CREDENTIALS, USER_EXISTS}
  {
    if email == "" || password == "" then Refused(FILL_ALL_FIELDS)
    else Decide(isLogin, NormalizeEmail(email), password, store)
  }

  /** An empty field is refused before the store is consulted, in either mode. */
  lemma EmptyFieldRefused(isLogin: bool, email: string, password: string, store: Option<map<string, User>>)
    requires email == "" || password == ""
    ensures Authenticate(isLogin, email, password, store) == Refused(FILL_ALL_FIELDS)
  {
  }

  /**
   * Login succeeds exactly when an account is stored under the normalised
   * email with exactly that password; it never writes the store.
   */
  lemma LoginIff(email: string, password: string, store: Option<map<string, User>>)
    ensures var r := Authenticate(true, email, password, store);
      && (r.Authenticated? <==>
            && email != "" && password != ""
            && store.Some? && NormalizeEmail(email) in store.value
            && store.value[NormalizeEmail(email)].password == Some(password))
      && (r.Authenticated? ==> r.user == store.value[NormalizeEmail(email)] && r.store == store)
      && (r.Refused? && email != "" && password != "" ==> r.message == INVALID_CREDENTIALS)
  {
  }

  /**
   * Signup succeeds exactly when no account is stored under the normalised
   * email (an absent store counts as empty); it then adds exactly one record
   * with the initial balance and leaves every other record unchanged.
   */
  lemma SignupIff(email: string, password: string, store: Option<map<string, User>>)
    ensures var r := Authenticate(false, email, password, store);
      var key := NormalizeEmail(email);
      var users := store.GetOr(map[]);
      && (r.Authenticated? <==> email != "" && password != "" && key !in users)
      && (r.Authenticated? ==>
            && r.user == User(key, Some(password), INITIAL_CREDITS, false)
            && r.store.Some? && r.store.value.Keys == users.Keys + {key}
            && r.store.value[key] == r.user
            && (forall k :: k in users ==> k in r.store.value && r.store.value[k] == users[k]))
      && (r.Refused? && email != "" && password != "" ==> r.message == USER_EXISTS)
  {
    if email != "" && password != "" {
      var key := NormalizeEmail(email);
      var users := store.GetOr(map[]);
      if key !in users {
        var created := User(key, Some(password), INITIAL_CREDITS, false);
        assert Authenticate(false, email, password, store) == Authenticated(created, Some(users[key := created]));
      }
    }
  }

  /** Both modes keep the store keyed by email, and a logged-in record is the one stored under its email. */
  lemma AuthenticateKeepsKeys(isLogin: bool, email: string, password: string, store: Option<map<string, User>>)
    requires WellKeyed(store)
    ensures var r := Authenticate(isLogin, email, password, store);
      r.Authenticated? ==> WellKeyed(r.store) && StoredUnderEmail(r.store, r.user)
  {
    if email != "" && password != "" {
      var key := NormalizeEmail(email);
      var users := store.GetOr(map[]);
      if !isLogin && key !in users {
        var created := User(key, Some(password), INITIAL_CREDITS, false);
        var written := users[key := created];
        assert Authenticate(isLogin, email, password, store) == Authenticated(created, Some(written));
        forall k | k in written
          ensures written[k].email == k
        {
          if k != key {
            assert store.Some? && k in store.value;
          }
        }
      }
    }
  }

  /** A store without negative balances keeps none after a signup. */
  lemma AuthenticateKeepsSolvent(isLogin: bool, email: string, password: string, store: Option<map<string, User>>)
    requires StoreSolvent(store)
    ensures var r := Authenticate(isLogin, email, password, store);
      r.Authenticated? ==> StoreSolvent(r.store) && r.user.credits >= 0
  {
    if email != "" && password != "" && !isLogin {
      var key := NormalizeEmail(email);
      var users := store.GetOr(map[]);
      if key !in users {
        var created := User(key, Some(password), INITIAL_CREDITS, false);
        var written := users[key := created];
        assert Authenticate(isLogin, email, password, store) == Authenticated(created, Some(written));
        forall k | k in written
          ensures written[k].credits >= 0
        {
          if k != key {
            assert store.Some? && k in store.value;
          }
        }
      }
    }
  }

  /** Padding an email with whitespace or changing the case of its letters does not change its key. */
  lemma NormalizeVariant(email: string, variant: string, p: string, q: string)
    requires ToLower(variant) == ToLower(email)
    requires AllWhitespace(p) && AllWhitespace(q)
    ensures NormalizeEmail(p + variant + q) == NormalizeEmail(email)
  {
    ToLowerAppend(p + variant, q);
    ToLowerAppend(p, variant);
    ToLowerWhitespace(p);
    ToLowerWhitespace(q);
    TrimPadded(p, ToLower(email), q);
  }

  /**
   * After a successful signup, logging in with the same password and any
   * case or whitespace variant of the email succeeds as the new account.
   */
  lemma SignupThenLogin(email: string, password: string, store: Option<map<string, User>>,
                        variant: string, p: string, q: string)
    requires Authenticate(false, email, password, store).Authenticated?
    requires ToLower(variant) == ToLower(email)
    requires AllWhitespace(p) && AllWhitespace(q)
    ensures var signedUp := Authenticate(false, email, password, store);
      Authenticate(true, p + variant + q, password, signedUp.store) == signedUp
  {
    NormalizeVariant(email, variant, p, q);
    assert |ToLower(variant)| == |variant|;
    assert variant != "";
    assert p + variant + q != "" by {
      assert |p + variant + q| >= |variant|;
    }
  }

  class AuthScreen {
    var isLogin: bool
    var email: string
    var password: string
    var error: string
    var loading: bool

    constructor ()
      ensures isLogin && email == "" && password == "" && error == "" && !loading
    {
      isLogin := true;
      email := "";
      password := "";
      error := "";
      loading := false;
    }

    /** The two mode tabs: switch mode and clear the error. */
    method SelectMode(login: bool)
      modifies this
      ensures isLogin == login && error == ""
      ensures email == old(email) && password == old(password) && loading == old(loading)
    {
      isLogin := login;
      error := "";
    }

    /** The email field's `onChange`; the value is kept verbatim. */
    method EditEmail(value: string)
      modifies this
      ensures email == value
      ensures isLogin == old(isLogin) && password == old(password) && error == old(error) && loading == old(loading)
    {
      email := value;
    }

    /** The password field's `onChange`; the value is kept verbatim. */
    method EditPassword(value: string)
      modifies this
      ensures password == value
      ensures isLogin == old(isLogin) && email == old(email) && error == old(error) && loading == old(loading)
    {
      password := value;
    }

    /** The submit button is disabled while a submission is in progress. */
    predicate SubmitDisabled()
      reads this
    {
      loading
    }

    /**
     * `handleSubmit`: an empty field is refused at once; otherwise the
     * screen starts loading and the delayed login or signup runs, here
     * without the delay.
     */
    method Submit(app: App)
      modifies this, app, app.storage
      ensures isLogin == old(isLogin) && email == old(email) && password == old(password)
      ensures old(email) == "" || old(password) == "" ==>
        && error == FILL_ALL_FIELDS && loading == old(loading)
        && unchanged(app) && unchanged(app.storage)
      ensures old(email) != "" && old(password) != "" ==>
        var r := Authenticate(old(isLogin), old(email), old(password), old(app.storage.users));
        && Settled(r, app)
        && (r.Refused? ==> error == r.message && !loading)
        && (r.Authenticated? ==> error == "" && loading)
      ensures old(app.Valid()) ==> app.Valid()
      ensures old(app.Consistent()) ==> app.Consistent()
      ensures old(app.Solvent()) ==> app.Solvent()
    {
      error := "";
      if email == "" || password == "" {
        error := FILL_ALL_FIELDS;
        return;
      }
      loading := true;
      Complete(app);
    }

    /**
     * How a decided submission leaves the root component: a refusal changes
     * nothing; an authentication writes the resulting store and logs the user in.
     */
    twostate predicate Settled(r: AuthOutcome, app: App)
      reads app, app.storage
    {
      match r
      case Refused(_) => unchanged(app) && unchanged(app.storage)
      case Authenticated(u, store) =>
        && app.storage.users == store
        && app.user == Some(u) && app.credits == u.credits
        && app.storage.currentUser == Some(u.email)
        && app.SameFlags()
    }

    /** The body of the delayed callback: read the store, then login or signup. */
    method Complete(app: App)
      modifies this, app, app.storage
      ensures isLogin == old(isLogin) && email == old(email) && password == old(password)
      ensures var r := Decide(isLogin, NormalizeEmail(email), password, old(app.storage.users));
        && Settled(r, app)
        && (r.Refused? ==> error == r.message && !loading)
        && (r.Authenticated? ==> error == old(error) && loading == old(loading))
      ensures old(app.Valid()) ==> app.Valid()
      ensures old(app.Consistent()) ==> app.Consistent()
      ensures old(app.Solvent()) ==> app.Solvent()
    {
      var key := NormalizeEmail(email);
      if isLogin {
        CompleteLogin(app, key);
      } else {
        CompleteSignup(app, key);
      }
    }

    /** The login branch of the delayed callback, under the normalised key. */
    method CompleteLogin(app: App, key: string)
      requires isLogin
      modifies this, app, app.storage
      ensures isLogin == old(isLogin) && email == old(email) && password == old(password)
      ensures var r := Decide(true, key, password, old(app.storage.users));
        && Settled(r, app)
        && (r.Refused? ==> error == r.message && !loading)
        && (r.Authenticated? ==> error == old(error) && loading == old(loading))
      ensures old(app.Valid()) ==> app.Valid()
      ensures old(app.Consistent()) ==> app.Consistent()
      ensures old(app.Solvent()) ==> app.Solvent()
    {
      ghost var stored := app.storage.users;
      var users := app.storage.users.GetOr(map[]);
      if key in users && users[key].password == Some(password) {
        if WellKeyed(stored) {
          assert StoredUnderEmail(stored, users[key]);
        }
        app.Login(users[key]);
      } else {
        error := INVALID_CREDENTIALS;
        loading := false;
      }
    }

    /** The signup branch of the delayed callback, under the normalised key. */
    method CompleteSignup(app: App, key: string)
      requires !isLogin
      modifies this, app, app.storage
      ensures isLogin == old(isLogin) && email == old(email) && password == old(password)
      ensures var r := Decide(false, key, password, old(app.storage.users));
        && Settled(r, app)
        && (r.Refused? ==> error == r.message && !loading)
        && (r.Authenticated? ==> error == old(error) && loading == old(loading))
      ensures old(app.Valid()) ==> app.Valid()
      ensures old(app.Consistent()) ==> app.Consistent()
      ensures old(app.Solvent()) ==> app.Solvent()
    {
      var users := app.storage.users.GetOr(map[]);
      if key in users {
        error := USER_EXISTS;
        loading := false;
        return;
      }
      var created := User(key, Some(password), INITIAL_CREDITS, false);
      users := users[key := created];
      app.storage.users := Some(users);
      app.Login(created);
    }
  }
}
