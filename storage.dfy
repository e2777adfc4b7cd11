/**
 * The two browser storage entries the application uses: the serialised
 * account map under 'royal_users' and the session's email under
 * 'royal_current_user'. Serialisation is not modelled; an absent entry is `None`.
 */
module Storage {
  import opened Wrappers
  import opened Types

  class LocalStorage {
    var users: Option<map<string, User>>
    var currentUser: Option<string>

    constructor (users: Option<map<string, User>>, currentUser: Option<string>)
      ensures this.users == users && this.currentUser == currentUser
    {
      this.users := users;
      this.currentUser := currentUser;
    }
  }

  /** Every account is stored under its own email. */
  predicate WellKeyed(store: Option<map<string, User>>) {
    store.Some? ==> forall k :: k in store.value ==> store.value[k].email == k
  }

  /** No stored account has a negative balance. */
  predicate StoreSolvent(store: Option<map<string, User>>) {
    store.Some? ==> forall k :: k in store.value ==> store.value[k].credits >= 0
  }

  /**
   * The session-restore effect's lookup: a non-empty session key (the empty
   * string is falsy) and a stored map holding an account under that key.
   */
  function SessionRecord(store: Option<map<string, User>>, key: Option<string>): (r: Option<User>)
    ensures r.Some? <==> key.Some? && key.value != "" && store.Some? && key.value in store.value
    ensures r.Some? ==> r.value == store.value[key.value]
  {
    if key.Some? && key.value != "" && store.Some? && key.value in store.value
    then Some(store.value[key.value])
    else None
  }

  /** In a well-keyed store the restored account is the one whose email is the session key. */
  lemma RestoredOwnsKey(store: Option<map<string, User>>, key: Option<string>)
    requires WellKeyed(store) && SessionRecord(store, key).Some?
    ensures SessionRecord(store, key).value.email == key.value
  {
  }
}
