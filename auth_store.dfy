/**
 * The authentication store of `src/store/authStore.js`: the current user,
 * the `isAuthenticated` flag and the persisted copy of the user in browser
 * storage, which the store writes on every change.
 */
module AuthStore {
  import opened Wrappers
  import opened Text

  /** `STORAGE_KEYS.USER`. */
  const USER_KEY := "shopping_user"

  /** The user record as far as this model reads it. */
  datatype User = User(
    role: Option<string>,
    firstName: Option<string>,
    lastName: Option<string>,
    phone: Option<string>,
    profileImage: Option<string>)

  /**
   * Browser storage, abstracted to already-parsed entries: a key that is
   * absent has been removed; a key mapped to `None` holds the JSON `null`.
   */
  type Storage = map<string, Option<User>>

  /** `getItem(STORAGE_KEYS.USER)`: the stored user, or null. */
  function StoredUser(storage: Storage): Option<User> {
    if USER_KEY in storage then storage[USER_KEY] else None
  }

  /** `isAdmin`: the role is exactly 'admin', compared case-sensitively. */
  predicate IsAdminUser(user: Option<User>) {
    user.Some? && user.value.role == Some("admin")
  }

  /** Whether a cross-tab `storage` event clears this tab's user. */
  predicate StorageEventClears(key: Option<string>, newValue: Option<string>) {
    key == Some(USER_KEY) && !Truthy(newValue)
  }

  class Store {
    var user: Option<User>
    var isAuthenticated: bool
    var isLoading: bool
    var storage: Storage

    /** `isAuthenticated` agrees with the presence of a user. */
    predicate Consistent()
      reads this
    {
      isAuthenticated <==> user.Some?
    }

    /** The initial state is read from storage: authenticated exactly when a user is stored. */
    constructor (persisted: Storage)
      ensures storage == persisted
      ensures user == StoredUser(persisted)
      ensures isAuthenticated <==> StoredUser(persisted).Some?
      ensures !isLoading
      ensures Consistent()
    {
      storage := persisted;
      user := StoredUser(persisted);
      isAuthenticated := StoredUser(persisted).Some?;
      isLoading := false;
    }

    /**
     * `setUser(u)`: persists `u`, stores it and sets `isAuthenticated` to true
     * whatever `u` is, so `setUser(null)` leaves the store inconsistent.
     */
    method SetUser(u: Option<User>)
      modifies this
      ensures user == u && isAuthenticated
      ensures storage == old(storage)[USER_KEY := u]
      ensures StoredUser(storage) == u
      ensures isLoading == old(isLoading)
      ensures Consistent() <==> u.Some?
    {
      storage := storage[USER_KEY := u];
      user, isAuthenticated := u, true;
    }

    /** `clearUser`: removes the persisted entry and clears the user and the flag. */
    method ClearUser()
      modifies this
      ensures user == None && !isAuthenticated
      ensures storage == old(storage) - {USER_KEY}
      ensures StoredUser(storage) == None
      ensures isLoading == old(isLoading)
      ensures Consistent()
    {
      storage := storage - {USER_KEY};
      user, isAuthenticated := None, false;
    }

    /** `setLoading` changes only `isLoading`. */
    method SetLoading(b: bool)
      modifies this
      ensures isLoading == b
      ensures user == old(user) && isAuthenticated == old(isAuthenticated) && storage == old(storage)
    {
      isLoading := b;
    }

    /** `isAdmin`, read from the current state. */
    predicate IsAdmin()
      reads this
    {
      IsAdminUser(user)
    }

    /** `logout` has exactly the effect of `clearUser`. */
    method Logout()
      modifies this
      ensures user == None && !isAuthenticated
      ensures storage == old(storage) - {USER_KEY}
      ensures isLoading == old(isLoading)
    {
      ClearUser();
    }

    /**
     * The cross-tab `storage` listener: an event for the user key whose new
     * value is empty clears the user; every other event changes nothing.
     */
    method OnStorageEvent(key: Option<string>, newValue: Option<string>)
      modifies this
      ensures StorageEventClears(key, newValue) ==>
        user == None && !isAuthenticated && storage == old(storage) - {USER_KEY}
      ensures !StorageEventClears(key, newValue) ==>
        user == old(user) && isAuthenticated == old(isAuthenticated) && storage == old(storage)
      ensures isLoading == old(isLoading)
    {
      if key == Some(USER_KEY) && !Truthy(newValue) {
        ClearUser();
      }
    }
  }

  /** A user whose role is 'Admin' is not an administrator for `isAdmin`. */
  lemma IsAdminIsCaseSensitive(u: User)
    requires u.role == Some("Admin")
    ensures !IsAdminUser(Some(u))
  {
    assert "Admin"[0] != "admin"[0];
  }
}
