/**
 * `AuthProvider`: the client-side signed-in user, mirrored into
 * `localStorage` under the key `user`.  JSON (de)serialisation is the
 * identity on records: a stored entry is either a serialised user or text
 * that does not parse.
 */
module AuthContext {
  import opened Wrappers
  import opened Navigation

  /** A user record; every field is optional because `updateUser` accepts a `Partial<User>`. */
  datatype User = User(name: Option<string>, email: Option<string>, avatarUrl: Option<string>)

  const TestUser: User := User(Some("Test User"), Some("test@example.com"), Some("https://github.com/shadcn.png"))
  const UserKey: string := "user"

  /** A `localStorage` value: a serialised user, or text `JSON.parse` rejects (the empty string among them). */
  datatype Stored = Serialized(user: User) | Unparseable(raw: string)

  /** The user a storage map holds, if its `user` entry parses. */
  function PersistedUser(storage: map<string, Stored>): (u: Option<User>)
    ensures u.Some? <==> UserKey in storage && storage[UserKey].Serialized?
    ensures u.Some? ==> u.value == storage[UserKey].user
  {
    if UserKey in storage && storage[UserKey].Serialized? then Some(storage[UserKey].user) else None
  }

  /** `{ ...prevUser, ...userData }`: given fields win, the others keep their previous values. */
  function Merge(prev: Option<User>, patch: User): (r: User)
    ensures patch.name.Some? ==> r.name == patch.name
    ensures patch.email.Some? ==> r.email == patch.email
    ensures patch.avatarUrl.Some? ==> r.avatarUrl == patch.avatarUrl
    ensures patch.name.None? ==> r.name == (if prev.Some? then prev.value.name else None)
    ensures patch.email.None? ==> r.email == (if prev.Some? then prev.value.email else None)
    ensures patch.avatarUrl.None? ==> r.avatarUrl == (if prev.Some? then prev.value.avatarUrl else None)
  {
    var base := prev.GetOr(User(None, None, None));
    User(if patch.name.Some? then patch.name else base.name,
         if patch.email.Some? then patch.email else base.email,
         if patch.avatarUrl.Some? then patch.avatarUrl else base.avatarUrl)
  }

  /** Applying the same update twice leaves the same user as applying it once. */
  lemma MergeIdempotent(prev: Option<User>, patch: User)
    ensures Merge(Some(Merge(prev, patch)), patch) == Merge(prev, patch)
  {
  }

  /** Over no user at all, the update is the whole record. */
  lemma MergeOverNobody(patch: User)
    ensures Merge(None, patch) == patch
  {
  }

  class AuthProvider {
    var user: Option<User>
    var isInitialized: bool
    var storage: map<string, Stored>
    const router: Router

    /** The in-memory user is the one `localStorage` would restore. */
    ghost predicate Synced()
      reads this
    {
      user == PersistedUser(storage)
    }

    /** The first render: nobody signed in, not initialised yet. */
    constructor (storage: map<string, Stored>, router: Router)
      ensures user == None && !isInitialized
      ensures this.storage == storage && this.router == router
    {
      user := None;
      isInitialized := false;
      this.storage := storage;
      this.router := router;
    }

    /** The mount effect: restore a stored user if there is one that parses, then mark initialised. */
    method Initialize()
      modifies this
      ensures isInitialized
      ensures user == if PersistedUser(storage).Some? then PersistedUser(storage) else old(user)
      ensures storage == old(storage)
      ensures old(user) == None ==> Synced()
    {
      if UserKey in storage {
        var stored := storage[UserKey];
        var truthy := !(stored.Unparseable? && stored.raw == "");
        if truthy {
          match stored
          case Serialized(u) => user := Some(u);
          case Unparseable(_) => // JSON.parse throws: the error is logged and swallowed
        }
      }
      isInitialized := true;
    }

    /** `updateUser`: overlay the given fields and persist the result. */
    method UpdateUser(patch: User)
      modifies this
      ensures user == Some(Merge(old(user), patch))
      ensures storage == old(storage)[UserKey := Serialized(Merge(old(user), patch))]
      ensures isInitialized == old(isInitialized)
      ensures Synced()
    {
      var newUser := Merge(user, patch);
      storage := storage[UserKey := Serialized(newUser)];
      user := Some(newUser);
    }

    /** `login`: the test credentials sign in and go to `/chat`; anything else throws. */
    method Login(email: string, password: string) returns (failure: Option<string>)
      modifies this, router
      ensures failure.None? <==> email == "test@example.com" && password == "password123"
      ensures failure.None? ==>
                user == Some(TestUser) && storage == old(storage)[UserKey := Serialized(TestUser)]
                && router.pushed == old(router.pushed) + ["/chat"] && Synced()
      ensures failure.Some? ==>
                failure.value == "Invalid credentials" && user == old(user) && storage == old(storage)
                && router.pushed == old(router.pushed)
      ensures isInitialized == old(isInitialized)
    {
      if email == "test@example.com" && password == "password123" {
        var userData := User(Some("Test User"), Some("test@example.com"), Some("https://github.com/shadcn.png"));
        user := Some(userData);
        storage := storage[UserKey := Serialized(userData)];
        router.Push("/chat");
        return None;
      }
      return Some("Invalid credentials");
    }

    /** `logout`: forget the user, in memory and in storage, and go to `/login`. */
    method Logout()
      modifies this, router
      ensures user == None && storage == old(storage) - {UserKey}
      ensures router.pushed == old(router.pushed) + ["/login"]
      ensures isInitialized == old(isInitialized)
      ensures Synced()
    {
      user := None;
      storage := storage - {UserKey};
      router.Push("/login");
    }
  }

  /** A page reload: a fresh provider over the same storage restores the same user. */
  method Reload(p: AuthProvider, router: Router) returns (q: AuthProvider)
    requires p.Synced()
    ensures fresh(q) && q.isInitialized && q.user == p.user && q.storage == p.storage
  {
    q := new AuthProvider(p.storage, router);
    q.Initialize();
  }
}
