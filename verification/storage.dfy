/** The in-memory credential store (`MemStorage`): a map from id to user
    record plus the sequential id counter. Every operation is a pure function
    from the old store to its result and the new store. */
module Storage {
  import opened Wrappers
  import opened Schema

  datatype Store = Store(users: map<nat, User>, nextId: nat)

  datatype StoreError = UserNotFound

  /** The result of a create or update: the new store and the record written. */
  datatype Stored = Stored(store: Store, user: User)

  /** Prefix that marks the synthesized password of an SSO-created user. */
  const ScalekitPasswordPrefix: string := "scalekit_"

  /** The password was synthesized for an SSO-created user. */
  predicate IsScalekitPassword(password: string)
  {
    |ScalekitPasswordPrefix| <= |password| && password[..|ScalekitPasswordPrefix|] == ScalekitPasswordPrefix
  }

  /** Representation invariant: every key is below the counter, ids start at
      1, and each record sits under its own id. */
  ghost predicate Valid(s: Store)
  {
    && s.nextId >= 1
    && forall k :: k in s.users ==> 1 <= k < s.nextId && s.users[k].id == k
  }

  /** The freshly constructed store: no users, counter at 1. */
  function NewStore(): (s: Store)
    ensures Valid(s)
    ensures |s.users| == 0 && s.nextId == 1
  {
    Store(map[], 1)
  }

  /** The least key in [k, bound) whose record satisfies `p`. */
  function FirstFrom(users: map<nat, User>, p: User -> bool, k: nat, bound: nat): (r: Option<nat>)
    ensures r.Some? ==> k <= r.value < bound && r.value in users && p(users[r.value])
    ensures r.Some? ==> forall j :: k <= j < r.value && j in users ==> !p(users[j])
    ensures r.None? ==> forall j :: k <= j < bound && j in users ==> !p(users[j])
    decreases bound - k
  {
    if k >= bound then None
    else if k in users && p(users[k]) then Some(k)
    else FirstFrom(users, p, k + 1, bound)
  }

  /** `Array.from(users.values()).find(p)`. A JavaScript `Map` iterates in
      insertion order; ids are inserted in increasing order and an update
      keeps a key's position, so that order is ascending id. */
  function Find(s: Store, p: User -> bool): (r: Option<User>)
    requires Valid(s)
    ensures r.Some? ==> r.value.id in s.users && s.users[r.value.id] == r.value && p(r.value)
    ensures r.Some? ==> forall k :: k in s.users && k < r.value.id ==> !p(s.users[k])
    ensures r.None? <==> forall k :: k in s.users ==> !p(s.users[k])
  {
    match FirstFrom(s.users, p, 0, s.nextId)
    case Some(k) => Some(s.users[k])
    case None => None
  }

  /** `getUser(id)`: the record stored under `id`, if any. */
  function GetUser(s: Store, id: nat): (r: Option<User>)
    requires Valid(s)
    ensures r.Some? <==> id in s.users
    ensures r.Some? ==> r.value.id == id && r.value == s.users[id]
  {
    if id in s.users then Some(s.users[id]) else None
  }

  /** `getUserByUsername`: the first record whose username equals `name`
      exactly. */
  function GetUserByUsername(s: Store, name: string): (r: Option<User>)
    requires Valid(s)
    ensures r.Some? ==> r.value.username == name && r.value.id in s.users && s.users[r.value.id] == r.value
    ensures r.Some? ==> forall k :: k in s.users && k < r.value.id ==> s.users[k].username != name
    ensures r.None? <==> forall k :: k in s.users ==> s.users[k].username != name
  {
    Find(s, (u: User) => u.username == name)
  }

  /** `getUserByEmail`: the first record whose email equals `email`; a null
      email never matches a string. */
  function GetUserByEmail(s: Store, email: string): (r: Option<User>)
    requires Valid(s)
    ensures r.Some? ==> r.value.email == Some(email) && r.value.id in s.users && s.users[r.value.id] == r.value
    ensures r.Some? ==> forall k :: k in s.users && k < r.value.id ==> s.users[k].email != Some(email)
    ensures r.None? <==> forall k :: k in s.users ==> s.users[k].email != Some(email)
  {
    Find(s, (u: User) => u.email == Some(email))
  }

  /** `getUserByScalekitId`: the first record linked to provider subject `sid`. */
  function GetUserByScalekitId(s: Store, sid: string): (r: Option<User>)
    requires Valid(s)
    ensures r.Some? ==> r.value.scalekitId == Some(sid) && r.value.id in s.users && s.users[r.value.id] == r.value
    ensures r.Some? ==> forall k :: k in s.users && k < r.value.id ==> s.users[k].scalekitId != Some(sid)
    ensures r.None? <==> forall k :: k in s.users ==> s.users[k].scalekitId != Some(sid)
  {
    Find(s, (u: User) => u.scalekitId == Some(sid))
  }

  /** Stores `u` under the current counter value and advances the counter. */
  function Insert(s: Store, u: User): (r: Stored)
    requires Valid(s)
    requires u.id == s.nextId
    ensures u.id !in s.users
    ensures r.user == u
    ensures r.store.nextId == s.nextId + 1
    ensures r.store.users.Keys == s.users.Keys + {u.id}
    ensures |r.store.users| == |s.users| + 1
    ensures forall k :: k in s.users ==> r.store.users[k] == s.users[k]
    ensures r.store.users[u.id] == u
    ensures Valid(r.store)
  {
    Stored(Store(s.users[u.id := u], s.nextId + 1), u)
  }

  /** `createUser`: a local user with the given username and password and
      every SSO and token column null. No uniqueness check is made. */
  function CreateUser(s: Store, insert: InsertUser): (r: Stored)
    requires Valid(s)
    ensures r.user.id == s.nextId && r.user.id !in s.users
    ensures r.store.nextId == s.nextId + 1
    ensures r.store.users.Keys == s.users.Keys + {r.user.id}
    ensures |r.store.users| == |s.users| + 1
    ensures forall k :: k in s.users ==> r.store.users[k] == s.users[k]
    ensures r.store.users[r.user.id] == r.user
    ensures r.user.username == insert.username && r.user.password == insert.password
    ensures r.user.scalekitId.None? && r.user.email.None?
    ensures r.user.firstName.None? && r.user.lastName.None?
    ensures r.user.accessToken.None? && r.user.refreshToken.None? && r.user.idToken.None?
    ensures r.user.tokenExpiresAt.None?
    ensures Valid(r.store)
  {
    Insert(s, User(s.nextId, insert.username, insert.password,
                   None, None, None, None, None, None, None, None))
  }

  /** `createScalekitUser`: an SSO user with a synthesized password
      `"scalekit_" + randomSuffix` (the suffix stands for the source's
      `Math.random()` text); absent or null optional fields become null, the
      rest are copied. No uniqueness check is made. */
  function CreateScalekitUser(s: Store, data: InsertScalekitUser, randomSuffix: string): (r: Stored)
    requires Valid(s)
    ensures r.user.id == s.nextId && r.user.id !in s.users
    ensures r.store.nextId == s.nextId + 1
    ensures r.store.users.Keys == s.users.Keys + {r.user.id}
    ensures |r.store.users| == |s.users| + 1
    ensures forall k :: k in s.users ==> r.store.users[k] == s.users[k]
    ensures r.store.users[r.user.id] == r.user
    ensures r.user.username == data.username
    ensures IsScalekitPassword(r.user.password)
    ensures r.user.scalekitId == OrNull(data.scalekitId) && r.user.email == OrNull(data.email)
    ensures r.user.firstName == OrNull(data.firstName) && r.user.lastName == OrNull(data.lastName)
    ensures r.user.accessToken == OrNull(data.accessToken)
    ensures r.user.refreshToken == OrNull(data.refreshToken)
    ensures r.user.idToken == OrNull(data.idToken)
    ensures r.user.tokenExpiresAt == OrNull(data.tokenExpiresAt)
    ensures Valid(r.store)
  {
    Insert(s, User(s.nextId, data.username, ScalekitPasswordPrefix + randomSuffix,
                   OrNull(data.scalekitId), OrNull(data.email),
                   OrNull(data.firstName), OrNull(data.lastName),
                   OrNull(data.accessToken), OrNull(data.refreshToken),
                   OrNull(data.idToken), OrNull(data.tokenExpiresAt)))
  }

  /** `updateUserTokens`: fails with `UserNotFound` for an unknown id;
      otherwise replaces exactly the four token columns of that record and
      returns the stored record. */
  function UpdateUserTokens(s: Store, id: nat, accessToken: string, refreshToken: string,
                            idToken: string, expiresAt: int): (r: Result<Stored, StoreError>)
    requires Valid(s)
    ensures r.Failure? <==> id !in s.users
    ensures r.Failure? ==> r.error == UserNotFound
    ensures r.Success? ==> r.value.store.nextId == s.nextId
    ensures r.Success? ==> r.value.store.users == s.users[id := r.value.user]
    ensures r.Success? ==>
              && r.value.user.accessToken == Some(accessToken)
              && r.value.user.refreshToken == Some(refreshToken)
              && r.value.user.idToken == Some(idToken)
              && r.value.user.tokenExpiresAt == Some(expiresAt)
    ensures r.Success? ==> SameIdentity(r.value.user, s.users[id])
    ensures r.Success? ==> Valid(r.value.store)
  {
    if id !in s.users then Failure(UserNotFound)
    else
      var u := s.users[id];
      var updated := u.(accessToken := Some(accessToken), refreshToken := Some(refreshToken),
                        idToken := Some(idToken), tokenExpiresAt := Some(expiresAt));
      Success(Stored(Store(s.users[id := updated], s.nextId), updated))
  }

  /** `getUser` on the id a create returned gives back exactly the record
      that create returned, and nothing is found under the next id yet. */
  lemma GetUserAfterCreate(s: Store, insert: InsertUser, data: InsertScalekitUser, randomSuffix: string)
    requires Valid(s)
    ensures var r := CreateUser(s, insert);
            GetUser(r.store, r.user.id) == Some(r.user) && GetUser(r.store, r.store.nextId).None?
    ensures var r := CreateScalekitUser(s, data, randomSuffix);
            GetUser(r.store, r.user.id) == Some(r.user) && GetUser(r.store, r.store.nextId).None?
  {
  }

  /** `after` is `before` with exactly one record `u` added under the next id. */
  ghost predicate AddedOne(before: Store, after: Store, u: User)
  {
    && u.id == before.nextId && u.id !in before.users
    && after.nextId == before.nextId + 1
    && after.users == before.users[u.id := u]
  }

  /** `after` is `before` with the record under `id` replaced by `u`, which
      differs from the old record at most in the four token columns. */
  ghost predicate TokensReplaced(before: Store, after: Store, id: nat, u: User)
  {
    && id in before.users && u.id == id
    && after.nextId == before.nextId
    && after.users == before.users[id := u]
    && SameIdentity(u, before.users[id])
  }

  /** Two records agree on every column except the four token columns. */
  predicate SameIdentity(a: User, b: User)
  {
    && a.id == b.id && a.username == b.username && a.password == b.password
    && a.scalekitId == b.scalekitId && a.email == b.email
    && a.firstName == b.firstName && a.lastName == b.lastName
  }
}
