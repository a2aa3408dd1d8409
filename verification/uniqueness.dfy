/** Which store operations keep the table's declared uniqueness constraints.
    The store itself checks none of them: each create adds a record whatever
    it holds, so uniqueness survives only under the caller checks stated as
    preconditions here. */
module Uniqueness {
  import opened Wrappers
  import opened Schema
  import opened Storage

  /** Adding one record under a fresh key keeps the constraints when none of
      its username, email or scalekit_id is used by a stored record. */
  lemma AddFreshKeepsUnique(users: map<nat, User>, u: User)
    requires Unique(users) && u.id !in users
    requires forall k :: k in users ==> users[k].username != u.username
    requires u.email.Some? ==> forall k :: k in users ==> users[k].email != u.email
    requires u.scalekitId.Some? ==> forall k :: k in users ==> users[k].scalekitId != u.scalekitId
    ensures Unique(users[u.id := u])
  {
  }

  /** A local create keeps all three constraints when the username is free
      (its email and scalekit_id are null). */
  lemma CreateUserKeepsUnique(s: Store, insert: InsertUser)
    requires Valid(s) && Unique(s.users)
    requires GetUserByUsername(s, insert.username).None?
    ensures Unique(CreateUser(s, insert).store.users)
  {
    var r := CreateUser(s, insert);
    AddFreshKeepsUnique(s.users, r.user);
  }

  /** A local create with a username already taken always breaks username
      uniqueness: the store adds the second record regardless. */
  lemma CreateUserDuplicateUsername(s: Store, insert: InsertUser)
    requires Valid(s)
    requires GetUserByUsername(s, insert.username).Some?
    ensures !UniqueUsernames(CreateUser(s, insert).store.users)
  {
    var existing := GetUserByUsername(s, insert.username).value;
    var r := CreateUser(s, insert);
    assert r.store.users[existing.id].username == r.store.users[r.user.id].username;
    assert existing.id != r.user.id;
  }

  /** An SSO create keeps all three constraints when its username is free and
      its email and scalekit_id, when given, are not used yet. */
  lemma CreateScalekitUserKeepsUnique(s: Store, data: InsertScalekitUser, randomSuffix: string)
    requires Valid(s) && Unique(s.users)
    requires GetUserByUsername(s, data.username).None?
    requires OrNull(data.email).Some? ==> GetUserByEmail(s, OrNull(data.email).value).None?
    requires OrNull(data.scalekitId).Some? ==> GetUserByScalekitId(s, OrNull(data.scalekitId).value).None?
    ensures Unique(CreateScalekitUser(s, data, randomSuffix).store.users)
  {
    var r := CreateScalekitUser(s, data, randomSuffix);
    AddFreshKeepsUnique(s.users, r.user);
  }

  /** Rewriting records without touching their username, email or
      scalekit_id keeps the constraints. */
  lemma SameIdentitiesKeepUnique(before: map<nat, User>, after: map<nat, User>)
    requires Unique(before) && after.Keys == before.Keys
    requires forall k :: k in after ==> SameIdentity(after[k], before[k])
    ensures Unique(after)
  {
  }

  /** A token update keeps all three constraints: it changes no username,
      email or scalekit_id. */
  lemma UpdateUserTokensKeepsUnique(s: Store, id: nat, accessToken: string, refreshToken: string,
                                    idToken: string, expiresAt: int)
    requires Valid(s) && Unique(s.users)
    requires id in s.users
    ensures Unique(UpdateUserTokens(s, id, accessToken, refreshToken, idToken, expiresAt).value.store.users)
  {
    var users := UpdateUserTokens(s, id, accessToken, refreshToken, idToken, expiresAt).value.store.users;
    assert forall k :: k in users ==> SameIdentity(users[k], s.users[k]);
    SameIdentitiesKeepUnique(s.users, users);
  }
}
