/** The `users` table: the record shape of a user, the two insert shapes,
    and the uniqueness constraints the table declares. Nullable columns are
    `Option`s; NOT NULL columns are plain values. */
module Schema {
  import opened Wrappers

  /** One row of `users`. `id`, `username` and `password` are NOT NULL;
      every other column is nullable. `tokenExpiresAt` is in epoch seconds. */
  datatype User = User(
    id: nat,
    username: string,
    password: string,
    scalekitId: Option<string>,
    email: Option<string>,
    firstName: Option<string>,
    lastName: Option<string>,
    accessToken: Option<string>,
    refreshToken: Option<string>,
    idToken: Option<string>,
    tokenExpiresAt: Option<int>)

  /** The local insert shape: exactly the username and the (hashed) password. */
  datatype InsertUser = InsertUser(username: string, password: string)

  /** An input field that is optional and nullable: absent, null, or given. */
  datatype Field<+T> = Absent | Null | Present(value: T)

  /** `field ?? null`: absent and null both become null; a given value,
      even an empty string, is kept. */
  function OrNull<T>(f: Field<T>): (r: Option<T>)
    ensures r.None? <==> (f.Absent? || f.Null?)
    ensures f.Present? ==> r == Some(f.value)
  {
    match f
    case Present(v) => Some(v)
    case _ => None
  }

  /** The SSO insert shape: `username` is required, every other field is
      optional and nullable. */
  datatype InsertScalekitUser = InsertScalekitUser(
    username: string,
    email: Field<string>,
    scalekitId: Field<string>,
    firstName: Field<string>,
    lastName: Field<string>,
    accessToken: Field<string>,
    refreshToken: Field<string>,
    idToken: Field<string>,
    tokenExpiresAt: Field<int>)

  /** `username` is unique across the table. */
  ghost predicate UniqueUsernames(users: map<nat, User>)
  {
    forall i, j :: i in users && j in users && users[i].username == users[j].username ==> i == j
  }

  /** `email` is unique among the rows where it is not null. */
  ghost predicate UniqueEmails(users: map<nat, User>)
  {
    forall i, j :: i in users && j in users && users[i].email.Some? && users[i].email == users[j].email ==> i == j
  }

  /** `scalekit_id` is unique among the rows where it is not null. */
  ghost predicate UniqueScalekitIds(users: map<nat, User>)
  {
    forall i, j ::
      i in users && j in users && users[i].scalekitId.Some? && users[i].scalekitId == users[j].scalekitId ==> i == j
  }

  /** All three uniqueness constraints of the table. */
  ghost predicate Unique(users: map<nat, User>)
  {
    UniqueUsernames(users) && UniqueEmails(users) && UniqueScalekitIds(users)
  }
}
