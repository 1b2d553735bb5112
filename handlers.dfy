/**
 * The decision rules of the user and collection handlers, with the store,
 * bcrypt and JWT signing outside the model: their outcomes are inputs.
 *
 *  - how a store error becomes 404 or 500 (update and delete of users and of
 *    collection entries);
 *  - the login decision (404, 401 or an issued token payload);
 *  - the data a partial user update hands to the store, and what the store
 *    makes of it.
 */
module Handlers {
  import opened Common

  // ---------------------------------------------------------------------------
  // Store errors

  /** The Prisma error code for "the record to update or delete does not exist". */
  const RecordNotFound: string := "P2025"

  /** What the store can throw: a known-request error with its code, or anything else. */
  datatype StoreError = KnownRequestError(code: string) | OtherError

  /** The status a caught store error is answered with. */
  function StoreErrorStatus(e: StoreError): (status: int)
    ensures status == 404 <==> e == KnownRequestError(RecordNotFound)
    ensures status != 404 ==> status == 500
  {
    if e.KnownRequestError? && e.code == RecordNotFound then 404 else 500
  }

  datatype Resource = UserResource | EntryResource
  datatype Mutation = Update | Delete

  /** What happened inside the handler's `try`: the store call went through, or something threw. */
  datatype StoreOutcome = Done | Failed(error: StoreError)

  function SuccessMessage(res: Resource, op: Mutation): string
  {
    match (res, op)
    case (UserResource, Update) => "User updated successfully"
    case (UserResource, Delete) => "User deleted successfully"
    case (EntryResource, Update) => "Collection entry updated successfully"
    case (EntryResource, Delete) => "Collection entry deleted successfully"
  }

  function NotFoundMessage(res: Resource): string
  {
    match res
    case UserResource => "User not found"
    case EntryResource => "Collection entry not found"
  }

  function ErrorMessage(res: Resource, op: Mutation): string
  {
    match (res, op)
    case (UserResource, Update) => "An error occurred while updating the user"
    case (UserResource, Delete) => "An error occurred while deleting the user"
    case (EntryResource, Update) => "An error occurred while updating the collection entry"
    case (EntryResource, Delete) => "An error occurred while deleting the collection entry"
  }

  /**
   * The answer of `PATCH`/`DELETE` on `/users/:id` and `/collection/:id`:
   * success only when the store call went through; a missing record (P2025)
   * is 404; every other failure is 500.
   */
  function MutationReply(res: Resource, op: Mutation, outcome: StoreOutcome): (r: Response)
    ensures r.status == 200 <==> outcome == Done
    ensures r.status == 404 <==> outcome == Failed(KnownRequestError(RecordNotFound))
    ensures r.status == 200 || r.status == 404 || r.status == 500
    ensures r.status == 200 ==> r.message == SuccessMessage(res, op)
    ensures r.status == 404 ==> r.message == NotFoundMessage(res)
    ensures r.status == 500 ==> r.message == ErrorMessage(res, op)
  {
    match outcome
    case Done => Response(200, SuccessMessage(res, op))
    case Failed(e) =>
      if StoreErrorStatus(e) == 404 then Response(404, NotFoundMessage(res))
      else Response(500, ErrorMessage(res, op))
  }

  /**
   * The store reports a missing id with P2025; an update or delete of a
   * missing id is then always answered 404, never as a success and never as
   * a server error.
   */
  lemma MissingIdIsNotFound(res: Resource, op: Mutation)
    ensures MutationReply(res, op, Failed(KnownRequestError(RecordNotFound))) == Response(404, NotFoundMessage(res))
  {
  }

  // ---------------------------------------------------------------------------
  // Login

  /** The request body's fields the login handler reads. */
  datatype Credentials = Credentials(email: string, password: string)

  /** A stored user as the login handler sees it. */
  datatype UserRow = UserRow(id: int, email: string, digest: string)

  /** The claims signed into the token. */
  datatype Payload = Payload(userId: int, email: string, role: string)

  /** The three ways a login ends. */
  datatype LoginResult =
    | UserNotFound
    | InvalidCredentials
    | LoggedIn(payload: Payload, secret: string, token: string)

  const IssuedRole: string := "user"
  const FallbackSecret: string := "mySecretKey"

  /** `process.env.JWT_SECRET || "mySecretKey"`: an unset or empty variable falls back. */
  function SigningSecret(env: Option<string>): (secret: string)
    ensures env.Some? && env.value != "" ==> secret == env.value
    ensures env.None? || env.value == "" ==> secret == FallbackSecret
    ensures secret != ""
  {
    if env.Some? && env.value != "" then env.value else FallbackSecret
  }

  /**
   * `POST /login`. Each argument is the outcome of one awaited step, in the
   * handler's order: reading the JSON body, looking the user up by email,
   * comparing the password with the stored digest, and signing the payload
   * with the secret chosen from `env`. A step after one that threw is not
   * reached and its argument is ignored.
   *
   * A missing user returns 404 directly. A password mismatch throws a 401
   * inside the `try`; the `catch` turns that and every other throw into the
   * same 401.
   */
  function Login(body: Attempt<Credentials>, lookup: Attempt<Option<UserRow>>, compare: Attempt<bool>,
                 env: Option<string>, signing: Attempt<string>): (r: LoginResult)
    ensures r == UserNotFound <==> body.Returned? && lookup == Returned(None)
    ensures r.LoggedIn? <==>
      && body.Returned? && lookup.Returned? && lookup.value.Some?
      && compare == Returned(true) && signing.Returned?
    ensures r.LoggedIn? ==>
      var user := lookup.value.value;
      r == LoggedIn(Payload(user.id, user.email, IssuedRole), SigningSecret(env), signing.value)
  {
    if body.Threw? || lookup.Threw? then InvalidCredentials
    else if lookup.value.None? then UserNotFound
    else if compare.Threw? || !compare.value then InvalidCredentials
    else if signing.Threw? then InvalidCredentials
    else
      var user := lookup.value.value;
      LoggedIn(Payload(user.id, user.email, IssuedRole), SigningSecret(env), signing.value)
  }

  /**
   * The status and message the client sees for a login result. The 404 and
   * 200 are JSON answers (the 200 also carries the token, not modelled here);
   * the 401 is the framework's plain-text answer to the `HTTPException`
   * re-thrown from the `catch`, its body the exception's message.
   */
  function LoginResponse(r: LoginResult): (resp: Response)
    ensures resp.status == 404 <==> r.UserNotFound?
    ensures resp.status == 401 <==> r.InvalidCredentials?
    ensures resp.status == 200 <==> r.LoggedIn?
  {
    match r
    case UserNotFound => Response(404, "User not found")
    case InvalidCredentials => Response(401, "Invalid credentials")
    case LoggedIn(_, _, _) => Response(200, "Login successful")
  }

  /**
   * A known email with the wrong password is answered 401, an unknown email
   * 404: the two outcomes are distinguishable, as the handler is written.
   */
  lemma LoginDistinguishesUnknownEmail(creds: Credentials, user: UserRow, env: Option<string>, signing: Attempt<string>)
    ensures LoginResponse(Login(Returned(creds), Returned(Some(user)), Returned(false), env, signing)).status == 401
    ensures LoginResponse(Login(Returned(creds), Returned(None), Threw, env, signing)).status == 404
  {
  }

  // ---------------------------------------------------------------------------
  // Partial user update

  /** The parsed value of `new Date(text)`; date parsing itself is not modelled. */
  datatype Date = Date(text: string)

  /** The fields of a `PATCH /users/:id` body; `None` is a field the body leaves out. */
  datatype UserPatch = UserPatch(
    fName: Option<string>,
    mName: Option<string>,
    lName: Option<string>,
    dob: Option<string>,
    gender: Option<string>,
    email: Option<string>,
    phoneNumber: Option<string>,
    password: Option<string>)

  /** The `data` handed to the store's `update`; `None` is `undefined`, which leaves the column alone. */
  datatype UserUpdate = UserUpdate(
    fName: Option<string>,
    mName: Option<string>,
    lName: Option<string>,
    dob: Option<Date>,
    gender: Option<string>,
    email: Option<string>,
    phoneNumber: Option<string>,
    password: Option<string>)

  /** The bcrypt cost factor the handlers hash with. */
  const HashRounds: nat := 10

  /** JavaScript truthiness of an optional string: present and not empty. */
  predicate Truthy(v: Option<string>)
  {
    v.Some? && v.value != ""
  }

  /**
   * The update data built from a body. `hash(p, rounds)` stands for bcrypt.
   * The password is hashed only when the body carries a non-empty one; the
   * date is parsed only when non-empty; every other field is passed through
   * as it is, `undefined` staying `undefined`.
   */
  function BuildUserUpdate(body: UserPatch, hash: (string, nat) -> string): (d: UserUpdate)
    ensures d.password.Some? <==> Truthy(body.password)
    ensures Truthy(body.password) ==> d.password == Some(hash(body.password.value, HashRounds))
    ensures d.dob.Some? <==> Truthy(body.dob)
    ensures Truthy(body.dob) ==> d.dob == Some(Date(body.dob.value))
    ensures d.fName == body.fName && d.mName == body.mName && d.lName == body.lName
    ensures d.gender == body.gender && d.email == body.email && d.phoneNumber == body.phoneNumber
  {
    UserUpdate(
      body.fName,
      body.mName,
      body.lName,
      if Truthy(body.dob) then Some(Date(body.dob.value)) else None,
      body.gender,
      body.email,
      body.phoneNumber,
      if Truthy(body.password) then Some(hash(body.password.value, HashRounds)) else None)
  }

  /** A stored user row, as far as an update can change it. */
  datatype User = User(
    fName: string,
    mName: string,
    lName: string,
    dob: Option<Date>,
    gender: string,
    email: string,
    phoneNumber: string,
    digest: string)

  /** A column after an update: the given value when there is one, the current one otherwise. */
  function Keep<T>(current: T, given: Option<T>): (after: T)
  {
    if given.Some? then given.value else current
  }

  /**
   * The store's reading of update data, taken as given: a present field
   * replaces the column, an absent (`undefined`) one leaves it as it was.
   */
  function ApplyUpdate(u: User, d: UserUpdate): (v: User)
    ensures (d.fName.Some? ==> v.fName == d.fName.value) && (d.fName.None? ==> v.fName == u.fName)
    ensures (d.mName.Some? ==> v.mName == d.mName.value) && (d.mName.None? ==> v.mName == u.mName)
    ensures (d.lName.Some? ==> v.lName == d.lName.value) && (d.lName.None? ==> v.lName == u.lName)
    ensures (d.dob.Some? ==> v.dob == d.dob) && (d.dob.None? ==> v.dob == u.dob)
    ensures (d.gender.Some? ==> v.gender == d.gender.value) && (d.gender.None? ==> v.gender == u.gender)
    ensures (d.email.Some? ==> v.email == d.email.value) && (d.email.None? ==> v.email == u.email)
    ensures (d.phoneNumber.Some? ==> v.phoneNumber == d.phoneNumber.value)
      && (d.phoneNumber.None? ==> v.phoneNumber == u.phoneNumber)
    ensures (d.password.Some? ==> v.digest == d.password.value) && (d.password.None? ==> v.digest == u.digest)
  {
    User(
      Keep(u.fName, d.fName),
      Keep(u.mName, d.mName),
      Keep(u.lName, d.lName),
      if d.dob.Some? then d.dob else u.dob,
      Keep(u.gender, d.gender),
      Keep(u.email, d.email),
      Keep(u.phoneNumber, d.phoneNumber),
      Keep(u.digest, d.password))
  }

  /** The body with no fields at all. */
  const EmptyPatch: UserPatch := UserPatch(None, None, None, None, None, None, None, None)

  /** An empty body changes nothing. */
  lemma EmptyPatchKeepsUser(u: User, hash: (string, nat) -> string)
    ensures ApplyUpdate(u, BuildUserUpdate(EmptyPatch, hash)) == u
  {
  }

  /**
   * The stored digest changes only when a non-empty password is supplied,
   * and then becomes that password's hash: the plaintext is never stored.
   */
  lemma DigestOnlyChangesWithPassword(u: User, body: UserPatch, hash: (string, nat) -> string)
    ensures ApplyUpdate(u, BuildUserUpdate(body, hash)).digest ==
      if Truthy(body.password) then hash(body.password.value, HashRounds) else u.digest
  {
  }

  /**
   * An empty password keeps the old digest (it is falsy), while an empty
   * name, gender, email or phone number overwrites the column with "".
   */
  lemma EmptyStringsAreNotSkippedAlike(u: User, hash: (string, nat) -> string)
    ensures var body := EmptyPatch.(password := Some(""), fName := Some(""));
      var v := ApplyUpdate(u, BuildUserUpdate(body, hash));
      v.digest == u.digest && v.fName == ""
  {
  }
}
