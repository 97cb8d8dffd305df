/**
 * The server's persistent state (the `User` and `Transaction` collections of `api/server.js`),
 * the symbolic stand-ins for its cryptography, and the shape of its HTTP replies.
 */
module ServerStore {
  import opened Wrappers
  import opened Domain
  import opened Seqs
  import opened Strings

  /** A bcrypt digest, kept symbolic: the model only ever asks whether a password matches it. */
  datatype PasswordHash = Bcrypt(secret: string)

  /** `bcrypt.hash(password, 12)`. */
  function HashPassword(password: string): PasswordHash {
    Bcrypt(password)
  }

  /** `bcrypt.compare(password, hash)`. */
  predicate PasswordMatches(password: string, hash: PasswordHash) {
    HashPassword(password) == hash
  }

  /** A digest matches the password it was made from and no other. */
  lemma PasswordMatchesExactly(password: string, other: string)
    ensures PasswordMatches(password, HashPassword(password))
    ensures PasswordMatches(other, HashPassword(password)) <==> other == password
  {
  }

  /** One hour in milliseconds: how long a password-reset token stays valid. */
  const ResetTokenLifetime: int := 3600000

  /** A `User` document; `null` reset fields are `None`. */
  datatype User = User(
    id: string,
    name: string,
    email: string,
    password: PasswordHash,
    resetToken: Option<string>,
    resetExpires: Option<int>)

  /** A `Transaction` document with its `createdAt` timestamp. */
  datatype Record = Record(tx: Transaction, createdAt: int)

  /** Both collections, each in insertion order, which is the order `findOne` scans them in. */
  datatype Store = Store(users: seq<User>, records: seq<Record>)

  /** The payload a session token asserts (`jwt.sign({ userId, email })`). */
  datatype Claims = Claims(userId: string, email: string)

  /** The `user` object returned next to a session token. */
  datatype PublicUser = PublicUser(id: string, name: string, email: string)

  /** The data part of a JSON reply, besides its `message`. */
  datatype Payload =
    | NoPayload
    | Session(token: Claims, user: PublicUser)
    | Listing(transactions: seq<Transaction>)
    | Created(transaction: Transaction)

  datatype Reply = Reply(status: int, message: string, payload: Payload)

  /** A request's effect: the store after it and the reply sent. */
  datatype Outcome = Outcome(store: Store, reply: Reply)

  /** The token and the `user` object that register and login return for `u`. */
  function SessionFor(u: User): Payload {
    Session(Claims(u.id, u.email), PublicUser(u.id, u.name, u.email))
  }

  /** The reset token and its expiry are set together or cleared together. */
  predicate ResetFieldsPaired(u: User) {
    u.resetToken.Some? <==> u.resetExpires.Some?
  }

  /** `u` holds `token` and its expiry lies strictly after `now`. */
  predicate HoldsLiveToken(u: User, token: string, now: int) {
    u.resetToken == Some(token) && u.resetExpires.Some? && u.resetExpires.value > now
  }

  /** `User.findOne({ email })`: the first user stored with that e-mail, none when nobody is. */
  function UserByEmail(users: seq<User>, email: string): (r: Option<nat>)
    ensures r.Some? ==> r.value < |users| && users[r.value].email == email
    ensures r.Some? ==> forall j :: 0 <= j < r.value ==> users[j].email != email
    ensures r.None? <==> forall j :: 0 <= j < |users| ==> users[j].email != email
  {
    FirstMatch(users, (u: User) => u.email == email)
  }

  /** `User.findById(id)`: the first user with that id, none when nobody has it. */
  function UserById(users: seq<User>, id: string): (r: Option<nat>)
    ensures r.Some? ==> r.value < |users| && users[r.value].id == id
    ensures r.None? <==> forall j :: 0 <= j < |users| ==> users[j].id != id
  {
    FirstMatch(users, (u: User) => u.id == id)
  }

  /**
   * `User.findOne({ resetPasswordToken: token, resetPasswordExpires: { $gt: now } })`: a user
   * holding `token` with an expiry after `now`, none when no such user exists.
   */
  function UserByLiveToken(users: seq<User>, token: string, now: int): (r: Option<nat>)
    ensures r.Some? ==> r.value < |users| && HoldsLiveToken(users[r.value], token, now)
    ensures r.None? <==> forall j :: 0 <= j < |users| ==> !HoldsLiveToken(users[j], token, now)
  {
    FirstMatch(users, (u: User) => HoldsLiveToken(u, token, now))
  }

  /** At most one user holds `token` (random 256-bit tokens do not collide). */
  predicate TokenHeldOnce(users: seq<User>, token: string) {
    forall i, j ::
      (0 <= i < |users| && 0 <= j < |users| && users[i].resetToken == Some(token)
       && users[j].resetToken == Some(token)) ==> i == j
  }

  /**
   * Two ids name the same document: a query casts its id to an `ObjectId`, whose hexadecimal
   * digits are read without regard to letter case.
   */
  predicate SameObjectId(a: string, b: string) {
    ToLower(a) == ToLower(b)
  }

  /** The invariant every request preserves; the schema's `lowercase` option stores every e-mail in lower case. */
  predicate Consistent(st: Store) {
    && (forall i :: 0 <= i < |st.users| ==> ResetFieldsPaired(st.users[i]))
    && (forall i, j :: 0 <= i < j < |st.users| ==> st.users[i].id != st.users[j].id)
    && (forall i, j :: 0 <= i < j < |st.users| ==> st.users[i].email != st.users[j].email)
    && (forall i :: 0 <= i < |st.users| ==> ToLower(st.users[i].email) == st.users[i].email)
    && (forall i, j :: 0 <= i < j < |st.records| ==> !SameObjectId(st.records[i].tx.id, st.records[j].tx.id))
  }

  /** Records are stored in `createdAt` order, as they are when the clock never runs backwards. */
  predicate Chronological(records: seq<Record>) {
    forall i, j :: 0 <= i < j < |records| ==> records[i].createdAt <= records[j].createdAt
  }
}
