/**
 * The API server as a whole: one request at a time against the store, with the invariant
 * every route keeps and the end-to-end behaviour of the route pairs the client relies on.
 */
module Server {
  import opened Wrappers
  import opened Strings
  import opened EmailFormat
  import opened Domain
  import opened Seqs
  import opened ServerStore
  import opened ServerValidation
  import opened AuthRoutes
  import opened TransactionRoutes

  datatype Request =
    | RegisterRequest(registration: RegisterBody, newId: string)
    | LoginRequest(credentials: LoginBody)
    | ForgotPasswordRequest(email: Option<string>, mailer: Mailer, freshToken: string)
    | ResetPasswordRequest(token: string, password: Option<string>)
    | ListRequest(header: Option<string>)
    | CreateRequest(header: Option<string>, body: TxBody, newId: string)
    | DeleteRequest(header: Option<string>, id: string)

  /** The world outside the store: the clock, `jwt.verify` and `new Date(text)`. */
  datatype Env = Env(now: int, verify: string -> Option<Claims>, parseDate: string -> Option<Date>)

  /** Route a request to its handler. Reads leave the store as it was. */
  function Handle(st: Store, req: Request, env: Env): (out: Outcome)
    ensures (req.LoginRequest? || req.ListRequest?) ==> out.store == st
    ensures (req.RegisterRequest? || req.ForgotPasswordRequest? || req.ResetPasswordRequest?) ==>
      out.store.records == st.records
    ensures (req.CreateRequest? || req.DeleteRequest?) ==> out.store.users == st.users
  {
    match req
    case RegisterRequest(body, newId) => Register(st, body, newId)
    case LoginRequest(body) => Outcome(st, Login(st, body))
    case ForgotPasswordRequest(email, mailer, token) => ForgotPassword(st, email, mailer, token, env.now)
    case ResetPasswordRequest(token, password) => ResetPassword(st, token, password, env.now)
    case ListRequest(header) => Outcome(st, ListTransactions(st, header, env.verify))
    case CreateRequest(header, body, newId) =>
      CreateTransaction(st, header, env.verify, body, newId, env.now, env.parseDate)
    case DeleteRequest(header, id) => DeleteTransaction(st, header, env.verify, id)
  }

  /** Replacing a user by one with the same id and e-mail and paired reset fields keeps the invariant. */
  lemma {:induction false} ReplaceUserKeepsConsistent(st: Store, k: nat, v: User)
    requires Consistent(st) && k < |st.users|
    requires v.id == st.users[k].id && v.email == st.users[k].email && ResetFieldsPaired(v)
    ensures Consistent(st.(users := st.users[k := v]))
  {
    var users := st.users[k := v];
    forall i | 0 <= i < |users|
      ensures users[i].id == st.users[i].id && users[i].email == st.users[i].email
    {
    }
  }

  /** A registration adds a user whose id and e-mail nobody holds yet. */
  lemma {:induction false} RegisterKeepsConsistent(st: Store, body: RegisterBody, newId: string)
    requires Consistent(st)
    ensures Consistent(Register(st, body, newId).store)
  {
    var out := Register(st, body, newId);
    if out.reply.status == 201 {
      var u := NewUser(body, newId);
      var users := st.users + [u];
      assert out.store == st.(users := users);
      assert forall i :: 0 <= i < |st.users| ==> st.users[i].id != newId;
      assert forall i :: 0 <= i < |st.users| ==> st.users[i].email != body.email.value;
      forall i, j | 0 <= i < j < |users|
        ensures users[i].id != users[j].id && users[i].email != users[j].email
      {
        if j == |st.users| {
          assert users[i] == st.users[i] && users[j] == u;
        }
      }
      assert forall i :: 0 <= i < |users| ==> ResetFieldsPaired(users[i]);
    }
  }

  /** Issuing (or withdrawing) a reset token touches only that user's reset fields. */
  lemma {:induction false} ForgotPasswordKeepsConsistent(st: Store, email: Option<string>, mailer: Mailer,
                                                         token: string, now: int)
    requires Consistent(st)
    ensures Consistent(ForgotPassword(st, email, mailer, token, now).store)
  {
    var out := ForgotPassword(st, email, mailer, token, now);
    if Truthy(email) && MatchesEmailRegex(email.value) && mailer.configured
       && UserByEmail(st.users, ToLower(email.value)).Some? {
      var k := UserByEmail(st.users, ToLower(email.value)).value;
      assert out.store == st.(users := st.users[k := out.store.users[k]]);
      ReplaceUserKeepsConsistent(st, k, out.store.users[k]);
    }
  }

  /** A password reset changes one user's password and clears their reset fields. */
  lemma {:induction false} ResetPasswordKeepsConsistent(st: Store, token: string, password: Option<string>, now: int)
    requires Consistent(st)
    ensures Consistent(ResetPassword(st, token, password, now).store)
  {
    var out := ResetPassword(st, token, password, now);
    if out.reply.status == 200 {
      var k := UserByLiveToken(st.users, token, now).value;
      ReplaceUserKeepsConsistent(st, k, WithoutResetToken(st.users[k]).(password := HashPassword(password.value)));
    }
  }

  /** A created transaction carries an id no stored transaction has. */
  lemma {:induction false} CreateKeepsConsistent(st: Store, header: Option<string>, verify: string -> Option<Claims>,
                                                 body: TxBody, newId: string, now: int, parseDate: string -> Option<Date>)
    requires Consistent(st)
    ensures Consistent(CreateTransaction(st, header, verify, body, newId, now, parseDate).store)
  {
    var out := CreateTransaction(st, header, verify, body, newId, now, parseDate);
    if out.reply.status == 201 {
      var records := out.store.records;
      assert forall i :: 0 <= i < |st.records| ==> !SameObjectId(st.records[i].tx.id, newId);
      forall i, j | 0 <= i < j < |records|
        ensures !SameObjectId(records[i].tx.id, records[j].tx.id)
      {
        if j == |st.records| {
          assert records[i] == st.records[i];
        }
      }
    }
  }

  /** Removing a record keeps the remaining ids distinct. */
  lemma {:induction false} DeleteKeepsConsistent(st: Store, header: Option<string>, verify: string -> Option<Claims>,
                                                 id: string)
    requires Consistent(st)
    ensures Consistent(DeleteTransaction(st, header, verify, id).store)
  {
    var out := DeleteTransaction(st, header, verify, id);
    if out.reply.status == 200 {
      var k := OwnedRecord(st.records, id, Authenticate(st.users, header, verify).user.id).value;
      var records := out.store.records;
      forall i, j | 0 <= i < j < |records|
        ensures !SameObjectId(records[i].tx.id, records[j].tx.id)
      {
        var i' := if i < k then i else i + 1;
        var j' := if j < k then j else j + 1;
        assert records[i] == st.records[i'] && records[j] == st.records[j'];
      }
    }
  }

  /** Every request keeps user ids, e-mails and transaction ids unique and reset fields paired. */
  lemma {:induction false} HandleKeepsConsistent(st: Store, req: Request, env: Env)
    requires Consistent(st)
    ensures Consistent(Handle(st, req, env).store)
  {
    match req
    case RegisterRequest(body, newId) => RegisterKeepsConsistent(st, body, newId);
    case LoginRequest(_) =>
    case ForgotPasswordRequest(email, mailer, token) => ForgotPasswordKeepsConsistent(st, email, mailer, token, env.now);
    case ResetPasswordRequest(token, password) => ResetPasswordKeepsConsistent(st, token, password, env.now);
    case ListRequest(_) =>
    case CreateRequest(header, body, newId) =>
      CreateKeepsConsistent(st, header, env.verify, body, newId, env.now, env.parseDate);
    case DeleteRequest(header, id) => DeleteKeepsConsistent(st, header, env.verify, id);
  }

  /** Appending a record no older than any stored one keeps the records in `createdAt` order. */
  lemma AppendKeepsChronological(records: seq<Record>, rec: Record)
    requires Chronological(records)
    requires forall i :: 0 <= i < |records| ==> records[i].createdAt <= rec.createdAt
    ensures Chronological(records + [rec])
  {
    var r := records + [rec];
    forall i, j | 0 <= i < j < |r|
      ensures r[i].createdAt <= r[j].createdAt
    {
      assert r[i] == records[i];
    }
  }

  /** Removing one record keeps the others in `createdAt` order. */
  lemma RemoveKeepsChronological(records: seq<Record>, k: nat)
    requires k < |records| && Chronological(records)
    ensures Chronological(RemoveAt(records, k))
  {
    var r := RemoveAt(records, k);
    forall i, j | 0 <= i < j < |r|
      ensures r[i].createdAt <= r[j].createdAt
    {
      var i' := if i < k then i else i + 1;
      var j' := if j < k then j else j + 1;
      assert r[i] == records[i'] && r[j] == records[j'];
    }
  }

  /** With a clock that never runs backwards, records stay in `createdAt` order. */
  lemma {:induction false} HandleKeepsChronological(st: Store, req: Request, env: Env)
    requires Chronological(st.records)
    requires forall i :: 0 <= i < |st.records| ==> st.records[i].createdAt <= env.now
    ensures Chronological(Handle(st, req, env).store.records)
  {
    var out := Handle(st, req, env);
    match req
    case CreateRequest(header, body, newId) =>
      if out.reply.status == 201 {
        CreateAppendsReturned(st, header, env, body, newId);
        AppendKeepsChronological(st.records, Record(out.reply.payload.transaction, env.now));
      }
    case DeleteRequest(header, id) =>
      if out.reply.status == 200 {
        var k := OwnedRecord(st.records, id, Authenticate(st.users, header, env.verify).user.id).value;
        assert out.store.records == RemoveAt(st.records, k);
        RemoveKeepsChronological(st.records, k);
      }
    case _ =>
  }

  /** After a registration the lower-cased address finds the new user, stored last. */
  lemma {:induction false} RegistrantFound(st: Store, body: RegisterBody, newId: string)
    requires Register(st, body, newId).reply.status == 201
    ensures var after := Register(st, body, newId).store;
      && |after.users| == |st.users| + 1 && after.users[|st.users|] == NewUser(body, newId)
      && UserByEmail(after.users, ToLower(body.email.value)) == Some(|st.users|)
  {
    var after := Register(st, body, newId).store;
    var e := ToLower(body.email.value);
    assert after.users[|st.users|] == NewUser(body, newId);
    forall j | 0 <= j < |st.users|
      ensures after.users[j].email != e
    {
      assert after.users[j] == st.users[j];
    }
    FirstMatchAt(after.users, (u: User) => u.email == e, |st.users|);
  }

  /** Whoever registers can log in straight away with the same e-mail and password. */
  lemma {:induction false} RegisterThenLogin(st: Store, name: string, email: string, password: string, newId: string)
    requires Register(st, RegisterBody(Some(name), Some(email), Some(password)), newId).reply.status == 201
    ensures var body := RegisterBody(Some(name), Some(email), Some(password));
      var after := Register(st, body, newId).store;
      var r := Login(after, LoginBody(Some(email), Some(password)));
      r.status == 200 && r.payload == SessionFor(NewUser(body, newId))
  {
    RegistrantFound(st, RegisterBody(Some(name), Some(email), Some(password)), newId);
  }

  /**
   * Whoever registers is found by forgot-password under any capitalisation of their address:
   * the reset mail goes out and the new account holds the token.
   */
  lemma {:induction false} RegisterThenForgot(st: Store, name: string, email: string, password: string, newId: string,
                                              typed: string, token: string, now: int)
    requires Register(st, RegisterBody(Some(name), Some(email), Some(password)), newId).reply.status == 201
    requires ToLower(typed) == ToLower(email) && MatchesEmailRegex(typed)
    ensures var after := Register(st, RegisterBody(Some(name), Some(email), Some(password)), newId).store;
      var out := ForgotPassword(after, Some(typed), Mailer(true, true), token, now);
      && out.reply == Reply(200, InstructionsSentMessage(typed), NoPayload)
      && out.store.users[|st.users|].resetToken == Some(token)
  {
    RegistrantFound(st, RegisterBody(Some(name), Some(email), Some(password)), newId);
    EmptyIsNotAnEmail();
  }

  /** A delivered reset mail leaves exactly the requested user holding the token. */
  predicate ResetIssued(st: Store, email: Option<string>, token: string) {
    && Truthy(email) && MatchesEmailRegex(email.value)
    && UserByEmail(st.users, ToLower(email.value)).Some?
    && forall i :: 0 <= i < |st.users| ==> st.users[i].resetToken != Some(token)
  }

  /** When only user `k` holds `token`, the live-token lookup finds `k` exactly while the token is live. */
  lemma {:induction false} SoleHolderFound(users: seq<User>, k: nat, token: string, now: int)
    requires k < |users| && users[k].resetToken == Some(token)
    requires forall j :: 0 <= j < |users| && j != k ==> users[j].resetToken != Some(token)
    ensures UserByLiveToken(users, token, now) == if HoldsLiveToken(users[k], token, now) then Some(k) else None
  {
    var holds := (u: User) => HoldsLiveToken(u, token, now);
    if holds(users[k]) {
      FirstMatchAt(users, holds, k);
    } else {
      assert forall j :: 0 <= j < |users| ==> !holds(users[j]);
    }
  }

  /** A delivered reset mail gives the requested user the token and leaves everyone else alone. */
  lemma {:induction false} ForgotIssuesToken(st: Store, email: Option<string>, token: string, issuedAt: int)
    requires ResetIssued(st, email, token)
    ensures var k := UserByEmail(st.users, ToLower(email.value)).value;
      var users := ForgotPassword(st, email, Mailer(true, true), token, issuedAt).store.users;
      && |users| == |st.users| && k < |users|
      && users[k] == WithResetToken(st.users[k], token, issuedAt)
      && users[k].email == ToLower(email.value)
      && forall j :: 0 <= j < |users| && j != k ==> users[j] == st.users[j]
  {
  }

  /** After a reset of user `k`'s password, logging in as `k` with the new password succeeds. */
  lemma {:induction false} LoginAfterReset(users: seq<User>, k: nat, email: string, password: string)
    requires k < |users| && users[k].email == ToLower(email) && users[k].password == HashPassword(password)
    requires forall j :: 0 <= j < k ==> users[j].email != ToLower(email)
    requires MatchesEmailRegex(email) && Utf16Length(password) >= 6
    ensures Login(Store(users, []), LoginBody(Some(email), Some(password))).status == 200
  {
    assert UserByEmail(users, ToLower(email)) == Some(k);
    EmptyIsNotAnEmail();
    assert ValidateInput(Some(email), Some(password)).None?;
  }

  /**
   * After a delivered reset mail at `issuedAt`, the token resets the password exactly when it is
   * used before `issuedAt + 1 hour`; afterwards the user logs in with the new password.
   */
  lemma {:induction false} ForgotThenReset(st: Store, email: Option<string>, token: string, issuedAt: int,
                                           usedAt: int, password: string)
    requires ResetIssued(st, email, token) && Utf16Length(password) >= 6
    ensures var issued := ForgotPassword(st, email, Mailer(true, true), token, issuedAt).store;
      var reset := ResetPassword(issued, token, Some(password), usedAt);
      && (reset.reply.status == 200 <==> usedAt < issuedAt + ResetTokenLifetime)
      && (reset.reply.status == 200 ==>
            Login(reset.store, LoginBody(Some(email.value), Some(password))).status == 200)
  {
    var k := UserByEmail(st.users, ToLower(email.value)).value;
    var issued := ForgotPassword(st, email, Mailer(true, true), token, issuedAt).store;
    ForgotIssuesToken(st, email, token, issuedAt);
    SoleHolderFound(issued.users, k, token, usedAt);
    var reset := ResetPassword(issued, token, Some(password), usedAt);
    if reset.reply.status == 200 {
      var users := reset.store.users;
      forall j | 0 <= j < k
        ensures users[j].email != ToLower(email.value)
      {
        assert users[j] == st.users[j];
      }
      LoginAfterReset(users, k, email.value, password);
    }
  }

  /** A reset token works once: the second use of the same token is refused. */
  lemma {:induction false} ResetIsSingleUse(st: Store, token: string, first: string, second: string, now: int, later: int)
    requires TokenHeldOnce(st.users, token)
    requires ResetPassword(st, token, Some(first), now).reply.status == 200
    requires Utf16Length(second) >= 6
    ensures ResetPassword(ResetPassword(st, token, Some(first), now).store, token, Some(second), later).reply
      == Reply(400, BadResetTokenMessage, NoPayload)
  {
    var k := UserByLiveToken(st.users, token, now).value;
    var users := ResetPassword(st, token, Some(first), now).store.users;
    forall j | 0 <= j < |users|
      ensures !HoldsLiveToken(users[j], token, later)
    {
      if j != k {
        assert users[j] == st.users[j];
      }
    }
  }

  /**
   * The two successful replies of forgot-password differ, so the reply tells whether an account
   * exists for the address.
   */
  lemma {:induction false} ForgotPasswordRevealsAccounts(known: Store, unknown: Store, email: string, token: string, now: int)
    requires MatchesEmailRegex(email)
    requires UserByEmail(known.users, ToLower(email)).Some? && UserByEmail(unknown.users, ToLower(email)).None?
    ensures var a := ForgotPassword(known, Some(email), Mailer(true, true), token, now).reply;
      var b := ForgotPassword(unknown, Some(email), Mailer(true, true), token, now).reply;
      a.status == b.status == 200 && a.message != b.message
  {
    EmptyIsNotAnEmail();
    assert Truthy(Some(email));
    var a := ForgotPassword(known, Some(email), Mailer(true, true), token, now).reply;
    var b := ForgotPassword(unknown, Some(email), Mailer(true, true), token, now).reply;
    assert a == Reply(200, InstructionsSentMessage(email), NoPayload);
    assert b == Reply(200, UnknownAccountMessage(email), NoPayload);
    ForgotMessagesDiffer(email);
  }

  lemma ForgotMessagesDiffer(email: string)
    ensures InstructionsSentMessage(email) != UnknownAccountMessage(email)
  {
    assert InstructionsSentMessage(email)[0] == "Password reset instructions have been sent to "[0];
    assert UnknownAccountMessage(email)[0] == "If an account with "[0];
  }

  /** A successful create appends a record holding the returned transaction, owned by the caller. */
  lemma {:induction false} CreateAppendsReturned(st: Store, header: Option<string>, env: Env, body: TxBody, newId: string)
    requires Handle(st, CreateRequest(header, body, newId), env).reply.status == 201
    ensures var out := Handle(st, CreateRequest(header, body, newId), env);
      && out.reply.payload.Created?
      && out.store.records == st.records + [Record(out.reply.payload.transaction, env.now)]
      && out.reply.payload.transaction.userId == Authenticate(st.users, header, env.verify).user.id
      && out.store.users == st.users
  {
  }

  /**
   * A transaction created no earlier than every stored one heads its owner's listing, ahead of
   * everything listed before; the sort puts it behind any strictly newer record.
   */
  lemma {:induction false} CreateThenList(st: Store, header: Option<string>, env: Env, body: TxBody, newId: string)
    requires forall i :: 0 <= i < |st.records| ==> st.records[i].createdAt <= env.now
    requires Handle(st, CreateRequest(header, body, newId), env).reply.status == 201
    ensures var out := Handle(st, CreateRequest(header, body, newId), env);
      ListTransactions(out.store, header, env.verify).payload
        == Listing([out.reply.payload.transaction] + ListTransactions(st, header, env.verify).payload.transactions)
  {
    var out := Handle(st, CreateRequest(header, body, newId), env);
    CreateAppendsReturned(st, header, env, body, newId);
    var rec := Record(out.reply.payload.transaction, env.now);
    assert out.store == st.(records := st.records + [rec]);
    ListAfterAppend(st, rec, header, env.verify);
  }

  /** Appending a record of the authenticated caller puts its transaction at the head of their listing. */
  lemma {:induction false} ListAfterAppend(st: Store, rec: Record, header: Option<string>, verify: string -> Option<Claims>)
    requires Authenticate(st.users, header, verify).Granted?
    requires rec.tx.userId == Authenticate(st.users, header, verify).user.id
    requires forall i :: 0 <= i < |st.records| ==> st.records[i].createdAt <= rec.createdAt
    ensures ListTransactions(st.(records := st.records + [rec]), header, verify).payload
      == Listing([rec.tx] + ListTransactions(st, header, verify).payload.transactions)
  {
    var uid := Authenticate(st.users, header, verify).user.id;
    var grown := st.(records := st.records + [rec]);
    assert grown.users == st.users;
    OwnedNewestFirstAppend(st.records, rec, uid);
    var before := OwnedNewestFirst(st.records, uid);
    assert OwnedNewestFirst(grown.records, uid) == [rec] + before;
    TransactionsOfCons(rec, before);
  }

  /** After a delete, the caller's listing holds every record it held before except the deleted one. */
  lemma {:induction false} DeleteThenList(st: Store, header: Option<string>, env: Env, id: string)
    requires Consistent(st)
    requires Handle(st, DeleteRequest(header, id), env).reply.status == 200
    ensures var uid := Authenticate(st.users, header, env.verify).user.id;
      var after := Handle(st, DeleteRequest(header, id), env).store;
      forall x :: x in OwnedNewestFirst(after.records, uid) <==>
        x in OwnedNewestFirst(st.records, uid) && !SameObjectId(x.tx.id, id)
  {
    var uid := Authenticate(st.users, header, env.verify).user.id;
    var k := OwnedRecord(st.records, id, uid).value;
    var after := Handle(st, DeleteRequest(header, id), env).store;
    assert after.records == RemoveAt(st.records, k) && SameObjectId(st.records[k].tx.id, id);
    RemoveUniqueId(st.records, k);
    ListingMembers(after.records, uid);
    ListingMembers(st.records, uid);
  }

  /** With unique ids, removing the record at `k` removes exactly the records with its id. */
  lemma RemoveUniqueId(records: seq<Record>, k: nat)
    requires k < |records|
    requires forall i, j :: 0 <= i < j < |records| ==> !SameObjectId(records[i].tx.id, records[j].tx.id)
    ensures forall x :: x in RemoveAt(records, k) <==> x in records && !SameObjectId(x.tx.id, records[k].tx.id)
  {
    var r := RemoveAt(records, k);
    forall x
      ensures x in r <==> x in records && !SameObjectId(x.tx.id, records[k].tx.id)
    {
      if x in r {
        var i :| 0 <= i < |r| && r[i] == x;
        var i' := if i < k then i else i + 1;
        assert records[i'] == x;
        if i' < k {
          assert !SameObjectId(records[i'].tx.id, records[k].tx.id);
        } else {
          assert !SameObjectId(records[k].tx.id, records[i'].tx.id);
        }
      }
      if x in records && !SameObjectId(x.tx.id, records[k].tx.id) {
        var i :| 0 <= i < |records| && records[i] == x;
        assert i != k;
        assert r[if i < k then i else i - 1] == x;
      }
    }
  }
}
