/** The three protected transaction routes of `api/server.js`, behind `authenticateToken`. */
module TransactionRoutes {
  import opened Wrappers
  import opened Strings
  import opened Domain
  import opened Seqs
  import opened ServerStore
  import opened ServerValidation
  import opened AuthRoutes

  /** No record is listed ahead of a newer one. */
  predicate NewestFirst(rs: seq<Record>) {
    forall i, j :: 0 <= i < j < |rs| ==> rs[i].createdAt >= rs[j].createdAt
  }

  function OwnedBy(userId: string): Record -> bool {
    (r: Record) => r.tx.userId == userId
  }

  /**
   * One step of sorting by `createdAt`, newest first: `rec` goes in front of the first record
   * that is strictly older, so behind every record at least as new.
   */
  function InsertByAge(rec: Record, rs: seq<Record>): (r: seq<Record>)
    ensures |r| == |rs| + 1
    ensures multiset(r) == multiset(rs) + multiset{rec}
  {
    if rs == [] then [rec]
    else if rec.createdAt > rs[0].createdAt then [rec] + rs
    else
      assert rs == [rs[0]] + rs[1..];
      [rs[0]] + InsertByAge(rec, rs[1..])
  }

  /** Inserting into a listing that runs newest first keeps it so. */
  lemma {:induction false} InsertByAgeKeepsOrder(rec: Record, rs: seq<Record>)
    requires NewestFirst(rs)
    ensures NewestFirst(InsertByAge(rec, rs))
  {
    if rs != [] && rec.createdAt <= rs[0].createdAt {
      var tail := InsertByAge(rec, rs[1..]);
      assert NewestFirst(rs[1..]) by {
        forall i, j | 0 <= i < j < |rs[1..]|
          ensures rs[1..][i].createdAt >= rs[1..][j].createdAt
        {
          assert rs[1..][i] == rs[i + 1] && rs[1..][j] == rs[j + 1];
        }
      }
      InsertByAgeKeepsOrder(rec, rs[1..]);
      forall k | 0 <= k < |tail|
        ensures tail[k].createdAt <= rs[0].createdAt
      {
        assert tail[k] in multiset(rs[1..]) + multiset{rec};
        if tail[k] != rec {
          var m :| 0 <= m < |rs[1..]| && rs[1..][m] == tail[k];
          assert rs[m + 1] == tail[k];
        }
      }
      var r := [rs[0]] + tail;
      forall i, j | 0 <= i < j < |r|
        ensures r[i].createdAt >= r[j].createdAt
      {
        if i == 0 {
          assert r[j] == tail[j - 1];
        } else {
          assert r[i] == tail[i - 1] && r[j] == tail[j - 1];
        }
      }
    }
  }

  /**
   * `Transaction.find({ userId }).sort({ createdAt: -1 })`: the owner's records sorted by
   * `createdAt`, newest first; records with equal stamps are listed latest inserted first.
   */
  function OwnedNewestFirst(records: seq<Record>, userId: string): (r: seq<Record>)
    ensures |r| <= |records|
  {
    if records == [] then []
    else
      var rest := OwnedNewestFirst(records[1..], userId);
      if records[0].tx.userId == userId then InsertByAge(records[0], rest) else rest
  }

  /** The listing is a permutation of the owner's records. */
  lemma {:induction false} ListingIsPermutation(records: seq<Record>, userId: string)
    ensures multiset(OwnedNewestFirst(records, userId)) == multiset(Filter(records, OwnedBy(userId)))
  {
    if records != [] {
      ListingIsPermutation(records[1..], userId);
    }
  }

  /** The listing holds exactly the owner's records. */
  lemma ListingMembers(records: seq<Record>, userId: string)
    ensures forall x :: x in OwnedNewestFirst(records, userId) <==> x in records && x.tx.userId == userId
  {
    forall x
      ensures x in OwnedNewestFirst(records, userId) <==> x in records && x.tx.userId == userId
    {
      ListingIsPermutation(records, userId);
      assert x in OwnedNewestFirst(records, userId) <==> x in multiset(Filter(records, OwnedBy(userId)));
    }
  }

  /** The listing runs from the newest record to the oldest. */
  lemma {:induction false} ListingIsNewestFirst(records: seq<Record>, userId: string)
    ensures NewestFirst(OwnedNewestFirst(records, userId))
  {
    if records != [] {
      ListingIsNewestFirst(records[1..], userId);
      if records[0].tx.userId == userId {
        InsertByAgeKeepsOrder(records[0], OwnedNewestFirst(records[1..], userId));
      }
    }
  }

  /** A record at least as old as everything listed goes to the end. */
  lemma {:induction false} InsertOldest(rec: Record, rs: seq<Record>)
    requires forall i :: 0 <= i < |rs| ==> rec.createdAt <= rs[i].createdAt
    ensures InsertByAge(rec, rs) == rs + [rec]
  {
    if rs != [] {
      InsertOldest(rec, rs[1..]);
      assert [rs[0]] + (rs[1..] + [rec]) == rs + [rec];
    }
  }

  /** The owner's records, the one inserted last first: the order of an insertion-ordered collection read backwards. */
  function LatestInsertedFirst(records: seq<Record>, userId: string): seq<Record> {
    if records == [] then []
    else LatestInsertedFirst(records[1..], userId) + (if records[0].tx.userId == userId then [records[0]] else [])
  }

  /** Records stored after one another in `createdAt` order are all at least as new as the first. */
  lemma ChronologicalTail(records: seq<Record>)
    requires records != [] && Chronological(records)
    ensures Chronological(records[1..])
    ensures forall x :: x in records[1..] ==> records[0].createdAt <= x.createdAt
  {
    forall i, j | 0 <= i < j < |records[1..]|
      ensures records[1..][i].createdAt <= records[1..][j].createdAt
    {
      assert records[1..][i] == records[i + 1] && records[1..][j] == records[j + 1];
    }
    forall x | x in records[1..]
      ensures records[0].createdAt <= x.createdAt
    {
      var k :| 0 <= k < |records[1..]| && records[1..][k] == x;
      assert records[k + 1] == x;
    }
  }

  /** Over records stored in `createdAt` order, sorting newest first reads the collection backwards. */
  lemma {:induction false} ListingIsReverseInsertion(records: seq<Record>, userId: string)
    requires Chronological(records)
    ensures OwnedNewestFirst(records, userId) == LatestInsertedFirst(records, userId)
  {
    if records != [] {
      var r0, tail := records[0], records[1..];
      ChronologicalTail(records);
      ListingIsReverseInsertion(tail, userId);
      var rest := OwnedNewestFirst(tail, userId);
      assert records == [r0] + tail;
      OwnedNewestFirstCons(r0, tail, userId);
      if r0.tx.userId == userId {
        ListingMembers(tail, userId);
        assert forall i :: 0 <= i < |rest| ==> r0.createdAt <= rest[i].createdAt by {
          forall i | 0 <= i < |rest|
            ensures r0.createdAt <= rest[i].createdAt
          {
            assert rest[i] in rest;
          }
        }
        InsertOldest(r0, rest);
        assert OwnedNewestFirst(records, userId) == rest + [r0];
      } else {
        assert OwnedNewestFirst(records, userId) == rest;
      }
    }
  }

  /** The transactions of some records, in the same order (the `formattedTransactions` map). */
  function TransactionsOf(rs: seq<Record>): (r: seq<Transaction>)
    ensures |r| == |rs| && forall i :: 0 <= i < |rs| ==> r[i] == rs[i].tx
  {
    seq(|rs|, i requires 0 <= i < |rs| => rs[i].tx)
  }

  lemma TransactionsOfCons(rec: Record, rs: seq<Record>)
    ensures TransactionsOf([rec] + rs) == [rec.tx] + TransactionsOf(rs)
  {
    var a, b := TransactionsOf([rec] + rs), [rec.tx] + TransactionsOf(rs);
    forall i | 0 <= i < |a|
      ensures a[i] == b[i]
    {
      if i > 0 {
        assert ([rec] + rs)[i] == rs[i - 1];
      }
    }
  }

  /** The listing of a collection with `r0` stored first: `r0` sorted into the listing of the rest. */
  lemma OwnedNewestFirstCons(r0: Record, tail: seq<Record>, userId: string)
    ensures OwnedNewestFirst([r0] + tail, userId)
      == if r0.tx.userId == userId then InsertByAge(r0, OwnedNewestFirst(tail, userId)) else OwnedNewestFirst(tail, userId)
  {
    assert ([r0] + tail)[1..] == tail;
  }

  /** A record no newer than the head of a listing is sorted in behind that head. */
  lemma InsertBehindNewer(r0: Record, rec: Record, rest: seq<Record>)
    requires r0.createdAt <= rec.createdAt
    ensures InsertByAge(r0, [rec] + rest) == [rec] + InsertByAge(r0, rest)
  {
    assert ([rec] + rest)[1..] == rest;
  }

  /** The inductive step of `OwnedNewestFirstAppend`: a record stored in front of both collections changes nothing. */
  lemma AppendStep(r0: Record, tail: seq<Record>, rec: Record, userId: string)
    requires r0.createdAt <= rec.createdAt
    requires OwnedNewestFirst(tail + [rec], userId)
      == (if rec.tx.userId == userId then [rec] else []) + OwnedNewestFirst(tail, userId)
    ensures OwnedNewestFirst([r0] + (tail + [rec]), userId)
      == (if rec.tx.userId == userId then [rec] else []) + OwnedNewestFirst([r0] + tail, userId)
  {
    var rest := OwnedNewestFirst(tail, userId);
    OwnedNewestFirstCons(r0, tail + [rec], userId);
    OwnedNewestFirstCons(r0, tail, userId);
    if r0.tx.userId == userId {
      if rec.tx.userId == userId {
        InsertBehindNewer(r0, rec, rest);
      } else {
        assert [] + rest == rest;
      }
    }
  }

  /** A record appended with a stamp no older than any stored one is listed first, ahead of the previous listing. */
  lemma {:induction false} OwnedNewestFirstAppend(records: seq<Record>, rec: Record, userId: string)
    requires forall i :: 0 <= i < |records| ==> records[i].createdAt <= rec.createdAt
    ensures OwnedNewestFirst(records + [rec], userId)
      == (if rec.tx.userId == userId then [rec] else []) + OwnedNewestFirst(records, userId)
  {
    if records == [] {
      assert records + [rec] == [rec];
      OwnedNewestFirstCons(rec, [], userId);
    } else {
      var r0, tail := records[0], records[1..];
      assert forall i :: 0 <= i < |tail| ==> tail[i].createdAt <= rec.createdAt by {
        forall i | 0 <= i < |tail|
          ensures tail[i].createdAt <= rec.createdAt
        {
          assert tail[i] == records[i + 1];
        }
      }
      OwnedNewestFirstAppend(tail, rec, userId);
      AppendStep(r0, tail, rec, userId);
      assert records == [r0] + tail;
      assert records + [rec] == [r0] + (tail + [rec]);
    }
  }

  /** The reply for a request `authenticateToken` turned away. */
  function DeniedReply(a: AuthResult): Reply
    requires a.Denied?
  {
    Reply(a.status, a.message, NoPayload)
  }

  /** `GET /api/transactions`. */
  function ListTransactions(st: Store, header: Option<string>, verify: string -> Option<Claims>): (r: Reply)
    ensures Authenticate(st.users, header, verify).Denied? ==>
      r == DeniedReply(Authenticate(st.users, header, verify))
    ensures Authenticate(st.users, header, verify).Granted? ==>
      && r.status == 200
      && r.payload == Listing(TransactionsOf(OwnedNewestFirst(st.records, Authenticate(st.users, header, verify).user.id)))
  {
    match Authenticate(st.users, header, verify)
    case Denied(_, _) => DeniedReply(Authenticate(st.users, header, verify))
    case Granted(u) =>
      Reply(200, "Transactions retrieved successfully", Listing(TransactionsOf(OwnedNewestFirst(st.records, u.id))))
  }

  /** The record with a given `_id`. */
  function RecordById(records: seq<Record>, id: string): (r: Option<nat>)
    ensures r.Some? ==> r.value < |records| && SameObjectId(records[r.value].tx.id, id)
    ensures r.None? <==> forall j :: 0 <= j < |records| ==> !SameObjectId(records[j].tx.id, id)
  {
    FirstMatch(records, (rec: Record) => SameObjectId(rec.tx.id, id))
  }

  const CreateFailedMessage := "Server error while adding transaction"

  /**
   * `POST /api/transactions`. `newId` is the `_id` the database assigns, `now` the `createdAt`
   * stamp, and `parseDate` is `new Date(text)`, `None` for an invalid date, which the database
   * then refuses to save. The owner is always the authenticated caller.
   */
  function CreateTransaction(st: Store, header: Option<string>, verify: string -> Option<Claims>,
                             body: TxBody, newId: string, now: int, parseDate: string -> Option<Date>): (out: Outcome)
    ensures out.store.users == st.users
    ensures out.reply.status == 201 <==>
      && Authenticate(st.users, header, verify).Granted?
      && ValidateTransaction(body).Ok?
      && parseDate(body.date.value).Some?
      && RecordById(st.records, newId).None?
    ensures out.reply.status == 201 ==>
      var v := ValidateTransaction(body).value;
      var tx := Transaction(newId, Authenticate(st.users, header, verify).user.id, v.amount, v.category, v.kind,
                            Trim(v.description), parseDate(v.dateText).value);
      out.store.records == st.records + [Record(tx, now)] && out.reply.payload == Created(tx)
    ensures out.reply.status != 201 ==> out.store == st && out.reply.payload == NoPayload
    ensures Authenticate(st.users, header, verify).Denied? ==>
      out.reply == DeniedReply(Authenticate(st.users, header, verify))
    ensures (Authenticate(st.users, header, verify).Granted? && ValidateTransaction(body).Err?) ==>
      out.reply == Reply(400, TxErrorMessage(ValidateTransaction(body).error), NoPayload)
  {
    match Authenticate(st.users, header, verify)
    case Denied(_, _) => Outcome(st, DeniedReply(Authenticate(st.users, header, verify)))
    case Granted(u) =>
      match ValidateTransaction(body)
      case Err(e) => Outcome(st, Reply(400, TxErrorMessage(e), NoPayload))
      case Ok(v) =>
        match parseDate(v.dateText)
        case None => Outcome(st, Reply(500, CreateFailedMessage, NoPayload))
        case Some(date) =>
          if RecordById(st.records, newId).Some? then Outcome(st, Reply(500, CreateFailedMessage, NoPayload))
          else
            var tx := Transaction(newId, u.id, v.amount, v.category, v.kind, Trim(v.description), date);
            Outcome(st.(records := st.records + [Record(tx, now)]),
                    Reply(201, "Transaction added successfully", Created(tx)))
  }

  predicate IsHexDigit(c: char) {
    ('0' <= c <= '9') || ('a' <= c <= 'f') || ('A' <= c <= 'F')
  }

  /** `mongoose.Types.ObjectId.isValid(id)` for its canonical form: 24 hexadecimal digits. */
  predicate ValidObjectId(id: string) {
    |id| == 24 && forall i :: 0 <= i < |id| ==> IsHexDigit(id[i])
  }

  /** Lower-casing neither makes nor unmakes a valid id. */
  lemma LowerKeepsValidObjectId(id: string)
    ensures ValidObjectId(ToLower(id)) <==> ValidObjectId(id)
  {
    forall i | 0 <= i < |id|
      ensures IsHexDigit(ToLower(id)[i]) <==> IsHexDigit(id[i])
    {
    }
  }

  /** `findOneAndDelete({ _id: id, userId })`'s match: the record with that id owned by that user. */
  function OwnedRecord(records: seq<Record>, id: string, userId: string): (r: Option<nat>)
    ensures r.Some? ==> r.value < |records| && SameObjectId(records[r.value].tx.id, id)
    ensures r.Some? ==> records[r.value].tx.userId == userId
    ensures r.None? <==> forall j :: 0 <= j < |records| ==>
      !(SameObjectId(records[j].tx.id, id) && records[j].tx.userId == userId)
  {
    FirstMatch(records, (rec: Record) => SameObjectId(rec.tx.id, id) && rec.tx.userId == userId)
  }

  /** `records` without the element at `k`. */
  function RemoveAt<T>(xs: seq<T>, k: nat): (r: seq<T>)
    requires k < |xs|
    ensures |r| == |xs| - 1
    ensures forall i :: 0 <= i < k ==> r[i] == xs[i]
    ensures forall i :: k <= i < |r| ==> r[i] == xs[i + 1]
  {
    xs[..k] + xs[k + 1..]
  }

  /**
   * `DELETE /api/transactions/:id`. Only a record that has this id and belongs to the caller is
   * removed; a record of another user is reported as missing, exactly like an unknown id.
   */
  function DeleteTransaction(st: Store, header: Option<string>, verify: string -> Option<Claims>, id: string): (out: Outcome)
    ensures out.store.users == st.users && out.reply.payload == NoPayload
    ensures Authenticate(st.users, header, verify).Denied? ==>
      out == Outcome(st, DeniedReply(Authenticate(st.users, header, verify)))
    ensures (Authenticate(st.users, header, verify).Granted? && !ValidObjectId(id)) ==>
      out == Outcome(st, Reply(400, "Invalid transaction ID", NoPayload))
    ensures out.reply.status == 200 <==>
      && Authenticate(st.users, header, verify).Granted? && ValidObjectId(id)
      && OwnedRecord(st.records, id, Authenticate(st.users, header, verify).user.id).Some?
    ensures out.reply.status == 200 ==>
      var k := OwnedRecord(st.records, id, Authenticate(st.users, header, verify).user.id).value;
      && SameObjectId(st.records[k].tx.id, id)
      && st.records[k].tx.userId == Authenticate(st.users, header, verify).user.id
      && out.store.records == RemoveAt(st.records, k)
    ensures out.reply.status != 200 ==> out.store == st
    ensures (Authenticate(st.users, header, verify).Granted? && ValidObjectId(id)
             && OwnedRecord(st.records, id, Authenticate(st.users, header, verify).user.id).None?) ==>
      out.reply == Reply(404, "Transaction not found", NoPayload)
  {
    match Authenticate(st.users, header, verify)
    case Denied(_, _) => Outcome(st, DeniedReply(Authenticate(st.users, header, verify)))
    case Granted(u) =>
      if !ValidObjectId(id) then Outcome(st, Reply(400, "Invalid transaction ID", NoPayload))
      else match OwnedRecord(st.records, id, u.id)
        case None => Outcome(st, Reply(404, "Transaction not found", NoPayload))
        case Some(k) =>
          Outcome(st.(records := RemoveAt(st.records, k)), Reply(200, "Transaction deleted successfully", NoPayload))
  }

  /** A delete is answered alike whatever the case of the id's hexadecimal letters. */
  lemma DeleteIgnoresIdCase(st: Store, header: Option<string>, verify: string -> Option<Claims>, id: string)
    ensures DeleteTransaction(st, header, verify, ToLower(id)) == DeleteTransaction(st, header, verify, id)
  {
    ToLowerIdempotent(id);
    LowerKeepsValidObjectId(id);
    if Authenticate(st.users, header, verify).Granted? {
      var uid := Authenticate(st.users, header, verify).user.id;
      FirstMatchAgree(st.records, (r: Record) => SameObjectId(r.tx.id, ToLower(id)) && r.tx.userId == uid,
                      (r: Record) => SameObjectId(r.tx.id, id) && r.tx.userId == uid);
    }
  }

  /** Deleting never changes what any other user sees listed. */
  lemma {:induction false} DeleteSparesOtherUsers(st: Store, header: Option<string>, verify: string -> Option<Claims>,
                                                  id: string, other: string)
    requires Authenticate(st.users, header, verify).Granted?
    requires other != Authenticate(st.users, header, verify).user.id
    ensures OwnedNewestFirst(DeleteTransaction(st, header, verify, id).store.records, other)
      == OwnedNewestFirst(st.records, other)
  {
    var out := DeleteTransaction(st, header, verify, id);
    if out.reply.status == 200 {
      var k := OwnedRecord(st.records, id, Authenticate(st.users, header, verify).user.id).value;
      RemoveOtherOwner(st.records, k, other);
    }
  }

  /** Removing a record that `other` does not own leaves `other`'s listing as it was. */
  lemma {:induction false} RemoveOtherOwner(records: seq<Record>, k: nat, other: string)
    requires k < |records| && records[k].tx.userId != other
    ensures OwnedNewestFirst(RemoveAt(records, k), other) == OwnedNewestFirst(records, other)
  {
    if k == 0 {
      assert RemoveAt(records, k) == records[1..];
    } else {
      assert RemoveAt(records, k)[1..] == RemoveAt(records[1..], k - 1);
      RemoveOtherOwner(records[1..], k - 1, other);
    }
  }
}
