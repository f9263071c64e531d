/** The message service of apps/server/index.js: the POST /messages,
    GET /messages/:recipient and GET /health handlers over the one
    `messages` collection. The collection is a store object holding the
    records in insertion order, a fresh-id counter standing for ObjectId
    generation and a logical clock standing for `new Date()`. */
module MessageService {
  import opened Json

  const RequiredFieldsError := "Recipient and content are required."
  /** What Node reports when a handler touches the collection handle before
      startup has assigned it. */
  const MissingHandleInsertError := "Cannot read properties of undefined (reading 'insertOne')"
  const MissingHandleFindError := "Cannot read properties of undefined (reading 'find')"

  /** The fields the POST handler destructures from the request body. */
  datatype Submission = Submission(recipient: Value, sender: Value, content: Value, image: Value)

  /** A stored message: the submitted fields plus the id and timestamp the
      service assigns. */
  datatype Record = Record(id: nat, recipient: Value, sender: Value, content: Value, image: Value, createdAt: nat)

  datatype Body =
    | IdBody(id: nat)
    | ErrorBody(error: string)
    | ListBody(messages: seq<Record>)
    | HealthBody(status: string, database: string)

  datatype Response = Response(status: nat, body: Body)

  /** How startup ends: listening for requests, or the process exits. */
  datatype Startup = Listening | Exited(code: int)

  /** The only validation the POST handler performs. */
  predicate Accepts(sub: Submission)
  {
    Truthy(sub.recipient) && Truthy(sub.content)
  }

  /** The store invariant on one record. */
  predicate WellFormed(r: Record)
  {
    Truthy(r.recipient) && Truthy(r.content)
  }

  /** The records a `find({ recipient })` query selects, in store order:
      exact equality with the path parameter, no normalisation. */
  function Matches(records: seq<Record>, recipient: string): (m: seq<Record>)
    ensures forall r :: r in m <==> r in records && r.recipient == Str(recipient)
  {
    if records == [] then []
    else
      var rest := Matches(records[1..], recipient);
      if records[0].recipient == Str(recipient) then [records[0]] + rest else rest
  }

  /** Newest first: the order `sort({ created_at: -1 })` produces. */
  predicate NewestFirst(s: seq<Record>)
  {
    forall i, j | 0 <= i < j < |s| :: s[i].createdAt >= s[j].createdAt
  }

  /** What GET /messages/:recipient may answer: every matching record once,
      newest first. Records with equal timestamps may come in any order. */
  predicate IsListing(records: seq<Record>, recipient: string, out: seq<Record>)
  {
    multiset(out) == multiset(Matches(records, recipient)) && NewestFirst(out)
  }

  function InsertByTime(x: Record, s: seq<Record>): (r: seq<Record>)
    requires NewestFirst(s)
    ensures NewestFirst(r)
    ensures multiset(r) == multiset(s) + multiset{x}
    ensures |r| == |s| + 1 && (r[0] == x || (s != [] && r[0] == s[0]))
  {
    if s == [] || x.createdAt >= s[0].createdAt then
      [x] + s
    else
      var rest := InsertByTime(x, s[1..]);
      assert s == [s[0]] + s[1..];
      assert rest[0].createdAt <= s[0].createdAt;
      [s[0]] + rest
  }

  /** The sort the storage backend performs; one of the orders IsListing
      allows. */
  function SortNewestFirst(s: seq<Record>): (r: seq<Record>)
    ensures NewestFirst(r)
    ensures multiset(r) == multiset(s)
  {
    if s == [] then []
    else
      assert s == [s[0]] + s[1..];
      InsertByTime(s[0], SortNewestFirst(s[1..]))
  }

  class MessageStore {
    /** The collection's documents, in insertion order. */
    var records: seq<Record>
    /** The id the next insert receives. */
    var nextId: nat
    /** The logical clock; `created_at` of the next insert is at least this. */
    var clock: nat
    /** Whether `messagesCollection` has been assigned. */
    var connected: bool

    ghost predicate Valid()
      reads this
    {
      && (forall i | 0 <= i < |records| ::
            WellFormed(records[i]) && records[i].id < nextId && records[i].createdAt <= clock)
      && (forall i, j | 0 <= i < j < |records| :: records[i].id < records[j].id)
      && (!connected ==> records == [])
    }

    /** Process start: the handle is not yet assigned and the collection is
        empty. */
    constructor ()
      ensures Valid()
      ensures records == [] && nextId == 0 && clock == 0 && !connected
    {
      records, nextId, clock, connected := [], 0, 0, false;
    }

    /** `connectToDatabase`: the handle is assigned, and the server listens,
        only when both connect and ping succeed; otherwise the process exits
        with status 1. */
    method Connect(connectSucceeded: bool, pingSucceeded: bool) returns (outcome: Startup)
      requires Valid()
      modifies this`connected
      ensures Valid()
      ensures outcome == (if connectSucceeded && pingSucceeded then Listening else Exited(1))
      ensures connected == (old(connected) || (connectSucceeded && pingSucceeded))
      ensures outcome == Listening ==> connected
    {
      if connectSucceeded && pingSucceeded {
        connected := true;
        outcome := Listening;
      } else {
        outcome := Exited(1);
      }
    }

    /** POST /messages. `elapsed` is the time since the previous request,
        possibly zero; `storageError` is the message of a failing insertOne. */
    method Submit(sub: Submission, elapsed: nat, storageError: Option<string>) returns (resp: Response)
      requires Valid()
      modifies this`records, this`nextId, this`clock
      ensures Valid()
      ensures !Accepts(sub) ==>
        resp == Response(400, ErrorBody(RequiredFieldsError))
      ensures Accepts(sub) && !connected ==>
        resp == Response(500, ErrorBody(MissingHandleInsertError))
      ensures Accepts(sub) && connected && storageError.Some? ==>
        resp == Response(500, ErrorBody(storageError.value))
      ensures resp.status != 200 ==>
        records == old(records) && nextId == old(nextId) && clock == old(clock)
      ensures resp.status == 200 <==> Accepts(sub) && connected && storageError.None?
      ensures resp.status == 200 ==>
        && resp == Response(200, IdBody(old(nextId)))
        && records == old(records) + [Record(old(nextId), sub.recipient, sub.sender, sub.content, sub.image, old(clock) + elapsed)]
        && nextId == old(nextId) + 1
        && clock == old(clock) + elapsed
      ensures resp.body.IdBody? ==> forall r | r in old(records) :: r.id != resp.body.id
    {
      if !Accepts(sub) {
        return Response(400, ErrorBody(RequiredFieldsError));
      }
      if !connected {
        return Response(500, ErrorBody(MissingHandleInsertError));
      }
      if storageError.Some? {
        return Response(500, ErrorBody(storageError.value));
      }
      var stamp := clock + elapsed;
      var id := nextId;
      records := records + [Record(id, sub.recipient, sub.sender, sub.content, sub.image, stamp)];
      nextId := nextId + 1;
      clock := stamp;
      resp := Response(200, IdBody(id));
    }

    /** GET /messages/:recipient. Reads the store and changes nothing. */
    method List(recipient: string, storageError: Option<string>) returns (resp: Response)
      ensures !connected ==> resp == Response(500, ErrorBody(MissingHandleFindError))
      ensures connected && storageError.Some? ==> resp == Response(500, ErrorBody(storageError.value))
      ensures resp.status == 200 <==> connected && storageError.None?
      ensures resp.status == 200 ==> resp.body.ListBody? && IsListing(records, recipient, resp.body.messages)
    {
      if !connected {
        return Response(500, ErrorBody(MissingHandleFindError));
      }
      if storageError.Some? {
        return Response(500, ErrorBody(storageError.value));
      }
      resp := Response(200, ListBody(SortNewestFirst(Matches(records, recipient))));
    }

    /** GET /health: always 200 "ok"; the database field reflects whether the
        collection handle is assigned, and nothing else. */
    function Health(): (resp: Response)
      reads this
      ensures resp.status == 200 && resp.body.HealthBody? && resp.body.status == "ok"
      ensures resp.body.database in {"connected", "disconnected"}
      ensures resp.body.database == "connected" <==> connected
    {
      Response(200, HealthBody("ok", if connected then "connected" else "disconnected"))
    }
  }

  // ---------------------------------------------------------------------
  // Properties of the query

  /** A listing holds exactly the stored records addressed to the recipient:
      nothing for anyone else, nothing missing. */
  lemma ListingIsExactlyMatches(records: seq<Record>, recipient: string, out: seq<Record>)
    requires IsListing(records, recipient, out)
    ensures forall r :: r in out <==> r in records && r.recipient == Str(recipient)
    ensures |out| == |Matches(records, recipient)|
  {
    forall r ensures r in out <==> r in Matches(records, recipient) {
      calc {
        r in out;
        r in multiset(out);
        r in multiset(Matches(records, recipient));
        r in Matches(records, recipient);
      }
    }
    assert |multiset(out)| == |multiset(Matches(records, recipient))|;
  }

  /** Isolation: a message for one recipient never appears in another's list. */
  lemma ListingIsolatesRecipients(records: seq<Record>, owner: string, other: string, out: seq<Record>)
    requires owner != other
    requires IsListing(records, other, out)
    ensures forall r | r in out :: r.recipient != Str(owner)
  {
    ListingIsExactlyMatches(records, other, out);
  }

  lemma {:induction false} MatchesNone(records: seq<Record>, recipient: string)
    requires forall r | r in records :: r.recipient != Str(recipient)
    ensures Matches(records, recipient) == []
  {
    if records != [] {
      assert records[0] in records;
      MatchesNone(records[1..], recipient);
    }
  }

  /** A recipient nobody wrote to gets the empty list, not an error. */
  lemma UnknownRecipientListsNothing(records: seq<Record>, recipient: string, out: seq<Record>)
    requires forall r | r in records :: r.recipient != Str(recipient)
    requires IsListing(records, recipient, out)
    ensures out == []
  {
    MatchesNone(records, recipient);
    assert |multiset(out)| == 0;
  }

  lemma {:induction false} MatchesAppend(a: seq<Record>, b: seq<Record>, recipient: string)
    ensures Matches(a + b, recipient) == Matches(a, recipient) + Matches(b, recipient)
  {
    if a != [] {
      assert (a + b)[0] == a[0];
      assert (a + b)[1..] == a[1..] + b;
      MatchesAppend(a[1..], b, recipient);
    } else {
      assert a + b == b;
    }
  }

  /** An insert for one recipient leaves every other recipient's listings as
      they were. */
  lemma InsertLeavesOtherListings(records: seq<Record>, rec: Record, other: string, out: seq<Record>)
    requires rec.recipient != Str(other)
    ensures IsListing(records + [rec], other, out) <==> IsListing(records, other, out)
  {
    MatchesAppend(records, [rec], other);
    assert Matches([rec], other) == [];
  }

  /** The record a successful POST appends is in every later listing for its
      recipient. */
  lemma InsertedRecordIsListed(records: seq<Record>, rec: Record, recipient: string, out: seq<Record>)
    requires rec.recipient == Str(recipient)
    requires IsListing(records + [rec], recipient, out)
    ensures rec in out
  {
    ListingIsExactlyMatches(records + [rec], recipient, out);
  }

  function Times(s: seq<Record>): (t: seq<nat>)
    ensures |t| == |s|
    ensures forall i | 0 <= i < |s| :: t[i] == s[i].createdAt
  {
    seq(|s|, i requires 0 <= i < |s| => s[i].createdAt)
  }

  lemma TimesAppend(a: seq<Record>, b: seq<Record>)
    ensures Times(a + b) == Times(a) + Times(b)
  {
  }

  /** Records that are permutations of each other carry the same timestamps. */
  lemma {:induction false} TimesMultiset(a: seq<Record>, b: seq<Record>)
    requires multiset(a) == multiset(b)
    ensures multiset(Times(a)) == multiset(Times(b))
    decreases |a|
  {
    if a == [] {
      assert |multiset(b)| == 0;
    } else {
      var x := a[0];
      assert x in multiset(b);
      var k :| 0 <= k < |b| && b[k] == x;
      var front, back := b[..k], b[k + 1..];
      assert b == front + [x] + back;
      assert a == [x] + a[1..];
      assert multiset(b) == multiset(front) + multiset{x} + multiset(back);
      assert multiset(a) == multiset{x} + multiset(a[1..]);
      assert multiset(front + back) == multiset(front) + multiset(back);
      assert multiset(a[1..]) == multiset(a) - multiset{x};
      assert multiset(a[1..]) == multiset(front + back);
      TimesMultiset(a[1..], front + back);
      TimesAppend(front, back);
      TimesAppend(front + [x], back);
      TimesAppend(front, [x]);
      TimesAppend([x], a[1..]);
    }
  }

  predicate Descending(t: seq<nat>)
  {
    forall i, j | 0 <= i < j < |t| :: t[i] >= t[j]
  }

  lemma HeadIsLargest(t: seq<nat>, v: nat)
    requires Descending(t) && v in multiset(t)
    ensures t != [] && v <= t[0]
  {
    var i :| 0 <= i < |t| && t[i] == v;
  }

  /** Two descending sequences of the same timestamps are the same sequence. */
  lemma {:induction false} DescendingUnique(a: seq<nat>, b: seq<nat>)
    requires Descending(a) && Descending(b)
    requires multiset(a) == multiset(b)
    ensures a == b
    decreases |a|
  {
    if a == [] {
      assert |multiset(b)| == 0;
    } else {
      HeadIsLargest(b, a[0]);
      HeadIsLargest(a, b[0]);
      assert a == [a[0]] + a[1..];
      assert b == [b[0]] + b[1..];
      assert multiset(a) == multiset{a[0]} + multiset(a[1..]);
      assert multiset(b) == multiset{b[0]} + multiset(b[1..]);
      assert a[0] == b[0];
      assert multiset(a[1..]) == multiset(a) - multiset{a[0]};
      assert multiset(b[1..]) == multiset(b) - multiset{b[0]};
      DescendingUnique(a[1..], b[1..]);
    }
  }

  /** Repeated reads with no write between them agree: the same records,
      and the same sequence of timestamps. The code fixes no order among
      records with equal timestamps, so neither does this. */
  lemma ListingsAgree(records: seq<Record>, recipient: string, out1: seq<Record>, out2: seq<Record>)
    requires IsListing(records, recipient, out1)
    requires IsListing(records, recipient, out2)
    ensures multiset(out1) == multiset(out2)
    ensures Times(out1) == Times(out2)
  {
    TimesMultiset(out1, out2);
    DescendingUnique(Times(out1), Times(out2));
  }

  /** When the recipient's records carry distinct timestamps, the listing is
      unique: repeated reads return identical sequences. */
  lemma ListingUniqueForDistinctTimes(records: seq<Record>, recipient: string, out1: seq<Record>, out2: seq<Record>)
    requires forall r1, r2 | r1 in records && r2 in records && r1.recipient == Str(recipient)
               && r2.recipient == Str(recipient) && r1 != r2 :: r1.createdAt != r2.createdAt
    requires IsListing(records, recipient, out1)
    requires IsListing(records, recipient, out2)
    ensures out1 == out2
  {
    ListingsAgree(records, recipient, out1, out2);
    ListingIsExactlyMatches(records, recipient, out1);
    ListingIsExactlyMatches(records, recipient, out2);
    forall i | 0 <= i < |out1| ensures out1[i] == out2[i] {
      assert Times(out1)[i] == Times(out2)[i];
      assert out1[i] in out1 && out2[i] in out2;
    }
  }

  lemma ScenarioMatches(r1: Record, r2: Record, r3: Record, recipient: string)
    requires r1.recipient == r2.recipient == r3.recipient == Str(recipient)
    ensures Matches([r1, r2, r3], recipient) == [r1, r2, r3]
  {
    assert Matches([r3], recipient) == [r3] by { assert [r3][1..] == []; }
    assert Matches([r2, r3], recipient) == [r2, r3] by { assert [r2, r3][1..] == [r3]; }
    assert [r1, r2, r3][1..] == [r2, r3];
  }

  /** Three messages for one recipient stamped t1 < t2 < t3 are listed as
      t3, t2, t1. */
  lemma NewestFirstScenario(r1: Record, r2: Record, r3: Record, recipient: string, out: seq<Record>)
    requires r1.recipient == r2.recipient == r3.recipient == Str(recipient)
    requires r1.createdAt < r2.createdAt < r3.createdAt
    requires IsListing([r1, r2, r3], recipient, out)
    ensures out == [r3, r2, r1]
  {
    var records, expected := [r1, r2, r3], [r3, r2, r1];
    ScenarioMatches(r1, r2, r3, recipient);
    assert multiset(expected) == multiset{r1, r2, r3} == multiset(records);
    assert NewestFirst(expected);
    ListingUniqueForDistinctTimes(records, recipient, out, expected);
  }
}
