// Where the rows of the store come from.
module RowOrigins {
  import opened Common
  import opened Feed
  import opened Ingest
  import opened IngestView
  import opened ShownCopy
  import C = Convergence

  // The row holds an item of this delivery as it came.
  predicate From(w: World, op: Op, r: Row) {
    && op.Deliver? && r.item in op.items
    && r.source == op.source.id && r.observedAt == op.now && r.payload == w.sha(op.body)
    && r.key == (if r.item.guid != "" then r.item.guid else r.item.link) != ""
  }

  ghost predicate FromSome(w: World, ops: seq<Op>, r: Row) { exists i :: 0 <= i < |ops| && From(w, ops[i], r) }

  lemma {:induction false} NewRowsFrom(w: World, rows: seq<Row>, source: Source, body: string, items: seq<Item>, now: int, r: Row)
    requires r in RecordAll(w, rows, source, w.sha(body), items, now)
    ensures r in rows || From(w, Deliver(source, body, items, now), r)
  {
    hide ContentHash, FidelityOf, ClaimedByAuthor, Recorded;
    if items != [] {
      var n := |items| - 1;
      var before := RecordAll(w, rows, source, w.sha(body), items[..n], now);
      if r in before {
        NewRowsFrom(w, rows, source, body, items[..n], now, r);
        assert forall x <- items[..n] :: x in items;
      } else {
        assert items[n] in items;
      }
    }
  }

  lemma StepRowsFrom(w: World, db: Db, op: Op, r: Row)
    requires r in Step(w, db, op).rows
    ensures r in db.rows || From(w, op, r)
  {
    if op.Deliver? {
      if r in RecordAll(w, db.rows, op.source, w.sha(op.body), op.items, op.now) {
        NewRowsFrom(w, db.rows, op.source, op.body, op.items, op.now, r);
      }
    }
    hide RecordAll, Winner, StorePayload, Mark;
  }

  // In every run each row holds an item that was delivered, as it was delivered: under its guid or
  // else its link, for the source, the body and the moment of that delivery.
  lemma {:induction false} EveryRowDelivered(w: World, ops: seq<Op>)
    ensures forall r <- Run(w, EMPTY, ops).rows :: FromSome(w, ops, r)
  {
    if ops != [] {
      var n := |ops| - 1;
      EveryRowDelivered(w, ops[..n]);
      forall r | r in Run(w, EMPTY, ops).rows ensures FromSome(w, ops, r) {
        StepRowsFrom(w, Run(w, EMPTY, ops[..n]), ops[n], r);
        hide From, Step;
        if r in Run(w, EMPTY, ops[..n]).rows {
          var i :| 0 <= i < n && From(w, ops[..n][i], r);
          assert From(w, ops[i], r);
        } else {
          assert From(w, ops[n], r);
        }
      }
    }
  }

  // And each item with a key, once delivered from a source that is registered, has a row: one of
  // its source under its key, with its content hash.
  lemma {:induction false} EveryItemRecorded(w: World, rows: seq<Row>, source: Source, payload: seq<byte>, items: seq<Item>, now: int, item: Item)
    requires item in items && (item.guid != "" || item.link != "")
    ensures exists r <- RecordAll(w, rows, source, payload, items, now) ::
      r.source == source.id && r.key == (if item.guid != "" then item.guid else item.link) && r.hash == ContentHash(w, item)
  {
    hide ContentHash, FidelityOf, ClaimedByAuthor;
    var n := |items| - 1;
    if item == items[n] {
      var before := RecordAll(w, rows, source, payload, items[..n], now);
      if !Recorded(w, before, source.id, item) {
        assert NewRow(w, before, source, payload, item, now) in Record(w, before, source, payload, item, now);
      }
    } else {
      assert item in items[..n];
      EveryItemRecorded(w, rows, source, payload, items[..n], now, item);
    }
  }

  // A source is removed unless it is unknown or local; what it delivered goes with it, and what
  // others delivered stays.
  lemma RemovalTells(db: Db, id: nat, now: int)
    ensures var (after, r) := RemoveStep(db, id, now);
            var known := exists s <- db.sources :: s.id == id;
            && (r == Err(NoSource) <==> !known)
            && (r == Err(SourceIsLocal) ==> exists s <- db.sources :: s.id == id && s.isLocal)
            && ((forall s <- db.sources :: s.id == id ==> s.isLocal) ==> r.Err?)
            && (r.Err? ==> after == db)
            && (r.Ok? ==>
                  && (forall s :: s in after.sources <==> s in db.sources && s.id != id)
                  && (forall x :: x in after.rows <==> x in db.rows && x.source != id)
                  && after.payloads == db.payloads)
  {
    hide WinningOn, SourceById;
    hide Winner, Entries, Docs;
    if RemoveStep(db, id, now).1.Ok? {
      var orphaned := WinningOn(db, id);
      var cut := db.(sources := Drop(db.sources, id), rows := Except(db.rows, id), logical := db.logical - orphaned);
      ConvergeKeeps(cut, orphaned, now);
      hide Converge;
    }
  }

  lemma ConvergeKeeps(db: Db, keys: set<string>, now: int)
    ensures var after := Converge(db, keys, now);
            after.sources == db.sources && after.rows == db.rows && after.payloads == db.payloads
  {}

  // ---- why a row is shown ----

  // The first thing in which the two rows differ.
  function Apart(x: Row, r: Row): C.Reason {
    if x.claimed != r.claimed then C.AuthorOrigin
    else if CountedTime(x) != CountedTime(r) then C.Newer
    else if !SameKind(x.item, r.item) then C.Fidelity
    else if |x.item.enclosures| != |r.item.enclosures| then C.Attachments
    else C.Hash
  }

  function Closeness(reason: C.Reason): nat {
    match reason
    case OnlyCandidate => 0
    case AuthorOrigin => 1
    case Newer => 2
    case Fidelity => 3
    case Attachments => 4
    case Hash => 5
  }

  lemma ApartIs(x: Row, r: Row)
    requires x.fidelity == FidelityOf(x.item) && r.fidelity == FidelityOf(r.item)
    ensures C.Beats(CandidateOf(x), CandidateOf(r)).1 == Apart(x, r)
  {
    ReasonTells(x, r);
    hide CountedTime, SameKind, FidelityOf;
  }

  lemma OtherIsCandidate(mine: seq<Row>, at: nat, r: Row)
    requires Ordered(mine) && at < |mine| && r in mine && r != mine[at]
    ensures CandidateOf(r) in C.Without(Candidates(mine), at)
  {
    hide CandidateOf, Ordered;
    var cs := Candidates(mine);
    var j :| 0 <= j < |mine| && mine[j] == r;
    assert C.Without(cs, at) == cs[..at] + cs[at + 1..];
    assert C.Without(cs, at)[if j < at then j else j - 1] == cs[j];
  }

  lemma CandidateIsOther(mine: seq<Row>, at: nat, c: C.Candidate) returns (r: Row)
    requires Ordered(mine) && at < |mine| && c in C.Without(Candidates(mine), at)
    ensures r in mine && r != mine[at] && CandidateOf(r) == c
  {
    hide CandidateOf;
    var cs := Candidates(mine);
    var rest := C.Without(cs, at);
    assert rest == cs[..at] + cs[at + 1..];
    var k :| 0 <= k < |rest| && rest[k] == c;
    var j := if k < at then k else k + 1;
    r := mine[j];
    assert cs[j] == c;
  }

  // The reason names a difference between the row shown and some other of its key, and from no
  // other does the row differ later than that. It is the only one exactly when there is no other.
  ghost predicate Explains(rows: seq<Row>, key: string, x: Row, reason: C.Reason) {
    && (reason == C.OnlyCandidate <==> forall r <- rows :: r.key == key ==> r == x)
    && (reason != C.OnlyCandidate ==> exists r <- rows :: r.key == key && r != x && Apart(x, r) == reason)
    && (forall r <- rows :: r.key == key && r != x ==> Closeness(Apart(x, r)) <= Closeness(reason))
  }

  lemma ReasonExplains(w: World, db: Db, key: string)
    requires WellFormed(w, db) && key in KeysOf(db.rows)
    ensures Explains(db.rows, key, Winner(db.rows, key), ReasonFor(db.rows, key))
  {
    var mine, x := ForKey(db.rows, key), Winner(db.rows, key);
    ForKeyOrdered(db.rows, key);
    assert x in mine;
    var at, reason := C.BestAt(Candidates(mine)), ReasonFor(db.rows, key);
    if |mine| > 1 {
      ReasonClosest(mine);
      hide ForKey, Winner, ReasonFor, Explains, Closest, WellFormed, Ordered;
      ClosestExplains(w, db, key, mine, at, reason);
    } else {
      AloneExplained(db.rows, key, x);
    }
  }

  lemma ReasonClosest(mine: seq<Row>)
    requires |mine| > 1
    ensures Closest(mine, C.BestAt(Candidates(mine)), C.Resolved(Candidates(mine)).value.reason)
  {
    C.ReasonIsTheClosest(Candidates(mine));
    hide CandidateOf;
  }

  lemma AloneExplained(rows: seq<Row>, key: string, x: Row)
    requires ForKey(rows, key) == [x]
    ensures Explains(rows, key, x, C.OnlyCandidate)
  {
    hide Apart;
    assert forall r :: r in rows && r.key == key <==> r in ForKey(rows, key);
  }

  // The candidates at hand, one of them the winner, and the reason given.
  ghost predicate Closest(mine: seq<Row>, at: nat, reason: C.Reason)
    requires at < |mine|
  {
    var cs := Candidates(mine);
    && (forall c <- C.Without(cs, at) :: C.Level(C.Beats(cs[at], c).1) <= C.Level(reason))
    && (exists c <- C.Without(cs, at) :: C.Beats(cs[at], c).1 == reason)
  }

  lemma NoneCloser(mine: seq<Row>, at: nat, reason: C.Reason, r: Row)
    requires Ordered(mine) && at < |mine| && Closest(mine, at, reason) && r in mine && r != mine[at]
    requires mine[at].fidelity == FidelityOf(mine[at].item) && r.fidelity == FidelityOf(r.item)
    ensures Closeness(Apart(mine[at], r)) <= Closeness(reason)
  {
    OtherIsCandidate(mine, at, r);
    ApartIs(mine[at], r);
    SameLevels(Apart(mine[at], r), reason);
    hide Apart, CandidateOf, FidelityOf;
  }

  lemma SomeAsClose(mine: seq<Row>, at: nat, reason: C.Reason) returns (r: Row)
    requires Ordered(mine) && at < |mine| && Closest(mine, at, reason)
    requires forall x <- mine :: x.fidelity == FidelityOf(x.item)
    ensures r in mine && r != mine[at] && Apart(mine[at], r) == reason
  {
    hide Apart, CandidateOf, FidelityOf;
    var c :| c in C.Without(Candidates(mine), at) && C.Beats(Candidates(mine)[at], c).1 == reason;
    r := CandidateIsOther(mine, at, c);
    ApartIs(mine[at], r);
  }

  lemma ClosestExplains(w: World, db: Db, key: string, mine: seq<Row>, at: nat, reason: C.Reason)
    requires WellFormed(w, db) && mine == ForKey(db.rows, key) && at < |mine| && Ordered(mine) && Closest(mine, at, reason)
    ensures Explains(db.rows, key, mine[at], reason)
  {
    var x := mine[at];
    hide Apart, CandidateOf, ContentHash, FidelityOf, ForKey, Closest, Closeness;
    assert forall r :: r in mine <==> r in db.rows && r.key == key;
    forall r | r in db.rows ensures r.fidelity == FidelityOf(r.item) { assert GoodRow(w, db, r); }
    forall r | r in db.rows && r.key == key && r != x ensures Closeness(Apart(x, r)) <= Closeness(reason) {
      NoneCloser(mine, at, reason, r);
    }
    var r := SomeAsClose(mine, at, reason);
    ApartAtAll(x, r);
  }

  lemma ApartAtAll(x: Row, r: Row)
    ensures Apart(x, r) != C.OnlyCandidate
  {}

  lemma SameLevels(a: C.Reason, b: C.Reason)
    ensures C.Level(a) <= C.Level(b) <==> Closeness(a) <= Closeness(b)
  {}

  // Whenever an ingest changes what a key shows, the reason it stores explains the choice.
  lemma StoredReason(w: World, db: Db, source: Source, body: string, items: seq<Item>, now: int, key: string)
    requires Inv(w, db)
    ensures var after := IngestStep(w, db, source, body, items, now).0;
            key in after.logical && (key !in db.logical || db.logical[key].winner != after.logical[key].winner) ==>
              && key in KeysOf(after.rows)
              && after.logical[key].winner == Winner(after.rows, key).id
              && Explains(after.rows, key, Winner(after.rows, key), after.logical[key].reason)
  {
    var after := IngestStep(w, db, source, body, items, now).0;
    IngestKeepsInv(w, db, source, body, items, now);
    if key in after.logical && (key !in db.logical || db.logical[key].winner != after.logical[key].winner) {
      assert AgreesAt(after, key);
      var recorded := db.(payloads := StorePayload(w, db.payloads, body, now),
                          rows := RecordAll(w, db.rows, source, w.sha(body), items, now));
      ConvergedAt(recorded, Touched(items), now, key);
      ReasonExplains(w, after, key);
      hide Winner, ReasonFor, Explains, RecordAll, StorePayload, DocOf;
    }
  }
}
