// The two caches agree with "resolve everything from scratch" after every step of every run.
module IngestView {
  import opened Common
  import opened Feed
  import opened Ingest
  import C = Convergence

  // ---- what a winner is, without reference to any scan order ----

  predicate AtLeast(a: Row, b: Row) {
    !C.Beats(CandidateOf(b), CandidateOf(a)).0
  }

  // The observation of the key that nothing outranks, the oldest one if several tie.
  ghost predicate IsWinner(rows: seq<Row>, key: string, w: Row) {
    && w in rows && w.key == key
    && forall r <- rows :: r.key == key ==> AtLeast(w, r) && (AtLeast(r, w) ==> w.id <= r.id)
  }

  ghost predicate Ordered(rows: seq<Row>) {
    && (forall i :: 0 <= i < |rows| ==> rows[i].id >= 1)
    && (forall i, j :: 0 <= i < j < |rows| ==> rows[i].id < rows[j].id)
  }

  lemma SameIdSameRow(rows: seq<Row>, a: Row, b: Row)
    requires Ordered(rows) && a in rows && b in rows && a.id == b.id
    ensures a == b
  {}

  lemma OrderedAppend(rows: seq<Row>, last: Row)
    requires Ordered(rows) && last.id >= 1 && forall r <- rows :: r.id < last.id
    ensures Ordered(rows + [last])
  {}

  lemma {:induction false} ForKeyOrdered(rows: seq<Row>, key: string)
    requires Ordered(rows)
    ensures Ordered(ForKey(rows, key))
  {
    if rows != [] {
      var n := |rows| - 1;
      ForKeyOrdered(rows[..n], key);
      OrderedAppend(ForKey(rows[..n], key), rows[n]);
    }
  }

  lemma WinnerIsWinner(rows: seq<Row>, key: string)
    requires Ordered(rows) && key in KeysOf(rows)
    ensures IsWinner(rows, key, Winner(rows, key))
  {
    var mine := ForKey(rows, key);
    ForKeyOrdered(rows, key);
    var w := Winner(rows, key);
    assert mine != [] by { assert w in mine; }
    var at := C.BestAt(Candidates(mine));
    forall r | r in rows && r.key == key
      ensures AtLeast(w, r) && (AtLeast(r, w) ==> w.id <= r.id)
    {
      assert r in mine;
      var i :| 0 <= i < |mine| && mine[i] == r;
      assert CandidateOf(r) == Candidates(mine)[i] && CandidateOf(w) == Candidates(mine)[at];
    }
  }

  lemma WinnerUnique(rows: seq<Row>, key: string, w: Row)
    requires Ordered(rows) && IsWinner(rows, key, w)
    ensures key in KeysOf(rows) && Winner(rows, key) == w
  {
    WinnerIsWinner(rows, key);
    SameIdSameRow(rows, w, Winner(rows, key));
  }

  // ---- the invariant ----

  ghost predicate Copies(l: Logical, r: Row) {
    && l.winner == r.id && l.published == r.item.published
    && l.updated == EffectiveUpdated(r.item) && l.inReplyTo == r.item.inReplyTo
  }

  // What the caches hold for one key is what resolving that key from scratch gives.
  ghost predicate AgreesAt(db: Db, k: string) {
    && (k in db.logical <==> k in KeysOf(db.rows))
    && (k in db.search <==> k in KeysOf(db.rows))
    && (k in KeysOf(db.rows) ==>
          Copies(db.logical[k], Winner(db.rows, k)) && db.search[k] == DocOf(Winner(db.rows, k)))
  }

  ghost predicate Agrees(db: Db) {
    forall k :: AgreesAt(db, k)
  }

  ghost predicate OrderedSources(sources: seq<Source>) {
    && (forall i, j :: 0 <= i < j < |sources| ==>
          sources[i].id < sources[j].id && sources[i].feedURL != sources[j].feedURL)
  }

  ghost predicate GoodRow(w: World, db: Db, r: Row) {
    && HasId(db.sources, r.source)
    && r.payload in db.payloads
    && r.key == ItemKey(r.item) && r.key != ""
    && r.fidelity == FidelityOf(r.item)
    && r.hash == ContentHash(w, r.item)
  }

  // observation_once, the unique index.
  ghost predicate Once(rows: seq<Row>) {
    forall r, s :: r in rows && s in rows && r.source == s.source && r.key == s.key && r.hash == s.hash
                   ==> r == s
  }

  ghost predicate WellFormed(w: World, db: Db) {
    && OrderedSources(db.sources)
    && Ordered(db.rows)
    && Once(db.rows)
    && (forall r <- db.rows :: GoodRow(w, db, r))
    && (forall p <- db.payloads :: w.sha(db.payloads[p].body) == p)
  }

  ghost predicate Inv(w: World, db: Db) {
    WellFormed(w, db) && Agrees(db)
  }

  // ---- recording ----

  lemma RecordKeeps(w: World, db: Db, source: Source, payload: seq<byte>, item: Item, now: int)
    requires WellFormed(w, db) && HasId(db.sources, source.id)
    requires payload in db.payloads && ItemKey(item) != ""
    ensures WellFormed(w, db.(rows := Record(w, db.rows, source, payload, item, now)))
  {
    hide ContentHash, ClaimedByAuthor, FidelityOf;
    var rows := Record(w, db.rows, source, payload, item, now);
    if !Recorded(w, db.rows, source.id, item) {
      var added := NewRow(w, db.rows, source, payload, item, now);
      assert forall r :: r in rows <==> r in db.rows || r == added;
    }
  }

  lemma {:induction false} RecordAllKeeps(w: World, db: Db, source: Source, payload: seq<byte>, items: seq<Item>, now: int)
    requires WellFormed(w, db) && (Touched(items) != {} ==> HasId(db.sources, source.id))
    requires payload in db.payloads
    ensures WellFormed(w, db.(rows := RecordAll(w, db.rows, source, payload, items, now)))
  {
    if items != [] {
      var n := |items| - 1;
      assert Touched(items[..n]) <= Touched(items);
      RecordAllKeeps(w, db, source, payload, items[..n], now);
      if ItemKey(items[n]) != "" {
        assert ItemKey(items[n]) in Touched(items);
        var before := db.(rows := RecordAll(w, db.rows, source, payload, items[..n], now));
        RecordKeeps(w, before, source, payload, items[n], now);
      }
    }
  }

  // Keys that no item of the batch carries keep exactly their observations.
  lemma {:induction false} RecordAllLocal(w: World, rows: seq<Row>, source: Source, payload: seq<byte>, items: seq<Item>, now: int, k: string)
    requires k !in Touched(items)
    ensures ForKey(RecordAll(w, rows, source, payload, items, now), k) == ForKey(rows, k)
  {
    if items != [] {
      var n := |items| - 1;
      RecordAllLocal(w, rows, source, payload, items[..n], now, k);
      var before := RecordAll(w, rows, source, payload, items[..n], now);
      if ItemKey(items[n]) != "" && !Recorded(w, before, source.id, items[n]) {
        var after := RecordAll(w, rows, source, payload, items, now);
        assert after == before + [NewRow(w, before, source, payload, items[n], now)];
        assert after[..|after| - 1] == before;
        assert ItemKey(items[n]) in Touched(items);
      }
    }
  }

  lemma ForKeyDecides(a: seq<Row>, b: seq<Row>, k: string)
    requires ForKey(a, k) == ForKey(b, k)
    ensures k in KeysOf(a) <==> k in KeysOf(b)
    ensures k in KeysOf(a) ==> Winner(a, k) == Winner(b, k)
  {
    assert k in KeysOf(a) <==> exists r :: r in ForKey(a, k);
    assert k in KeysOf(b) <==> exists r :: r in ForKey(b, k);
  }

  // ---- converging ----

  // A cached entry may be stale, but it describes some live observation of its key.
  ghost predicate Backed(db: Db, k: string) {
    k in db.logical ==> exists r <- db.rows :: r.key == k && Copies(db.logical[k], r)
  }

  // What converging does to one key.
  lemma ConvergedAt(db: Db, keys: set<string>, now: int, k: string)
    ensures var after := Converge(db, keys, now);
            && after.rows == db.rows
            && (k in keys && k in KeysOf(db.rows) ==>
                  && k in after.logical && after.logical[k] == Upsert(db.rows, db.logical, k, now)
                  && k in after.search && after.search[k] == DocOf(Winner(db.rows, k)))
            && (!(k in keys && k in KeysOf(db.rows)) ==>
                  && (k in after.logical <==> k in db.logical) && (k in db.logical ==> after.logical[k] == db.logical[k])
                  && (k in after.search <==> k in db.search) && (k in db.search ==> after.search[k] == db.search[k]))
  {
    hide Upsert, DocOf, ForKey, KeysOf;
  }

  lemma UpsertCopies(db: Db, now: int, k: string)
    requires Ordered(db.rows) && k in KeysOf(db.rows) && Backed(db, k)
    ensures Copies(Upsert(db.rows, db.logical, k, now), Winner(db.rows, k))
  {
    hide ForKey;
    var winner := Winner(db.rows, k);
    if k in db.logical {
      var r :| r in db.rows && r.key == k && Copies(db.logical[k], r);
      if r.id == winner.id { SameIdSameRow(db.rows, r, winner); }
    }
  }

  lemma ConvergeAt(db: Db, keys: set<string>, now: int, k: string)
    requires Ordered(db.rows)
    requires k !in keys ==> AgreesAt(db, k)
    requires k in keys ==> Backed(db, k) && (k in KeysOf(db.rows) || k !in db.search)
    ensures AgreesAt(Converge(db, keys, now), k)
  {
    ConvergedAt(db, keys, now, k);
    if k in keys && k in KeysOf(db.rows) { UpsertCopies(db, now, k); }
    hide Converge, Upsert, Winner, DocOf, Copies;
  }

  lemma IngestKeepsInv(w: World, db: Db, source: Source, body: string, items: seq<Item>, now: int)
    requires Inv(w, db)
    ensures Inv(w, IngestStep(w, db, source, body, items, now).0)
  {
    var stored := db.(payloads := StorePayload(w, db.payloads, body, now));
    assert WellFormed(w, stored);
    assert forall k :: AgreesAt(db, k) ==> AgreesAt(stored, k);
    if Touched(items) == {} || HasId(db.sources, source.id) {
      var payload := w.sha(body);
      var recorded := stored.(rows := RecordAll(w, db.rows, source, payload, items, now));
      RecordAllKeeps(w, stored, source, payload, items, now);
      forall k ensures AgreesAt(Converge(recorded, Touched(items), now), k) {
        assert AgreesAt(db, k);
        if k in Touched(items) {
          IngestBacks(w, db, recorded, k);
          RecordAllCovers(w, db.rows, source, payload, items, now, k);
        } else {
          RecordAllLocal(w, db.rows, source, payload, items, now, k);
          ForKeyDecides(recorded.rows, db.rows, k);
        }
        ConvergeAt(recorded, Touched(items), now, k);
      }
      assert WellFormed(w, Converge(recorded, Touched(items), now));
    }
  }

  lemma IngestBacks(w: World, db: Db, recorded: Db, k: string)
    requires AgreesAt(db, k) && db.rows <= recorded.rows && recorded.logical == db.logical
    ensures Backed(recorded, k)
  {
    if k in db.logical {
      var r := Winner(db.rows, k);
      assert r in recorded.rows && Copies(db.logical[k], r);
    }
  }

  lemma {:induction false} RecordAllCovers(w: World, rows: seq<Row>, source: Source, payload: seq<byte>, items: seq<Item>, now: int, k: string)
    requires k in Touched(items)
    ensures k in KeysOf(RecordAll(w, rows, source, payload, items, now))
  {
    var n := |items| - 1;
    var before := RecordAll(w, rows, source, payload, items[..n], now);
    var after := RecordAll(w, rows, source, payload, items, now);
    assert before <= after;
    if ItemKey(items[n]) == k {
      assert exists r <- after :: r.key == k by {
        if !Recorded(w, before, source.id, items[n]) {
          assert after[|before|] == NewRow(w, before, source, payload, items[n], now);
        }
      }
    } else {
      assert k in Touched(items[..n]);
      RecordAllCovers(w, rows, source, payload, items[..n], now, k);
      assert KeysOf(before) <= KeysOf(after);
    }
  }

  // ---- removing a source ----

  lemma {:induction false} ExceptOrdered(rows: seq<Row>, source: nat)
    requires Ordered(rows)
    ensures Ordered(Except(rows, source))
  {
    if rows != [] {
      var n := |rows| - 1;
      ExceptOrdered(rows[..n], source);
      OrderedAppend(Except(rows[..n], source), rows[n]);
    }
  }

  lemma {:induction false} DropOrdered(sources: seq<Source>, id: nat)
    requires OrderedSources(sources)
    ensures OrderedSources(Drop(sources, id))
  {
    if sources != [] {
      DropOrdered(sources[..|sources| - 1], id);
    }
  }

  lemma CutKeeps(w: World, db: Db, id: nat, logical: map<string, Logical>)
    requires WellFormed(w, db)
    ensures WellFormed(w, db.(sources := Drop(db.sources, id), rows := Except(db.rows, id), logical := logical))
  {
    ExceptOrdered(db.rows, id);
    DropOrdered(db.sources, id);
    forall r | r in Except(db.rows, id) ensures HasId(Drop(db.sources, id), r.source) {
      assert GoodRow(w, db, r);
      var s :| s in db.sources && s.id == r.source;
      assert s in Drop(db.sources, id);
    }
  }

  lemma RemoveKeepsInv(w: World, db: Db, id: nat, now: int)
    requires Inv(w, db)
    ensures Inv(w, RemoveStep(db, id, now).0)
  {
    if HasId(db.sources, id) && !SourceById(db.sources, id).isLocal {
      var orphaned := WinningOn(db, id);
      var cut := db.(sources := Drop(db.sources, id), rows := Except(db.rows, id),
                     logical := db.logical - orphaned);
      CutKeeps(w, db, id, cut.logical);
      var after := RemoveStep(db, id, now).0;
      forall k ensures AgreesAt(after, k) {
        assert AgreesAt(db, k);
        if k in orphaned {
          assert k !in cut.logical;
        } else {
          NotOrphaned(db, id, k);
        }
      }
      assert WellFormed(w, after);
    }
  }

  // An item the source was not winning keeps its winner, and its cache entry stays right.
  lemma NotOrphaned(db: Db, id: nat, k: string)
    requires Ordered(db.rows) && AgreesAt(db, k) && k !in WinningOn(db, id)
    ensures k in KeysOf(Except(db.rows, id)) <==> k in KeysOf(db.rows)
    ensures k in KeysOf(db.rows) ==> Winner(Except(db.rows, id), k) == Winner(db.rows, k)
  {
    if k in KeysOf(db.rows) {
      var winner := Winner(db.rows, k);
      assert winner.source != id;
      WinnerIsWinner(db.rows, k);
      ExceptOrdered(db.rows, id);
      WinnerUnique(Except(db.rows, id), k, winner);
    }
  }

  // ---- runs ----

  datatype Op =
    | Deliver(source: Source, body: string, items: seq<Item>, now: int)
    | AddSource(url: string)
    | EnsureLocal(url: string)
    | EnsureFederated(url: string)
    | Remove(id: nat, now: int)
    | Purge(now: int)

  function Step(w: World, db: Db, op: Op): Db {
    match op
    case Deliver(source, body, items, now) => IngestStep(w, db, source, body, items, now).0
    case AddSource(url) => AddSourceStep(db, url).0
    case EnsureLocal(url) => EnsureLocalStep(db, url).0
    case EnsureFederated(url) => EnsureFederatedStep(db, url).0
    case Remove(id, now) => RemoveStep(db, id, now).0
    case Purge(now) => PurgeStep(db, now)
  }

  function Run(w: World, db: Db, ops: seq<Op>): Db {
    if ops == [] then db
    else Step(w, Run(w, db, ops[..|ops| - 1]), ops[|ops| - 1])
  }

  lemma AddSourceKeepsInv(w: World, db: Db, url: string)
    requires Inv(w, db)
    ensures Inv(w, AddSourceStep(db, url).0)
  {
    var after := AddSourceStep(db, url).0;
    forall r | r in db.rows ensures GoodRow(w, after, r) {
      assert GoodRow(w, db, r);
    }
    assert forall k :: AgreesAt(db, k) ==> AgreesAt(after, k);
  }

  lemma EnsureKeepsInv(w: World, db: Db, url: string, isLocal: bool)
    requires Inv(w, db)
    ensures Inv(w, EnsureStep(db, url, isLocal).0)
  {
    AddSourceKeepsInv(w, db, url);
    var added := AddSourceStep(db, url).0;
    var after := EnsureStep(db, url, isLocal).0;
    forall r | r in after.rows ensures GoodRow(w, after, r) {
      assert GoodRow(w, added, r);
      var i :| 0 <= i < |added.sources| && added.sources[i].id == r.source;
      assert after.sources[i].id == r.source && after.sources[i] in after.sources;
    }
    assert forall k :: AgreesAt(added, k) ==> AgreesAt(after, k);
  }

  // No payload an observation still points at is ever purged.
  lemma PurgeKeepsInv(w: World, db: Db, now: int)
    requires Inv(w, db)
    ensures Inv(w, PurgeStep(db, now))
  {
    var after := PurgeStep(db, now);
    assert forall k :: AgreesAt(db, k) ==> AgreesAt(after, k);
    assert forall r <- db.rows :: GoodRow(w, db, r) ==> GoodRow(w, after, r);
  }

  lemma StepKeepsInv(w: World, db: Db, op: Op)
    requires Inv(w, db)
    ensures Inv(w, Step(w, db, op))
  {
    match op
    case Deliver(source, body, items, now) => IngestKeepsInv(w, db, source, body, items, now);
    case AddSource(url) => AddSourceKeepsInv(w, db, url);
    case EnsureLocal(url) => EnsureKeepsInv(w, db, url, true);
    case EnsureFederated(url) => EnsureKeepsInv(w, db, url, false);
    case Remove(id, now) => RemoveKeepsInv(w, db, id, now);
    case Purge(now) => PurgeKeepsInv(w, db, now);
  }

  // The headline: whatever is ingested, removed or purged, in any order, the caches always
  // hold what a full recomputation would.
  lemma {:induction false} EveryRunAgrees(w: World, ops: seq<Op>)
    ensures Inv(w, Run(w, EMPTY, ops))
  {
    if ops == [] {
      assert forall k :: AgreesAt(EMPTY, k);
    } else {
      EveryRunAgrees(w, ops[..|ops| - 1]);
      StepKeepsInv(w, Run(w, EMPTY, ops[..|ops| - 1]), ops[|ops| - 1]);
    }
  }

  // The same, said about one key in terms of the rows alone.
  lemma CachedWinner(w: World, ops: seq<Op>, k: string)
    ensures var db := Run(w, EMPTY, ops);
            && (k in db.logical <==> exists r <- db.rows :: r.key == k)
            && (k in db.search <==> exists r <- db.rows :: r.key == k)
            && (k in db.logical ==> exists r <- db.rows ::
                  IsWinner(db.rows, k, r) && Copies(db.logical[k], r) && db.search[k] == DocOf(r))
  {
    EveryRunAgrees(w, ops);
    var db := Run(w, EMPTY, ops);
    assert AgreesAt(db, k);
    if k in db.logical {
      WinnerIsWinner(db.rows, k);
    }
  }
}
