// Removing a source leaves what the store would hold had it never ingested from it.
module IngestRemoval {
  import opened Common
  import opened Feed
  import opened Ingest
  import opened IngestView
  import opened IngestRuns
  import C = Convergence

  // A row without the number the table happened to give it.
  function Erase(r: Row): Row {
    r.(id := 0)
  }

  function EraseAll(rows: seq<Row>): (r: seq<Row>)
    ensures |r| == |rows| && forall i :: 0 <= i < |rows| ==> r[i] == Erase(rows[i])
  {
    seq(|rows|, i requires 0 <= i < |rows| => Erase(rows[i]))
  }

  // The run without anything delivered from the source.
  function Without(ops: seq<Op>, id: nat): seq<Op> {
    if ops == [] then []
    else
      var n := |ops| - 1;
      if ops[n].Deliver? && ops[n].source.id == id then Without(ops[..n], id)
      else Without(ops[..n], id) + [ops[n]]
  }

  // y is x as if the source had never delivered anything.
  ghost predicate Spared(x: Db, y: Db, id: nat) {
    y.sources == x.sources && EraseAll(y.rows) == EraseAll(Except(x.rows, id))
  }

  lemma {:induction false} ExceptAppend(rows: seq<Row>, r: Row, id: nat)
    ensures Except(rows + [r], id) == if r.source == id then Except(rows, id) else Except(rows, id) + [r]
  {
    assert (rows + [r])[..|rows|] == rows;
  }

  lemma {:induction false} ExceptCommutes(rows: seq<Row>, a: nat, b: nat)
    ensures Except(Except(rows, a), b) == Except(Except(rows, b), a)
  {
    if rows != [] {
      var n := |rows| - 1;
      ExceptCommutes(rows[..n], a, b);
      ExceptAppend(Except(rows[..n], a), rows[n], b);
      ExceptAppend(Except(rows[..n], b), rows[n], a);
    }
  }

  lemma EraseAppend(rows: seq<Row>, r: Row)
    ensures EraseAll(rows + [r]) == EraseAll(rows) + [Erase(r)]
  {}

  lemma {:induction false} ExceptErased(rows: seq<Row>, rows': seq<Row>, id: nat)
    requires EraseAll(rows) == EraseAll(rows')
    ensures EraseAll(Except(rows, id)) == EraseAll(Except(rows', id))
  {
    assert |EraseAll(rows)| == |EraseAll(rows')|;
    if rows != [] {
      var n := |rows| - 1;
      assert EraseAll(rows[..n]) == EraseAll(rows)[..n] == EraseAll(rows')[..n] == EraseAll(rows'[..n]);
      assert EraseAll(rows)[n] == EraseAll(rows')[n];
      ExceptErased(rows[..n], rows'[..n], id);
      EraseAppend(Except(rows[..n], id), rows[n]);
      EraseAppend(Except(rows'[..n], id), rows'[n]);
    }
  }

  lemma RecordedErased(w: World, rows: seq<Row>, rows': seq<Row>, source: nat, item: Item)
    requires EraseAll(rows) == EraseAll(rows') && Recorded(w, rows, source, item)
    ensures Recorded(w, rows', source, item)
  {
    assert |EraseAll(rows)| == |EraseAll(rows')|;
    var i :| 0 <= i < |rows| && rows[i].source == source && rows[i].key == ItemKey(item)
      && rows[i].hash == ContentHash(w, item);
    assert Erase(rows[i]) == EraseAll(rows)[i] == EraseAll(rows')[i] == Erase(rows'[i]);
    assert rows'[i] in rows';
  }

  lemma RecordSpared(w: World, rows: seq<Row>, rows': seq<Row>, id: nat, source: Source, payload: seq<byte>, item: Item, now: int)
    requires EraseAll(rows') == EraseAll(Except(rows, id)) && source.id != id
    ensures EraseAll(Record(w, rows', source, payload, item, now))
         == EraseAll(Except(Record(w, rows, source, payload, item, now), id))
  {
    if Recorded(w, rows', source.id, item) {
      RecordedErased(w, rows', Except(rows, id), source.id, item);
      assert Recorded(w, rows, source.id, item);
    } else if Recorded(w, rows, source.id, item) {
      var r :| r in rows && r.source == source.id && r.key == ItemKey(item) && r.hash == ContentHash(w, item);
      assert r in Except(rows, id);
      RecordedErased(w, Except(rows, id), rows', source.id, item);
    } else {
      var r, r' := NewRow(w, rows, source, payload, item, now), NewRow(w, rows', source, payload, item, now);
      ExceptAppend(rows, r, id);
      EraseAppend(Except(rows, id), r);
      EraseAppend(rows', r');
    }
  }

  lemma {:induction false} RecordAllSpared(w: World, rows: seq<Row>, rows': seq<Row>, id: nat, source: Source, payload: seq<byte>, items: seq<Item>, now: int)
    requires EraseAll(rows') == EraseAll(Except(rows, id)) && source.id != id
    ensures EraseAll(RecordAll(w, rows', source, payload, items, now))
         == EraseAll(Except(RecordAll(w, rows, source, payload, items, now), id))
  {
    if items != [] {
      var n := |items| - 1;
      RecordAllSpared(w, rows, rows', id, source, payload, items[..n], now);
      if ItemKey(items[n]) != "" {
        RecordSpared(w, RecordAll(w, rows, source, payload, items[..n], now),
                     RecordAll(w, rows', source, payload, items[..n], now), id, source, payload, items[n], now);
      }
    }
  }

  lemma {:induction false} RecordAllOwn(w: World, rows: seq<Row>, source: Source, payload: seq<byte>, items: seq<Item>, now: int)
    ensures Except(RecordAll(w, rows, source, payload, items, now), source.id) == Except(rows, source.id)
  {
    if items != [] {
      var n := |items| - 1;
      RecordAllOwn(w, rows, source, payload, items[..n], now);
      var before := RecordAll(w, rows, source, payload, items[..n], now);
      ExceptAppend(before, NewRow(w, before, source, payload, items[n], now), source.id);
    }
  }

  lemma IngestRows(w: World, db: Db, source: Source, body: string, items: seq<Item>, now: int)
    ensures var after := IngestStep(w, db, source, body, items, now).0;
            && after.sources == db.sources
            && after.rows == if Touched(items) != {} && !HasId(db.sources, source.id) then db.rows
                             else RecordAll(w, db.rows, source, w.sha(body), items, now)
  {}

  lemma RemoveRows(db: Db, id: nat, now: int)
    ensures var after := RemoveStep(db, id, now).0;
            if HasId(db.sources, id) && !SourceById(db.sources, id).isLocal
            then after.sources == Drop(db.sources, id) && after.rows == Except(db.rows, id)
            else after == db
  {}

  lemma DeliverSpared(w: World, x: Db, y: Db, id: nat, source: Source, body: string, items: seq<Item>, now: int)
    requires Spared(x, y, id)
    ensures Spared(IngestStep(w, x, source, body, items, now).0,
                   if source.id == id then y else IngestStep(w, y, source, body, items, now).0, id)
  {
    IngestRows(w, x, source, body, items, now);
    IngestRows(w, y, source, body, items, now);
    if source.id == id {
      RecordAllOwn(w, x.rows, source, w.sha(body), items, now);
    } else {
      RecordAllSpared(w, x.rows, y.rows, id, source, w.sha(body), items, now);
    }
  }

  lemma RemoveSpared(x: Db, y: Db, id: nat, gone: nat, now: int)
    requires Spared(x, y, id) && gone != id
    ensures Spared(RemoveStep(x, gone, now).0, RemoveStep(y, gone, now).0, id)
  {
    RemoveRows(x, gone, now);
    RemoveRows(y, gone, now);
    ExceptCommutes(x.rows, gone, id);
    ExceptErased(y.rows, Except(x.rows, id), gone);
  }

  lemma OtherSpared(w: World, x: Db, y: Db, id: nat, op: Op)
    requires Spared(x, y, id) && !op.Deliver? && !(op.Remove? && op.id == id)
    ensures Spared(Step(w, x, op), Step(w, y, op), id)
  {
    hide RemoveStep;
    if op.Remove? { RemoveSpared(x, y, id, op.id, op.now); }
  }

  lemma {:induction false} RunSpared(w: World, db: Db, ops: seq<Op>, id: nat)
    requires forall r <- db.rows :: r.source != id
    requires forall op <- ops :: op.Remove? ==> op.id != id
    ensures Spared(Run(w, db, ops), Run(w, db, Without(ops, id)), id)
  {
    if ops == [] {
      ExceptNothing(db.rows, id);
    } else {
      var n := |ops| - 1;
      RunSpared(w, db, ops[..n], id);
      var kept := Without(ops[..n], id);
      match ops[n] {
        case Deliver(source, body, items, now) =>
          DeliverSpared(w, Run(w, db, ops[..n]), Run(w, db, kept), id, source, body, items, now);
        case _ => OtherSpared(w, Run(w, db, ops[..n]), Run(w, db, kept), id, ops[n]);
      }
      assert (kept + [ops[n]])[..|kept|] == kept;
    }
  }

  lemma {:induction false} ExceptNothing(rows: seq<Row>, id: nat)
    requires forall r <- rows :: r.source != id
    ensures Except(rows, id) == rows
  {
    if rows != [] {
      var n := |rows| - 1;
      assert rows[n] in rows;
      ExceptNothing(rows[..n], id);
    }
  }

  // ---- equal rows, equal views ----

  lemma {:induction false} ForKeyErased(rows: seq<Row>, rows': seq<Row>, k: string)
    requires EraseAll(rows) == EraseAll(rows')
    ensures EraseAll(ForKey(rows, k)) == EraseAll(ForKey(rows', k))
  {
    assert |EraseAll(rows)| == |EraseAll(rows')|;
    if rows != [] {
      var n := |rows| - 1;
      assert EraseAll(rows[..n]) == EraseAll(rows)[..n] == EraseAll(rows')[..n] == EraseAll(rows'[..n]);
      assert EraseAll(rows)[n] == EraseAll(rows')[n];
      ForKeyErased(rows[..n], rows'[..n], k);
      EraseAppend(ForKey(rows[..n], k), rows[n]);
      EraseAppend(ForKey(rows'[..n], k), rows'[n]);
    }
  }

  lemma BestIgnoresIds(cs: seq<C.Candidate>, ds: seq<C.Candidate>)
    requires cs != [] && |cs| == |ds|
    requires forall i :: 0 <= i < |cs| ==> C.RankOf(cs[i]) == C.RankOf(ds[i])
    ensures C.BestAt(cs) == C.BestAt(ds)
  {
    var at := C.BestAt(cs);
    forall i, j | 0 <= i < |cs| && 0 <= j < |cs|
      ensures C.Beats(cs[i], cs[j]) == C.Beats(ds[i], ds[j])
    {
      C.SameRankSameFight(cs[i], ds[i], cs[j], ds[j]);
    }
    assert C.FirstMaximal(ds, at);
    C.FirstMaximalUnique(ds, at, C.BestAt(ds));
  }

  lemma BestErased(a: seq<Row>, b: seq<Row>)
    requires a != [] && EraseAll(a) == EraseAll(b)
    ensures |a| == |b|
    ensures Erase(a[C.BestAt(Candidates(a))]) == Erase(b[C.BestAt(Candidates(b))])
  {
    assert |EraseAll(a)| == |EraseAll(b)|;
    forall i | 0 <= i < |a|
      ensures Erase(a[i]) == Erase(b[i]) && C.RankOf(CandidateOf(a[i])) == C.RankOf(CandidateOf(b[i]))
    {
      assert EraseAll(a)[i] == EraseAll(b)[i];
      ErasedRank(a[i], b[i]);
    }
    BestIgnoresIds(Candidates(a), Candidates(b));
  }

  lemma ErasedRank(a: Row, b: Row)
    requires Erase(a) == Erase(b)
    ensures C.RankOf(CandidateOf(a)) == C.RankOf(CandidateOf(b)) && a.key == b.key
  {
    assert Erase(a).item == Erase(b).item && Erase(a).key == Erase(b).key;
  }

  lemma WinnerErased(rows: seq<Row>, rows': seq<Row>, k: string)
    requires EraseAll(rows) == EraseAll(rows') && k in KeysOf(rows)
    ensures k in KeysOf(rows') && Erase(Winner(rows, k)) == Erase(Winner(rows', k))
  {
    ForKeyErased(rows, rows', k);
    var a, b := ForKey(rows, k), ForKey(rows', k);
    assert Winner(rows, k) in a;
    BestErased(a, b);
    assert b[0] in b;
  }

  // The same items, showing the same version, with the same cached columns and search text.
  // (The reason and the time of convergence are history, not view.)
  ghost predicate SameView(a: Db, b: Db, k: string) {
    && (k in a.logical <==> k in b.logical)
    && (k in a.search <==> k in b.search)
    && (k in a.logical ==>
          && k in KeysOf(a.rows) && k in KeysOf(b.rows)
          && Erase(Winner(a.rows, k)) == Erase(Winner(b.rows, k))
          && a.logical[k].published == b.logical[k].published
          && a.logical[k].updated == b.logical[k].updated
          && a.logical[k].inReplyTo == b.logical[k].inReplyTo)
    && (k in a.search ==> a.search[k] == b.search[k])
  }

  lemma SameRowsSameView(a: Db, b: Db, k: string)
    requires AgreesAt(a, k) && AgreesAt(b, k) && EraseAll(a.rows) == EraseAll(b.rows)
    ensures SameView(a, b, k)
  {
    if k in KeysOf(a.rows) {
      WinnerErased(a.rows, b.rows, k);
      DocErased(Winner(a.rows, k), Winner(b.rows, k));
    } else if k in KeysOf(b.rows) {
      WinnerErased(b.rows, a.rows, k);
    }
  }

  lemma DocErased(a: Row, b: Row)
    requires Erase(a) == Erase(b)
    ensures a.item == b.item && DocOf(a) == DocOf(b)
  {
    assert Erase(a).item == Erase(b).item;
  }

  // Follow a source through any history, then remove it: every key looks as it would had that
  // history never delivered anything from the source.
  lemma RemovalForgets(w: World, db: Db, ops: seq<Op>, id: nat, now: int, k: string)
    requires Inv(w, db) && forall r <- db.rows :: r.source != id
    requires forall op <- ops :: op.Remove? ==> op.id != id
    requires RemoveStep(Run(w, db, ops), id, now).1.Ok?
    ensures SameView(RemoveStep(Run(w, db, ops), id, now).0, Run(w, db, Without(ops, id)), k)
  {
    var x, y := Run(w, db, ops), Run(w, db, Without(ops, id));
    RunKeepsInv(w, db, ops);
    RunKeepsInv(w, db, Without(ops, id));
    RemoveKeepsInv(w, x, id, now);
    RunSpared(w, db, ops, id);
    var after := RemoveStep(x, id, now).0;
    assert after.rows == Except(x.rows, id);
    assert AgreesAt(after, k) && AgreesAt(y, k);
    SameRowsSameView(after, y, k);
  }
}
