// The ingest store itself: tables updated statement by statement, each operation proved
// against the step it is meant to take.
module IngestStore {
  import opened Common
  import opened Feed
  import opened Ingest
  import opened IngestView
  import I = Ingest
  import C = Convergence
  import Text

  lemma EntriesSplit(rows: seq<Row>, logical: map<string, Logical>, a: set<string>, b: set<string>, now: int)
    requires a <= KeysOf(rows) && b <= KeysOf(rows) && a !! b
    ensures Entries(rows, logical, a, now) + Entries(rows, logical + Entries(rows, logical, a, now), b, now)
         == Entries(rows, logical, a + b, now)
    ensures Docs(rows, a) + Docs(rows, b) == Docs(rows, a + b)
  {
    hide Winner, ReasonFor, DocOf;
  }

  lemma ConvergeDead(db: Db, keys: set<string>, now: int)
    requires keys !! KeysOf(db.rows)
    ensures I.Converge(db, keys, now) == db && Moved(db, keys) == {}
  {
    hide Winner, ReasonFor, DocOf;
    assert keys * KeysOf(db.rows) == {};
    assert db.logical + Entries(db.rows, db.logical, {}, now) == db.logical;
    assert db.search + Docs(db.rows, {}) == db.search;
  }

  // Reconverging one live key rewrites its two entries and nothing else.
  lemma ConvergeSingle(db: Db, key: string, now: int)
    requires key in KeysOf(db.rows)
    ensures I.Converge(db, {key}, now) == db.(
      logical := db.logical[key := Upsert(db.rows, db.logical, key, now)],
      search := db.search[key := DocOf(Winner(db.rows, key))])
  {
    hide Winner, ReasonFor, DocOf;
    assert {key} * KeysOf(db.rows) == {key};
    assert db.logical + Entries(db.rows, db.logical, {key}, now)
        == db.logical[key := Upsert(db.rows, db.logical, key, now)];
    assert db.search + Docs(db.rows, {key}) == db.search[key := DocOf(Winner(db.rows, key))];
  }

  lemma MergeAssociates<K, V>(a: map<K, V>, b: map<K, V>, c: map<K, V>)
    ensures a + b + c == a + (b + c)
  {}

  lemma ConvergeOneMore(db: Db, done: set<string>, key: string, now: int)
    requires key !in done
    ensures I.Converge(I.Converge(db, done, now), {key}, now) == I.Converge(db, done + {key}, now)
  {
    hide Winner, ReasonFor, DocOf;
    var keys := KeysOf(db.rows);
    var a, b := done * keys, {key} * keys;
    assert (done + {key}) * keys == a + b;
    EntriesSplit(db.rows, db.logical, a, b, now);
    MergeAssociates(db.logical, Entries(db.rows, db.logical, a, now),
                    Entries(db.rows, db.logical + Entries(db.rows, db.logical, a, now), b, now));
    MergeAssociates(db.search, Docs(db.rows, a), Docs(db.rows, b));
  }

  lemma MovedUntouched(db: Db, done: set<string>, key: string, now: int)
    requires key !in done
    ensures Moved(I.Converge(db, done, now), {key}) == Moved(db, {key})
  {
    hide Winner, ReasonFor, DocOf;
  }

  lemma MovedOneMore(db: Db, done: set<string>, key: string)
    requires key !in done
    ensures Moved(db, done + {key}) == Moved(db, done) + Moved(db, {key})
    ensures Moved(db, done) !! Moved(db, {key}) && Moved(db, {key}) <= {key}
  {}

  // A cut database after reconverging and forgetting some of the orphaned keys.
  function Settled(cut: Db, done: set<string>, now: int): Db {
    var again := I.Converge(cut, done, now);
    again.(search := again.search - (done - again.logical.Keys))
  }

  lemma SettledNone(cut: Db, now: int)
    ensures Settled(cut, {}, now) == cut
  {
    ConvergeDead(cut, {}, now);
    assert Settled(cut, {}, now).search == cut.search;
  }

  lemma SettleOneMore(cut: Db, done: set<string>, key: string, now: int)
    requires key !in done && key !in cut.logical && done !! cut.logical.Keys
    ensures Settled(Settled(cut, done, now), {key}, now) == Settled(cut, done + {key}, now)
  {
    var once, twice := I.Converge(cut, done, now), I.Converge(cut, done + {key}, now);
    ConvergeOneMore(cut, done, key, now);
    ConvergedKeys(cut, done, now);
    ConvergedKeys(cut, done + {key}, now);
    ConvergeSearchOnly(once, once.search - (done - once.logical.Keys), {key}, now);
    DeadKeys(cut.logical.Keys, KeysOf(cut.rows), done, key);
    var more := Docs(cut.rows, {key} * KeysOf(cut.rows));
    hide I.Converge;
    hide Entries, Docs, KeysOf;
    CutMergeCut(once.search, done - once.logical.Keys, more, {key} - twice.logical.Keys);
  }

  lemma DeadKeys(had: set<string>, live: set<string>, done: set<string>, key: string)
    requires key !in done && key !in had && done !! had
    ensures var once, twice := had + done * live, had + (done + {key}) * live;
            && (done - once) !! {key} * live
            && (done + {key}) - twice == (done - once) + ({key} - twice)
  {}

  lemma CutMergeCut<K, V>(m: map<K, V>, gone: set<K>, more: map<K, V>, alsoGone: set<K>)
    requires gone !! more.Keys
    ensures ((m - gone) + more) - alsoGone == (m + more) - (gone + alsoGone)
  {}

  lemma ConvergedKeys(db: Db, keys: set<string>, now: int)
    ensures I.Converge(db, keys, now).logical.Keys == db.logical.Keys + keys * KeysOf(db.rows)
    ensures I.Converge(db, keys, now).rows == db.rows
  {
    hide Winner, ReasonFor, DocOf;
  }

  // Converging does not look at the search table, only adds to it.
  lemma ConvergeSearchOnly(db: Db, search: map<string, Doc>, keys: set<string>, now: int)
    ensures I.Converge(db.(search := search), keys, now)
         == I.Converge(db, keys, now).(search := search + Docs(db.rows, keys * KeysOf(db.rows)))
    ensures I.Converge(db, keys, now).search == db.search + Docs(db.rows, keys * KeysOf(db.rows))
    ensures Docs(db.rows, keys * KeysOf(db.rows)).Keys == keys * KeysOf(db.rows)
  {
    hide Winner, ReasonFor, DocOf;
  }

  lemma ResolvedWinner(rows: seq<Row>, key: string)
    requires key in KeysOf(rows)
    ensures ForKey(rows, key) != []
    ensures var resolved := C.Resolved(Candidates(ForKey(rows, key)));
            && resolved.Ok? && resolved.value.winner.id == Winner(rows, key).id
            && resolved.value.reason == ReasonFor(rows, key)
  {
    assert Winner(rows, key) in ForKey(rows, key);
    C.ResolveIsMaximal(Candidates(ForKey(rows, key)));
  }

  lemma NoRowsForKey(rows: seq<Row>, key: string)
    ensures ForKey(rows, key) == [] <==> key !in KeysOf(rows)
  {
    if key in KeysOf(rows) { ResolvedWinner(rows, key); }
    if ForKey(rows, key) != [] {
      var r := ForKey(rows, key)[0];
      assert r in rows && r.key == key;
    }
  }

  lemma MovedSingle(db: Db, key: string)
    requires key in KeysOf(db.rows)
    ensures Moved(db, {key}) != {} <==> key !in db.logical || db.logical[key].winner != Winner(db.rows, key).id
  {
    hide Winner;
    assert key in Moved(db, {key}) || Moved(db, {key}) == {};
  }

  lemma IngestOne(w: World, db: Db, source: Source, body: string, item: Item, now: int)
    ensures var stored := db.(payloads := I.StorePayload(w, db.payloads, body, now));
            IngestStep(w, db, source, body, [item], now).0 ==
            if ItemKey(item) == "" || !HasId(db.sources, source.id) then stored
            else I.Converge(stored.(rows := Record(w, db.rows, source, w.sha(body), item, now)), {ItemKey(item)}, now)
  {
    hide I.Converge;
    hide Record, NewRow, Recorded;
    assert [item][..0] == [];
    assert RecordAll(w, db.rows, source, w.sha(body), [item], now)
        == if ItemKey(item) == "" then db.rows else Record(w, db.rows, source, w.sha(body), item, now);
    assert Touched([item]) == if ItemKey(item) == "" then {} else {ItemKey(item)} by {
      TouchedSnoc([item], 0);
      assert [item][..1] == [item];
    }
    ConvergeDead(db.(payloads := I.StorePayload(w, db.payloads, body, now)), {}, now);
  }

  lemma {:induction false} RecordAllOrdered(w: World, db: Db, source: Source, payload: seq<byte>, items: seq<Item>, now: int)
    requires Ordered(db.rows)
    ensures Ordered(RecordAll(w, db.rows, source, payload, items, now))
  {
    if items != [] {
      var n := |items| - 1;
      RecordAllOrdered(w, db, source, payload, items[..n], now);
      RecordOrdered(w, RecordAll(w, db.rows, source, payload, items[..n], now), source, payload, items[n], now);
    }
  }

  lemma RecordOrdered(w: World, rows: seq<Row>, source: Source, payload: seq<byte>, item: Item, now: int)
    requires Ordered(rows)
    ensures Ordered(Record(w, rows, source, payload, item, now))
  {
    hide Recorded;
  }

  lemma ForgetSettles(db: Db, key: string, now: int)
    ensures var after := I.Converge(db, {key}, now);
            Settled(db, {key}, now) ==
            after.(search := if key in after.logical then after.search else after.search - {key})
  {
    hide I.Converge;
    var after := I.Converge(db, {key}, now);
    assert {key} - after.logical.Keys == if key in after.logical then {} else {key};
    assert after.search - {} == after.search;
  }

  function Expired(db: Db, now: int): set<seq<byte>> {
    set p <- db.payloads | db.payloads[p].keepUntil < now && !exists o <- db.rows :: o.payload == p
  }

  lemma PurgeDropsExpired(db: Db, now: int)
    ensures PurgeStep(db, now) == db.(payloads := db.payloads - Expired(db, now))
  {
    assert PurgeStep(db, now).payloads == db.payloads - Expired(db, now);
  }

  lemma InvBasics(w: World, db: Db)
    requires Inv(w, db)
    ensures Ordered(db.rows) && forall r <- db.rows :: HasId(db.sources, r.source)
  {
    forall r | r in db.rows ensures HasId(db.sources, r.source) {
      assert GoodRow(w, db, r);
    }
  }

  // The hasher is fed field by field; it ends up having read exactly the preimage.
  method HashContent(w: World, item: Item) returns (sum: seq<byte>)
    ensures sum == ContentHash(w, item)
  {
    var fed := "";
    var parts := TextParts(item);
    for i := 0 to |parts|
      invariant fed == Terminated(parts[..i])
    {
      TerminatedSnoc(parts[..i], parts[i]);
      assert parts[..i + 1] == parts[..i] + [parts[i]];
      fed := fed + parts[i] + "\0";
    }
    assert parts[..|parts|] == parts && parts + EnclosureParts([]) == parts;
    var list := item.enclosures;
    assert list[..0] == [];
    for i := 0 to |list|
      invariant fed == Terminated(parts + EnclosureParts(list[..i]))
    {
      var e := list[i];
      var before := parts + EnclosureParts(list[..i]);
      EnclosurePartsSnoc(list[..i], e);
      assert list[..i + 1] == list[..i] + [e];
      TerminatedSnoc(before, e.url);
      TerminatedSnoc(before + [e.url], e.kind);
      TerminatedSnoc(before + [e.url] + [e.kind], Text.Itoa(e.length));
      assert parts + EnclosureParts(list[..i + 1]) == before + [e.url] + [e.kind] + [Text.Itoa(e.length)];
      fed := fed + e.url + "\0";
      fed := fed + e.kind + "\0";
      fed := fed + Text.Itoa(e.length) + "\0";
    }
    assert list[..|list|] == list;
    sum := w.sha(fed + w.stamp(EffectiveUpdated(item)));
  }

  lemma {:induction false} TerminatedSnoc(parts: seq<string>, p: string)
    ensures Terminated(parts + [p]) == Terminated(parts) + p + "\0"
  {
    if parts == [] {
      assert parts + [p] == [p];
    } else {
      assert (parts + [p])[1..] == parts[1..] + [p];
      TerminatedSnoc(parts[1..], p);
    }
  }

  lemma {:induction false} EnclosurePartsSnoc(list: seq<Enclosure>, e: Enclosure)
    ensures EnclosureParts(list + [e]) == EnclosureParts(list) + [e.url, e.kind, Text.Itoa(e.length)]
  {
    if list == [] {
      assert list + [e] == [e];
    } else {
      assert (list + [e])[1..] == list[1..] + [e];
      EnclosurePartsSnoc(list[1..], e);
    }
  }

  class Store {
    const world: World
    var sources: seq<Source>
    var payloads: map<seq<byte>, Payload>
    var rows: seq<Row>
    var logical: map<string, Logical>
    var search: map<string, Doc>

    ghost function State(): Db
      reads this
    {
      Db(sources, payloads, rows, logical, search)
    }

    ghost predicate Valid()
      reads this
    {
      Inv(world, State())
    }

    constructor (world: World)
      ensures Valid() && this.world == world && State() == EMPTY
    {
      this.world := world;
      sources, payloads, rows, logical, search := [], map[], [], map[], map[];
      new;
      assert Run(world, EMPTY, []) == EMPTY;
      EveryRunAgrees(world, []);
    }

    method AddSource(url: string) returns (source: Source)
      requires Valid()
      modifies this`sources
      ensures Valid() && (State(), source) == AddSourceStep(old(State()), url)
    {
      AddSourceKeepsInv(world, State(), url);
      if HasURL(sources, url) {
        source := SourceByURL(sources, url);
      } else {
        source := Source(NextSourceId(sources), url, false);
        sources := sources + [source];
      }
    }

    method EnsureLocalSource(url: string) returns (source: Source)
      requires Valid()
      modifies this`sources
      ensures Valid() && (State(), source) == EnsureLocalStep(old(State()), url)
    {
      EnsureKeepsInv(world, State(), url, true);
      source := AddSource(url);
      sources := Mark(sources, source.id, true);
      source := source.(isLocal := true);
    }

    method EnsureFederatedSource(url: string) returns (source: Source)
      requires Valid()
      modifies this`sources
      ensures Valid() && (State(), source) == EnsureFederatedStep(old(State()), url)
    {
      EnsureKeepsInv(world, State(), url, false);
      source := AddSource(url);
      sources := Mark(sources, source.id, false);
      source := source.(isLocal := false);
    }

    method StorePayload(body: string, now: int) returns (sum: seq<byte>, stored: bool)
      modifies this`payloads
      ensures sum == world.sha(body) && stored == (sum !in old(payloads))
      ensures payloads == I.StorePayload(world, old(payloads), body, now)
    {
      sum := world.sha(body);
      stored := sum !in payloads;
      if stored {
        payloads := payloads[sum := Payload(body, now + CLEAN_RETENTION)];
      }
    }

    method RecordObservation(source: Source, payload: seq<byte>, key: string, item: Item, now: int)
      returns (inserted: Result<bool, Error>)
      requires key == ItemKey(item) && forall r <- rows :: HasId(sources, r.source)
      modifies this`rows
      ensures inserted.Ok? <==> HasId(sources, source.id)
      ensures inserted.Ok? ==>
                && rows == Record(world, old(rows), source, payload, item, now)
                && |rows| == |old(rows)| + (if inserted.value then 1 else 0)
      ensures inserted.Err? ==> rows == old(rows) && inserted.error == NoSource
    {
      var content := HashContent(world, item);
      if exists r <- rows :: r.source == source.id && r.key == key && r.hash == content {
        inserted := Ok(false);
      } else if !HasId(sources, source.id) {
        inserted := Err(NoSource);
      } else {
        rows := rows + [Row(NextId(rows), source.id, payload, key, now, item, FidelityOf(item),
                            ClaimedByAuthor(world, source.feedURL, item, key), content)];
        inserted := Ok(true);
      }
    }

    // Rebuilds the search entry from the row the cache names as winner.
    method Index(key: string, ghost winner: Row)
      requires key in logical && Ordered(rows)
      requires winner in rows && winner.id == logical[key].winner
      modifies this`search
      ensures search == old(search)[key := DocOf(winner)]
    {
      var o :| o in rows && o.id == logical[key].winner;
      SameIdSameRow(rows, o, winner);
      search := search - {key};
      search := search[key := DocOf(o)];
      assert search == old(search)[key := DocOf(o)];
    }

    // The candidate rows of a key, oldest first.
    method CandidatesFor(key: string) returns (candidates: seq<C.Candidate>)
      ensures candidates == Candidates(ForKey(rows, key))
    {
      var found := ForKey(rows, key);
      candidates := [];
      for i := 0 to |found|
        invariant candidates == Candidates(found)[..i]
      {
        candidates := candidates + [CandidateOf(found[i])];
      }
    }

    method Converge(key: string, now: int) returns (changed: bool)
      requires Ordered(rows)
      modifies this`logical, this`search
      ensures State() == I.Converge(old(State()), {key}, now)
      ensures changed <==> Moved(old(State()), {key}) != {}
    {
      hide Winner, ReasonFor, ForKey, Candidates, Moved, Ordered, DocOf;
      hide I.Converge;
      hide C.Resolved;
      ghost var was := State();
      var candidates := CandidatesFor(key);
      NoRowsForKey(rows, key);
      if |candidates| == 0 {
        ConvergeDead(was, {key}, now);
        return false;
      }
      var resolved := C.Resolve(candidates);
      ResolvedWinner(rows, key);
      ConvergeSingle(was, key, now);
      MovedSingle(was, key);
      var id := resolved.value.winner.id;
      var o :| o in rows && o.id == id;
      SameIdSameRow(rows, o, Winner(rows, key));
      changed := key !in logical || logical[key].winner != id;
      if changed {
        logical := logical[key := Logical(id, resolved.value.reason, o.item.published,
                                          EffectiveUpdated(o.item), o.item.inReplyTo, now)];
      }
      assert logical == was.logical[key := Upsert(was.rows, was.logical, key, now)];
      Index(key, o);
    }

    // Both of Ingest's loops; the items are recorded first.
    method RecordItems(source: Source, sum: seq<byte>, items: seq<Item>, now: int)
      returns (observations: nat, touched: set<string>, failed: bool)
      requires forall r <- rows :: HasId(sources, r.source)
      modifies this`rows
      ensures failed <==> Touched(items) != {} && !HasId(sources, source.id)
      ensures failed ==> rows == old(rows)
      ensures !failed ==> rows == RecordAll(world, old(rows), source, sum, items, now)
      ensures !failed ==> touched == Touched(items) && |rows| == |old(rows)| + observations
    {
      touched, observations := {}, 0;
      assert items[..0] == [];
      for i := 0 to |items|
        invariant touched == Touched(items[..i])
        invariant touched != {} ==> HasId(sources, source.id)
        invariant rows == RecordAll(world, old(rows), source, sum, items[..i], now)
        invariant |rows| == |old(rows)| + observations
        invariant forall o <- rows :: HasId(sources, o.source)
      {
        assert items[..i + 1][..i] == items[..i];
        TouchedSnoc(items, i);
        var key := ItemKey(items[i]);
        if key != "" {
          var inserted := RecordObservation(source, sum, key, items[i], now);
          if inserted.Err? {
            NothingRecorded(world, old(rows), source, sum, items[..i], now);
            failed := true;
            return;
          }
          if inserted.value {
            observations := observations + 1;
          }
          touched := touched + {key};
        }
      }
      assert items[..|items|] == items;
      failed := false;
    }

    // Map iteration order is arbitrary; the outcome is not.
    method ConvergeTouched(keys: set<string>, now: int) returns (converged: nat)
      requires Ordered(rows)
      modifies this`logical, this`search
      ensures State() == I.Converge(old(State()), keys, now)
      ensures converged == |Moved(old(State()), keys)|
    {
      hide I.Converge;
      hide Moved;
      ghost var was := State();
      ConvergeDead(was, {}, now);
      converged := 0;
      var touched := keys;
      ghost var done: set<string> := {};
      while touched != {}
        invariant done !! touched && done + touched == keys
        invariant State() == I.Converge(was, done, now)
        invariant converged == |Moved(was, done)|
        decreases |touched|
      {
        var key :| key in touched;
        ConvergeOneMore(was, done, key, now);
        MovedUntouched(was, done, key, now);
        MovedOneMore(was, done, key);
        var changed := Converge(key, now);
        if changed {
          assert Moved(was, {key}) == {key};
          converged := converged + 1;
        }
        done, touched := done + {key}, touched - {key};
      }
      assert done == keys;
    }

    method Ingest(source: Source, body: string, items: seq<Item>, now: int) returns (r: Result<Summary, Error>)
      requires Valid()
      modifies this
      ensures Valid()
      ensures (State(), r) == IngestStep(world, old(State()), source, body, items, now)
    {
      hide I.Converge;
      hide Inv, RecordAll, Moved, Touched, Ordered;
      InvBasics(world, State());
      ghost var was := State();
      IngestKeepsInv(world, was, source, body, items, now);
      var sum, stored := StorePayload(body, now);
      var observations, touched, failed := RecordItems(source, sum, items, now);
      if failed {
        return Err(NoSource);
      }
      RecordAllOrdered(world, was, source, sum, items, now);
      var converged := ConvergeTouched(touched, now);
      r := Ok(Summary(stored, observations, converged));
    }

    method IngestItem(source: Source, payload: string, item: Item, now: int) returns (r: Result<(), Error>)
      requires Valid()
      modifies this
      ensures Valid()
      ensures State() == IngestStep(world, old(State()), source, payload, [item], now).0
      ensures r.Err? && r.error == NoKey <==> ItemKey(item) == ""
      ensures r.Err? && r.error == NoSource <==> ItemKey(item) != "" && !HasId(old(sources), source.id)
    {
      ghost var was := State();
      IngestKeepsInv(world, was, source, payload, [item], now);
      InvBasics(world, was);
      IngestOne(world, was, source, payload, item, now);
      hide Inv, IngestStep, Record;
      hide I.Converge;
      var sum, _ := StorePayload(payload, now);
      var key := ItemKey(item);
      if key == "" {
        return Err(NoKey);
      }
      ghost var stored := State();
      var inserted := RecordObservation(source, sum, key, item, now);
      if inserted.Err? {
        return Err(inserted.error);
      }
      RecordOrdered(world, was.rows, source, sum, item, now);
      var _ := Converge(key, now);
      r := Ok(());
    }

    method ItemsWinningOn(id: nat) returns (keys: set<string>)
      ensures keys == WinningOn(State(), id)
    {
      keys := {};
      var left := logical.Keys;
      while left != {}
        invariant left <= logical.Keys
        invariant keys == WinningOn(State(), id) - left
        decreases |left|
      {
        var key :| key in left;
        var mine := IsRowOf(logical[key].winner, id);
        if mine { keys := keys + {key}; }
        left := left - {key};
      }
    }

    // Whether the source has a row with the given id.
    method IsRowOf(row: nat, id: nat) returns (found: bool)
      ensures found <==> exists o <- rows :: o.id == row && o.source == id
    {
      for i := 0 to |rows|
        invariant forall j :: 0 <= j < i ==> !(rows[j].id == row && rows[j].source == id)
      {
        if rows[i].id == row && rows[i].source == id {
          assert rows[i] in rows;
          return true;
        }
      }
      found := false;
    }

    method Forget(key: string)
      modifies this`search
      ensures search == if key in logical then old(search) else old(search) - {key}
    {
      if key in logical { return; }
      search := search - {key};
    }

    method RemoveSource(id: nat, now: int) returns (r: Result<(), Error>)
      requires Valid()
      modifies this
      ensures Valid()
      ensures (State(), r) == RemoveStep(old(State()), id, now)
    {
      hide I.Converge;
      hide Inv, Ordered, WinningOn;
      InvBasics(world, State());
      ghost var was := State();
      RemoveKeepsInv(world, was, id, now);
      if !HasId(sources, id) { return Err(NoSource); }
      var source := SourceById(sources, id);
      if source.isLocal { return Err(SourceIsLocal); }

      var orphaned := ItemsWinningOn(id);
      DetachItems(id);
      sources := Drop(sources, id);
      rows := Except(rows, id);  // the cascade
      ExceptOrdered(was.rows, id);
      Reconverge(orphaned, now);
      r := Ok(());
    }

    // delete from logical_item where winner_id is one of the source's observations
    method DetachItems(id: nat)
      modifies this`logical
      ensures logical == old(logical) - WinningOn(old(State()), id)
    {
      logical := map k <- logical |
        !exists o <- rows :: o.id == logical[k].winner && o.source == id :: logical[k];
      assert logical == old(logical) - WinningOn(old(State()), id);
    }

    // RemoveSource's loop over the orphaned keys.
    method Reconverge(orphaned: set<string>, now: int)
      requires Ordered(rows) && orphaned !! logical.Keys
      modifies this`logical, this`search
      ensures State() == Settled(old(State()), orphaned, now)
    {
      ghost var cut := State();
      SettledNone(cut, now);
      hide Settled, Ordered;
      hide I.Converge;
      var todo := orphaned;
      ghost var done: set<string> := {};
      while todo != {}
        invariant done !! todo && done + todo == orphaned
        invariant State() == Settled(cut, done, now)
        decreases |todo|
      {
        var key :| key in todo;
        SettleOneMore(cut, done, key, now);
        ghost var before := State();
        var _ := Converge(key, now);
        Forget(key);
        ForgetSettles(before, key, now);
        done, todo := done + {key}, todo - {key};
      }
      assert done == orphaned;
    }

    method PurgeExpiredPayloads(now: int) returns (n: nat)
      requires Valid()
      modifies this`payloads
      ensures Valid() && State() == PurgeStep(old(State()), now)
      ensures n == |old(payloads)| - |payloads|
    {
      PurgeKeepsInv(world, State(), now);
      PurgeDropsExpired(State(), now);
      hide Inv, PurgeStep;
      var expired := set p <- payloads |
        payloads[p].keepUntil < now && !exists o <- rows :: o.payload == p;
      assert expired == Expired(State(), now);
      CountSplit(payloads, expired);
      payloads := payloads - expired;
      n := |expired|;
    }
  }

  lemma CountSplit<K, V>(m: map<K, V>, gone: set<K>)
    requires gone <= m.Keys
    ensures |m - gone| == |m| - |gone|
  {
    assert (m - gone).Keys == m.Keys - gone;
    assert |(m - gone).Keys| == |m - gone| && |m.Keys| == |m|;
  }

  lemma TouchedSnoc(items: seq<Item>, i: nat)
    requires i < |items|
    ensures Touched(items[..i + 1]) == Touched(items[..i]) + (if ItemKey(items[i]) == "" then {} else {ItemKey(items[i])})
    ensures ItemKey(items[i]) != "" ==> ItemKey(items[i]) in Touched(items)
  {
    assert forall x :: x in items[..i + 1] <==> x in items[..i] || x == items[i];
  }

  lemma {:induction false} NothingRecorded(w: World, rows: seq<Row>, source: Source, payload: seq<byte>, items: seq<Item>, now: int)
    requires Touched(items) == {}
    ensures RecordAll(w, rows, source, payload, items, now) == rows
  {
    if items != [] {
      var n := |items| - 1;
      TouchedSnoc(items, n);
      assert items[..n + 1] == items;
      NothingRecorded(w, rows, source, payload, items[..n], now);
    }
  }
}
