// What a store owes to its history: which sources are local, how long payloads stay, and what
// an ingest reports.
module StoreHistory {
  import opened Common
  import opened Feed
  import opened Ingest
  import opened IngestView

  // ---- local sources ----

  // Whether the last of these to be told that the address is local or federated was told local.
  function LastLocal(ops: seq<Op>, url: string): bool
    decreases |ops|
  {
    if ops == [] then false
    else
      var op, earlier := ops[|ops| - 1], ops[..|ops| - 1];
      if op.EnsureLocal? && op.url == url then true
      else if op.EnsureFederated? && op.url == url then false
      else LastLocal(earlier, url)
  }

  ghost predicate LocalAsTold(db: Db, ops: seq<Op>) {
    && (forall s <- db.sources :: s.isLocal <==> LastLocal(ops, s.feedURL))
    && (forall url: string :: LastLocal(ops, url) ==> HasURL(db.sources, url))
  }

  lemma MarkedAsTold(sources: seq<Source>, source: Source, isLocal: bool)
    requires OrderedSources(sources) && source in sources
    ensures forall t <- Mark(sources, source.id, isLocal) :: exists s <- sources ::
      t.feedURL == s.feedURL && t.isLocal == (if s.feedURL == source.feedURL then isLocal else s.isLocal)
    ensures forall u: string :: HasURL(sources, u) ==> HasURL(Mark(sources, source.id, isLocal), u)
  {
    var after := Mark(sources, source.id, isLocal);
    forall t | t in after
      ensures exists s <- sources :: t.feedURL == s.feedURL && t.isLocal == (if s.feedURL == source.feedURL then isLocal else s.isLocal)
    {
      var i :| 0 <= i < |after| && after[i] == t;
      assert sources[i] in sources;
    }
    forall u: string | HasURL(sources, u) ensures HasURL(after, u) {
      var i :| 0 <= i < |sources| && sources[i].feedURL == u;
      assert after[i] in after;
    }
  }

  lemma EnsureAsTold(db: Db, url: string, isLocal: bool)
    requires OrderedSources(db.sources)
    ensures var after := EnsureStep(db, url, isLocal).0;
            && (forall s <- after.sources :: s.isLocal == (if s.feedURL == url then isLocal else WasLocal(db, s.feedURL)))
            && HasURL(after.sources, url) && (forall u: string :: HasURL(db.sources, u) ==> HasURL(after.sources, u))
  {
    var (added, source) := AddSourceStep(db, url);
    AddedOrdered(db, url);
    hide AddSourceStep, Mark, OrderedSources;
    MarkedAsTold(added.sources, source, isLocal);
    var after := EnsureStep(db, url, isLocal).0;
    forall t | t in after.sources ensures t.isLocal == (if t.feedURL == url then isLocal else WasLocal(db, t.feedURL)) {
      var s :| s in added.sources && t.feedURL == s.feedURL && t.isLocal == (if s.feedURL == url then isLocal else s.isLocal);
      if s.feedURL != url {
        assert s in db.sources;
        WasLocalIs(db, s);
      }
    }
  }

  lemma WasLocalIs(db: Db, s: Source)
    requires OrderedSources(db.sources) && s in db.sources
    ensures WasLocal(db, s.feedURL) == s.isLocal
  {}

  ghost predicate WasLocal(db: Db, url: string) { exists s <- db.sources :: s.feedURL == url && s.isLocal }

  // A source that is added is not local.
  lemma AddedOrdered(db: Db, url: string)
    requires OrderedSources(db.sources)
    ensures var (after, source) := AddSourceStep(db, url);
            && OrderedSources(after.sources) && source in after.sources && source.feedURL == url
            && (forall s <- db.sources :: s in after.sources)
            && (forall s <- after.sources :: s in db.sources || (s == source && !s.isLocal && !HasURL(db.sources, url)))
  {
    if !HasURL(db.sources, url) {
      var added := Source(NextSourceId(db.sources), url, false);
      var all := db.sources + [added];
      assert all[|db.sources|] == added;
      forall i | 0 <= i < |db.sources| ensures all[i].id < added.id && all[i].feedURL != url {
        assert all[i] == db.sources[i] && db.sources[i] in db.sources;
      }
    }
  }

  lemma LastSnoc(ops: seq<Op>, op: Op, url: string)
    ensures LastLocal(ops + [op], url) ==
      (if op.EnsureLocal? && op.url == url then true
       else if op.EnsureFederated? && op.url == url then false
       else LastLocal(ops, url))
  {
    assert (ops + [op])[..|ops|] == ops;
  }

  lemma StepAsTold(w: World, db: Db, ops: seq<Op>, op: Op)
    requires Inv(w, db) && LocalAsTold(db, ops)
    ensures LocalAsTold(Step(w, db, op), ops + [op])
  {
    var after := Step(w, db, op);
    forall url: string ensures LastLocal(ops + [op], url) == (if op.EnsureLocal? && op.url == url then true
      else if op.EnsureFederated? && op.url == url then false else LastLocal(ops, url)) { LastSnoc(ops, op, url); }
    hide LastLocal;
    match op {
      case AddSource(url) => AddedAsTold(w, db, ops, url);
      case EnsureLocal(url) =>
        EnsuredAsTold(w, db, ops, url, true);
      case EnsureFederated(url) => EnsuredAsTold(w, db, ops, url, false);
      case Remove(id, now) => RemovedAsTold(w, db, ops, id, now);
      case Deliver(source, body, items, now) => assert after.sources == db.sources;
      case Purge(_) =>
    }
  }

  lemma AddedAsTold(w: World, db: Db, ops: seq<Op>, url: string)
    requires Inv(w, db) && LocalAsTold(db, ops)
    ensures LocalAsTold(AddSourceStep(db, url).0, ops)
  {
    hide LastLocal;
    AddedOrdered(db, url);
    forall u: string | LastLocal(ops, u) ensures HasURL(AddSourceStep(db, url).0.sources, u) {
      assert HasURL(db.sources, u);
    }
  }

  lemma EnsuredAsTold(w: World, db: Db, ops: seq<Op>, url: string, isLocal: bool)
    requires Inv(w, db) && LocalAsTold(db, ops)
    ensures var after := EnsureStep(db, url, isLocal).0;
            && (forall s <- after.sources :: s.isLocal == (if s.feedURL == url then isLocal else LastLocal(ops, s.feedURL)))
            && (forall u: string :: u == url || LastLocal(ops, u) ==> HasURL(after.sources, u))
  {
    hide LastLocal;
    assert OrderedSources(db.sources);
    hide Inv;
    EnsureAsTold(db, url, isLocal);
    hide EnsureStep;
    var after := EnsureStep(db, url, isLocal).0;
    forall s | s in after.sources && s.feedURL != url ensures s.isLocal == LastLocal(ops, s.feedURL) {
      assert LastLocal(ops, s.feedURL) ==> HasURL(db.sources, s.feedURL);
    }
  }

  lemma RemovedAsTold(w: World, db: Db, ops: seq<Op>, id: nat, now: int)
    requires Inv(w, db) && LocalAsTold(db, ops)
    ensures LocalAsTold(RemoveStep(db, id, now).0, ops)
  {
    hide LastLocal;
    var after := RemoveStep(db, id, now).0;
    if HasId(db.sources, id) && !SourceById(db.sources, id).isLocal {
      assert after.sources == Drop(db.sources, id);
      OnlySource(db.sources, id);
      forall u: string | LastLocal(ops, u) ensures HasURL(after.sources, u) {
        assert HasURL(db.sources, u);
        var s :| s in db.sources && s.feedURL == u;
        assert s in after.sources;
      }
    }
  }

  lemma OnlySource(sources: seq<Source>, id: nat)
    requires OrderedSources(sources) && HasId(sources, id)
    ensures forall s <- sources :: s.id == id ==> s == SourceById(sources, id)
  {}

  // In every run a source is local exactly when its address was last made local and not federated
  // since, and an address made local stays followed.
  lemma {:induction false} LocalIffLastTold(w: World, ops: seq<Op>)
    ensures LocalAsTold(Run(w, EMPTY, ops), ops)
  {
    hide Step, LastLocal;
    if ops == [] {
      NothingTold();
    } else {
      var n := |ops| - 1;
      LocalIffLastTold(w, ops[..n]);
      EveryRunAgrees(w, ops[..n]);
      StepAsTold(w, Run(w, EMPTY, ops[..n]), ops[..n], ops[n]);
      assert ops[..n] + [ops[n]] == ops;
    }
  }

  lemma NothingTold()
    ensures forall url: string :: !LastLocal([], url)
  {}

  // ---- payloads ----

  // A body not stored before is kept under its hash for thirty days; one that is, as it was.
  lemma BodyKept(w: World, db: Db, source: Source, body: string, items: seq<Item>, now: int)
    ensures var after := IngestStep(w, db, source, body, items, now).0;
            && w.sha(body) in after.payloads
            && (w.sha(body) !in db.payloads ==> after.payloads[w.sha(body)] == Payload(body, now + 2592000))
            && (forall p <- db.payloads :: p in after.payloads && after.payloads[p] == db.payloads[p])
            && (forall p <- after.payloads :: p in db.payloads || p == w.sha(body))
  {}

  // Only purging drops a payload, and only one that is past its time and that no row points at.
  lemma PayloadDroppedIff(w: World, db: Db, op: Op, p: seq<byte>)
    requires p in db.payloads
    ensures p !in Step(w, db, op).payloads <==>
      op.Purge? && db.payloads[p].keepUntil < op.now && forall r <- db.rows :: r.payload != p
    ensures p in Step(w, db, op).payloads ==> Step(w, db, op).payloads[p] == db.payloads[p]
  {
    if op.Deliver? { BodyKept(w, db, op.source, op.body, op.items, op.now); }
  }

  // ---- what an ingest reports ----

  // The keys under which something else is shown than before.
  ghost function ShownAnew(before: Db, after: Db): set<string> {
    set k <- after.logical | k !in before.logical || before.logical[k].winner != after.logical[k].winner
  }

  // Whether the body was new, how many rows came, and how many keys show something else.
  lemma ReportTells(w: World, db: Db, source: Source, body: string, items: seq<Item>, now: int)
    requires Inv(w, db)
    ensures var (after, r) := IngestStep(w, db, source, body, items, now);
            && (r.Err? <==> (forall s <- db.sources :: s.id != source.id) && exists item <- items :: item.guid != "" || item.link != "")
            && (r.Ok? ==>
                  && r.value.payloadStored == (w.sha(body) !in db.payloads)
                  && r.value.observations == |after.rows| - |db.rows|
                  && r.value.converged == |ShownAnew(db, after)|)
  {
    var (after, r) := IngestStep(w, db, source, body, items, now);
    TouchedIff(items);
    if r.Ok? {
      var recorded := db.(payloads := StorePayload(w, db.payloads, body, now),
                          rows := RecordAll(w, db.rows, source, w.sha(body), items, now));
      MovedShown(recorded, Touched(items), now);
      hide Converge, Moved, RecordAll, StorePayload, Touched;
      assert ShownAnew(db, after) == ShownAnew(recorded, after);
    }
  }

  lemma TouchedIff(items: seq<Item>)
    ensures Touched(items) != {} <==> exists item <- items :: item.guid != "" || item.link != ""
  {
    if item :| item in items && (item.guid != "" || item.link != "") { assert ItemKey(item) in Touched(items); }
    if k :| k in Touched(items) { assert exists item <- items :: item.guid != "" || item.link != ""; }
  }

  lemma MovedShown(db: Db, keys: set<string>, now: int)
    ensures ShownAnew(db, Converge(db, keys, now)) == Moved(db, keys)
  {
    hide Winner, ReasonFor, DocOf, ForKey;
    var after := Converge(db, keys, now);
    forall k ensures k in ShownAnew(db, after) <==> k in Moved(db, keys) {
      ConvergedAt(db, keys, now, k);
    }
  }
}
