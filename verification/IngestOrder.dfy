// Arrival order, batching and repetition do not matter: the set of (source, item) pairs a
// store has received decides what every item shows.
module IngestOrder {
  import opened Common
  import opened Feed
  import opened Ingest
  import opened IngestView
  import opened IngestRuns
  import C = Convergence

  datatype Pair = Pair(url: string, item: Item)

  ghost function Pairs(url: string, items: seq<Item>): set<Pair> {
    set item <- items | ItemKey(item) != "" :: Pair(url, item)
  }

  // Everything a run of deliveries hands over, with the feed it came from.
  ghost function Delivered(ops: seq<Op>): set<Pair> {
    if ops == [] then {}
    else
      var n := |ops| - 1;
      Delivered(ops[..n]) +
      match ops[n] case Deliver(source, _, items, _) => Pairs(source.feedURL, items) case _ => {}
  }

  predicate DeliveriesFrom(sources: seq<Source>, ops: seq<Op>) {
    forall op <- ops :: op.Deliver? && op.source in sources
  }

  predicate Dated(item: Item) {
    EffectiveUpdated(item).Some?
  }

  function FeedOf(sources: seq<Source>, id: nat): string {
    if HasId(sources, id) then SourceById(sources, id).feedURL else ""
  }

  // The pair a row was made from.
  function PairOf(sources: seq<Source>, r: Row): Pair {
    Pair(FeedOf(sources, r.source), r.item)
  }

  predicate Claim(w: World, d: Pair) {
    ClaimedByAuthor(w, d.url, d.item, ItemKey(d.item))
  }

  // The unique index lets at most one of the pairs with one content hash in; this is it.
  predicate Covers(w: World, sources: seq<Source>, r: Row, d: Pair) {
    r.key == ItemKey(d.item) && r.hash == ContentHash(w, d.item) && FeedOf(sources, r.source) == d.url
  }

  ghost predicate Explained(w: World, sources: seq<Source>, rows: seq<Row>, D: set<Pair>) {
    forall r <- rows :: PairOf(sources, r) in D && r.claimed == Claim(w, PairOf(sources, r))
  }

  ghost predicate Kept(w: World, sources: seq<Source>, rows: seq<Row>, d: Pair) {
    exists r <- rows :: Covers(w, sources, r, d)
  }

  ghost predicate Accounted(w: World, sources: seq<Source>, rows: seq<Row>, D: set<Pair>) {
    && Explained(w, sources, rows, D)
    && forall d {:trigger Kept(w, sources, rows, d)} :: d in D ==> Kept(w, sources, rows, d)
  }

  lemma KeptGrows(w: World, sources: seq<Source>, rows: seq<Row>, more: seq<Row>, d: Pair)
    requires rows <= more && Kept(w, sources, rows, d)
    ensures Kept(w, sources, more, d)
  {
    var r :| r in rows && Covers(w, sources, r, d);
    assert r in more;
  }

  lemma FeedOfSource(sources: seq<Source>, source: Source)
    requires OrderedSources(sources) && source in sources
    ensures FeedOf(sources, source.id) == source.feedURL
  {
    assert HasId(sources, source.id);
  }

  lemma RecordKeeps(w: World, sources: seq<Source>, rows: seq<Row>, source: Source, payload: seq<byte>, item: Item, now: int)
    requires FeedOf(sources, source.id) == source.feedURL
    ensures Kept(w, sources, Record(w, rows, source, payload, item, now), Pair(source.feedURL, item))
  {
    if Recorded(w, rows, source.id, item) {
      var r :| r in rows && r.source == source.id && r.key == ItemKey(item) && r.hash == ContentHash(w, item);
      assert Covers(w, sources, r, Pair(source.feedURL, item));
    } else {
      var added := NewRow(w, rows, source, payload, item, now);
      assert added in rows + [added] && Covers(w, sources, added, Pair(source.feedURL, item));
    }
  }

  lemma RecordExplains(w: World, sources: seq<Source>, rows: seq<Row>, D: set<Pair>, source: Source, payload: seq<byte>, item: Item, now: int)
    requires FeedOf(sources, source.id) == source.feedURL && Explained(w, sources, rows, D)
    ensures Explained(w, sources, Record(w, rows, source, payload, item, now), D + {Pair(source.feedURL, item)})
  {
    hide Recorded;
    hide ContentHash, FeedOf, ClaimedByAuthor;
    if !Recorded(w, rows, source.id, item) {
      var added := NewRow(w, rows, source, payload, item, now);
      assert PairOf(sources, added) == Pair(source.feedURL, item);
    }
  }

  lemma RecordGrows(w: World, rows: seq<Row>, source: Source, payload: seq<byte>, item: Item, now: int)
    ensures rows <= Record(w, rows, source, payload, item, now)
  {
    hide Recorded;
  }

  lemma RecordAccounts(w: World, sources: seq<Source>, rows: seq<Row>, D: set<Pair>, source: Source, payload: seq<byte>, item: Item, now: int)
    requires FeedOf(sources, source.id) == source.feedURL && Accounted(w, sources, rows, D)
    ensures Accounted(w, sources, Record(w, rows, source, payload, item, now), D + {Pair(source.feedURL, item)})
  {
    hide Explained, Kept, Record, FeedOf;
    RecordGrows(w, rows, source, payload, item, now);
    RecordKeeps(w, sources, rows, source, payload, item, now);
    RecordExplains(w, sources, rows, D, source, payload, item, now);
    var after := Record(w, rows, source, payload, item, now);
    forall e | e in D ensures Kept(w, sources, after, e) {
      KeptGrows(w, sources, rows, after, e);
    }
  }

  lemma {:induction false} RecordAllAccounts(w: World, sources: seq<Source>, rows: seq<Row>, D: set<Pair>, source: Source, payload: seq<byte>, items: seq<Item>, now: int)
    requires FeedOf(sources, source.id) == source.feedURL && Accounted(w, sources, rows, D)
    ensures Accounted(w, sources, RecordAll(w, rows, source, payload, items, now), D + Pairs(source.feedURL, items))
  {
    if items == [] {
      assert D + Pairs(source.feedURL, items) == D;
    } else {
      var n := |items| - 1;
      RecordAllAccounts(w, sources, rows, D, source, payload, items[..n], now);
      var before := D + Pairs(source.feedURL, items[..n]);
      PairsSnoc(source.feedURL, items);
      if ItemKey(items[n]) != "" {
        RecordAccounts(w, sources, RecordAll(w, rows, source, payload, items[..n], now), before, source, payload, items[n], now);
        assert before + {Pair(source.feedURL, items[n])} == D + Pairs(source.feedURL, items);
      }
    }
  }

  lemma PairsSnoc(url: string, items: seq<Item>)
    requires items != []
    ensures var n := |items| - 1;
            Pairs(url, items) == Pairs(url, items[..n]) + if ItemKey(items[n]) == "" then {} else {Pair(url, items[n])}
  {
    var n := |items| - 1;
    assert forall item :: item in items <==> item in items[..n] || item == items[n];
  }

  lemma {:induction false} RunAccounts(w: World, db: Db, ops: seq<Op>)
    requires OrderedSources(db.sources) && db.rows == [] && DeliveriesFrom(db.sources, ops)
    ensures Run(w, db, ops).sources == db.sources
    ensures Accounted(w, db.sources, Run(w, db, ops).rows, Delivered(ops))
  {
    if ops != [] {
      var n := |ops| - 1;
      RunAccounts(w, db, ops[..n]);
      var before := Run(w, db, ops[..n]);
      var op := ops[n];
      FeedOfSource(db.sources, op.source);
      assert HasId(before.sources, op.source.id);
      RecordAllAccounts(w, db.sources, before.rows, Delivered(ops[..n]), op.source, w.sha(op.body), op.items, op.now);
    }
  }

  // The rank a pair is worth, in any store.
  function RankFor(w: World, d: Pair): C.Rank
    requires Dated(d.item)
  {
    C.Rank(Claim(w, d), EffectiveUpdated(d.item).value,
           FidelityOf(d.item), |d.item.enclosures|, ContentHash(w, d.item))
  }

  function RankOfRow(r: Row): C.Rank {
    C.RankOf(CandidateOf(r))
  }

  lemma RowHasPairRank(w: World, db: Db, r: Row)
    requires GoodRow(w, db, r) && Dated(r.item)
    requires r.claimed == Claim(w, PairOf(db.sources, r))
    ensures RankOfRow(r) == RankFor(w, PairOf(db.sources, r))
  {}

  // What a pair is worth is also what the row that stands for it is worth.
  lemma CoverAgrees(w: World, db: Db, d: Pair, r: Row)
    requires w.Injective() && GoodRow(w, db, r) && r.claimed == Claim(w, PairOf(db.sources, r))
    requires ZeroFreeItem(r.item) && ZeroFreeItem(d.item) && Covers(w, db.sources, r, d)
    ensures r.claimed == Claim(w, d) && EffectiveUpdated(r.item) == EffectiveUpdated(d.item)
    ensures r.fidelity == FidelityOf(d.item) && |r.item.enclosures| == |d.item.enclosures|
  {
    HashCovers(w, d.item, r.item);
    SamePartsSameColumns(d.item, r.item);
  }

  // A pair kept out by the unique index was kept out by one of the same rank.
  lemma PairHasRowRank(w: World, db: Db, d: Pair, r: Row)
    requires w.Injective() && GoodRow(w, db, r) && r.claimed == Claim(w, PairOf(db.sources, r))
    requires ZeroFreeItem(r.item) && ZeroFreeItem(d.item) && Dated(d.item)
    requires Covers(w, db.sources, r, d)
    ensures r.key == ItemKey(d.item) && RankOfRow(r) == RankFor(w, d)
  {
    CoverAgrees(w, db, d, r);
  }

  lemma SamePartsSameColumns(a: Item, b: Item)
    requires TextParts(a) == TextParts(b)
    ensures a.html == b.html && a.markdown == b.markdown && a.link == b.link
    ensures FidelityOf(a) == FidelityOf(b)
  {
    var p, q := TextParts(a), TextParts(b);
    assert p[1] == q[1] && p[2] == q[2] && p[3] == q[3];
  }

  // ---- when the order of delivery does not matter ----

  function AsCandidate(k: C.Rank): C.Candidate {
    C.Candidate(0, k.claimed, k.updated, k.fidelity, k.attachments, k.hash)
  }

  predicate Outranks(w: World, e: Pair, d: Pair)
    requires Dated(e.item) && Dated(d.item)
  {
    C.Beats(AsCandidate(RankFor(w, e)), AsCandidate(RankFor(w, d))).0
  }

  // What the unique index cannot tell apart: the first of them to arrive keeps the others out.
  predicate Twins(w: World, d: Pair, e: Pair) {
    d.url == e.url && ItemKey(d.item) == ItemKey(e.item) && ContentHash(w, d.item) == ContentHash(w, e.item)
  }

  // Nothing under k does better than d: no dated version outranks it, and its claim shuts out
  // every undated one, which could come as late as it likes.
  ghost predicate Unbeaten(w: World, D: set<Pair>, k: string, d: Pair) {
    && d in D && ItemKey(d.item) == k && Dated(d.item)
    && forall e <- D :: ItemKey(e.item) == k ==>
         if Dated(e.item) then !Outranks(w, e, d) else Claim(w, d) && !Claim(w, e)
  }

  // Nor does it matter which of its twins comes first.
  ghost predicate Settles(w: World, D: set<Pair>, k: string, d: Pair) {
    && Unbeaten(w, D, k, d)
    && forall e <- D :: Twins(w, d, e) ==> Dated(e.item) && RankFor(w, e) == RankFor(w, d)
  }

  ghost predicate Settled(w: World, D: set<Pair>, k: string) {
    (forall d <- D :: ItemKey(d.item) != k) || exists d <- D :: Settles(w, D, k, d)
  }

  // A store that starts without observations and is handed exactly these pairs.
  ghost predicate Delivers(w: World, start: Db, ops: seq<Op>, D: set<Pair>) {
    Inv(w, start) && start.rows == [] && DeliveriesFrom(start.sources, ops) && Delivered(ops) == D
  }

  ghost predicate SameOutcome(a: Db, b: Db, k: string) {
    && (k in a.logical <==> k in b.logical)
    && (k in a.logical ==>
          && k in KeysOf(a.rows) && k in KeysOf(b.rows)
          && RankOfRow(Winner(a.rows, k)) == RankOfRow(Winner(b.rows, k)))
  }

  // The version shown under k has this rank.
  ghost predicate ShowsRank(db: Db, k: string, rank: C.Rank) {
    k in db.logical && k in KeysOf(db.rows) && RankOfRow(Winner(db.rows, k)) == rank
  }

  // What a store that received D looks like.
  ghost predicate Received(w: World, db: Db, D: set<Pair>) {
    Inv(w, db) && Accounted(w, db.sources, db.rows, D)
  }

  lemma RunReceives(w: World, start: Db, ops: seq<Op>, D: set<Pair>)
    requires Delivers(w, start, ops, D)
    ensures Received(w, Run(w, start, ops), D) && Run(w, start, ops).sources == start.sources
  {
    RunKeepsInv(w, start, ops);
    RunAccounts(w, start, ops);
  }

  lemma RowExplained(w: World, db: Db, D: set<Pair>, r: Row)
    requires Received(w, db, D) && r in db.rows
    ensures GoodRow(w, db, r) && PairOf(db.sources, r) in D && r.claimed == Claim(w, PairOf(db.sources, r))
    ensures r.key == ItemKey(PairOf(db.sources, r).item)
    ensures Dated(r.item) ==> RankOfRow(r) == RankFor(w, PairOf(db.sources, r))
  {
    if Dated(r.item) { RowHasPairRank(w, db, r); }
  }

  lemma RowFor(w: World, db: Db, D: set<Pair>, d: Pair) returns (r: Row)
    requires Received(w, db, D) && d in D
    ensures r in db.rows && Covers(w, db.sources, r, d) && GoodRow(w, db, r) && PairOf(db.sources, r) in D
    ensures r.claimed == Claim(w, PairOf(db.sources, r))
  {
    assert Kept(w, db.sources, db.rows, d);
    r :| r in db.rows && Covers(w, db.sources, r, d);
    RowExplained(w, db, D, r);
  }

  lemma CoverIsTwin(w: World, db: Db, r: Row, d: Pair)
    requires GoodRow(w, db, r) && Covers(w, db.sources, r, d)
    ensures r.key == ItemKey(d.item) && Twins(w, d, PairOf(db.sources, r))
  {}

  lemma RankedRow(w: World, d: Pair, r: Row)
    requires Dated(d.item) && RankOfRow(r) == RankFor(w, d)
    ensures r.claimed == Claim(w, d) && C.RankOf(CandidateOf(r)) == C.RankOf(AsCandidate(RankFor(w, d)))
  {}

  // A row that nothing does better than decides what is shown.
  lemma UnbeatenShows(w: World, db: Db, D: set<Pair>, k: string, d: Pair, y: Row)
    requires Received(w, db, D) && Unbeaten(w, D, k, d)
    requires y in db.rows && y.key == k && RankOfRow(y) == RankFor(w, d)
    ensures ShowsRank(db, k, RankFor(w, d))
  {
    hide ContentHash, ClaimedByAuthor, Winner, Accounted, RankFor;
    assert k in KeysOf(db.rows) && AgreesAt(db, k);
    WinnerIsWinner(db.rows, k);
    var x := Winner(db.rows, k);
    RowExplained(w, db, D, x);
    var e := PairOf(db.sources, x);
    assert e in D && ItemKey(e.item) == k;
    RankedRow(w, d, y);
    assert AtLeast(x, y);
    if Dated(e.item) {
      C.BeatsAsymmetric(CandidateOf(x), CandidateOf(y));
      C.SameRankSameFight(CandidateOf(x), AsCandidate(RankFor(w, e)), CandidateOf(y), AsCandidate(RankFor(w, d)));
    } else {
      assert false;
    }
  }

  lemma SettledShows(w: World, db: Db, D: set<Pair>, k: string, d: Pair)
    requires Received(w, db, D) && Settles(w, D, k, d)
    ensures ShowsRank(db, k, RankFor(w, d))
  {
    hide ContentHash, ClaimedByAuthor, Winner, Accounted, RankFor, Unbeaten, Twins;
    assert d in D && Dated(d.item) && ItemKey(d.item) == k by { UnbeatenBasics(w, D, k, d); }
    var y := RowFor(w, db, D, d);
    CoverIsTwin(w, db, y, d);
    RowExplained(w, db, D, y);
    UnbeatenShows(w, db, D, k, d, y);
  }

  lemma UnbeatenBasics(w: World, D: set<Pair>, k: string, d: Pair)
    requires Unbeaten(w, D, k, d)
    ensures d in D && Dated(d.item) && ItemKey(d.item) == k
  {}

  lemma NothingShown(w: World, db: Db, D: set<Pair>, k: string)
    requires Received(w, db, D) && forall d <- D :: ItemKey(d.item) != k
    ensures k !in db.logical
  {
    assert AgreesAt(db, k);
    forall r | r in db.rows ensures r.key != k { RowExplained(w, db, D, r); }
  }

  ghost function Under(D: set<Pair>, k: string): set<Pair> {
    set d <- D | ItemKey(d.item) == k
  }

  // Whether a pair settles a key depends on what arrives under that key alone.
  lemma SettlesAlike(w: World, D: set<Pair>, D': set<Pair>, k: string, d: Pair)
    requires Under(D, k) == Under(D', k) && d in D && Settles(w, D, k, d)
    ensures d in D' && Settles(w, D', k, d)
  {
    hide ContentHash, ClaimedByAuthor, RankFor, Outranks;
    assert d in Under(D, k);
    forall e | e in D' && ItemKey(e.item) == k ensures e in D { assert e in Under(D', k); }
  }

  // Two stores that follow their feeds in any order and batching, but receive the same pairs under
  // a settled key, show versions of the same rank (and so of the same content hash) under it.
  // What arrives under other keys does not matter.
  lemma SamePairsSameOutcome(w: World, start: Db, ops: seq<Op>, D: set<Pair>, start': Db, ops': seq<Op>, D': set<Pair>, k: string)
    requires Delivers(w, start, ops, D) && Delivers(w, start', ops', D')
    requires Under(D, k) == Under(D', k) && Settled(w, D, k)
    ensures SameOutcome(Run(w, start, ops), Run(w, start', ops'), k)
  {
    hide Delivers, Received, Settles, Run;
    RunReceives(w, start, ops, D);
    RunReceives(w, start', ops', D');
    var a, b := Run(w, start, ops), Run(w, start', ops');
    if d :| d in D && Settles(w, D, k, d) {
      assert Dated(d.item) by { SettlesBasics(w, D, k, d); }
      SettlesAlike(w, D, D', k, d);
      SettledShows(w, a, D, k, d);
      SettledShows(w, b, D', k, d);
    } else {
      forall d | d in D' ensures ItemKey(d.item) != k { assert d in Under(D', k) ==> d in Under(D, k); }
      NothingShown(w, a, D, k);
      NothingShown(w, b, D', k);
    }
  }

  lemma SettlesBasics(w: World, D: set<Pair>, k: string, d: Pair)
    requires Settles(w, D, k, d)
    ensures Dated(d.item)
  {}

  // ---- deliveries that make a difference ----

  lemma SourceAdded(db: Db, url: string)
    ensures var (after, source) := AddSourceStep(db, url);
            && source in after.sources && source.feedURL == url && after.rows == db.rows
            && forall s <- db.sources :: s in after.sources
  {}

  lemma MoreSources(w: World, start: Db, ops: seq<Op>, D: set<Pair>, url: string)
    requires Delivers(w, start, ops, D)
    ensures Delivers(w, AddSourceStep(start, url).0, ops, D)
  {
    AddSourceKeepsInv(w, start, url);
    SourceAdded(start, url);
    hide Inv, AddSourceStep;
  }

  lemma DeliverMore(w: World, start: Db, earlier: seq<Op>, D: set<Pair>, d: Pair, now: int) returns (op: Op)
    requires Delivers(w, start, earlier, D) && ItemKey(d.item) != ""
    requires AddSourceStep(start, d.url).0 == start && AddSourceStep(start, d.url).1 in start.sources
    requires AddSourceStep(start, d.url).1.feedURL == d.url
    ensures Delivers(w, start, earlier + [op], D + {d}) && op.now == now
  {
    hide Inv, AddSourceStep;
    var source := AddSourceStep(start, d.url).1;
    op := Deliver(source, "", [d.item], now);
    assert (earlier + [op])[..|earlier + [op]| - 1] == earlier;
    assert Pairs(source.feedURL, [d.item]) == {d};
  }

  lemma AddedTwice(db: Db, url: string)
    ensures var after := AddSourceStep(db, url).0;
            && AddSourceStep(after, url).0 == after && AddSourceStep(after, url).1 in after.sources
            && AddSourceStep(after, url).1.feedURL == url
  {
    if !HasURL(db.sources, url) {
      var added := AddSourceStep(db, url).1;
      assert added in AddSourceStep(db, url).0.sources;
    }
  }

  // After what was delivered first, any other pairs with keys can be, all at one time.
  lemma {:induction false} DeliverOnto(w: World, before: Db, first: seq<Op>, D1: set<Pair>, D2: set<Pair>, now: int)
    returns (start: Db, more: seq<Op>)
    requires Delivers(w, before, first, D1) && forall d <- D2 :: ItemKey(d.item) != ""
    ensures Delivers(w, start, first, D1) && Delivers(w, start, first + more, D1 + D2)
    ensures forall op <- more :: op.now == now
    decreases |D2|
  {
    hide Delivers, AddSourceStep;
    if D2 == {} {
      start, more := before, [];
      assert first + more == first && D1 + D2 == D1;
    } else {
      var d :| d in D2;
      var earlier, some := DeliverOnto(w, before, first, D1, D2 - {d}, now);
      start := AddSourceStep(earlier, d.url).0;
      MoreSources(w, earlier, first, D1, d.url);
      MoreSources(w, earlier, first + some, D1 + (D2 - {d}), d.url);
      AddedTwice(earlier, d.url);
      var op := DeliverMore(w, start, first + some, D1 + (D2 - {d}), d, now);
      more := some + [op];
      assert first + more == first + some + [op];
      assert D1 + (D2 - {d}) + {d} == D1 + D2;
    }
  }

  lemma {:induction false} RowsStay(w: World, db: Db, a: seq<Op>, b: seq<Op>)
    requires NoRemoval(a + b)
    ensures Run(w, db, a).rows <= Run(w, db, a + b).rows
  {
    if b == [] {
      assert a + b == a;
    } else {
      var n := |b| - 1;
      assert (a + b)[..|a + b| - 1] == a + b[..n] && (a + b)[|a + b| - 1] == b[n];
      RowsStay(w, db, a, b[..n]);
      RowsOnlyGrow(w, Run(w, db, a + b[..n]), [b[n]]);
      assert Run(w, Run(w, db, a + b[..n]), [b[n]]) == Run(w, db, a + b) by {
        assert [b[n]][..0] == [];
      }
    }
  }

  // Each of these pairs is kept by a row made from one of them, whatever else there is.
  ghost predicate KeptFirst(w: World, db: Db, first: set<Pair>) {
    forall d <- first :: KeptBy(w, db, first, d)
  }

  ghost predicate KeptBy(w: World, db: Db, first: set<Pair>, d: Pair) {
    exists r <- db.rows :: Covers(w, db.sources, r, d) && PairOf(db.sources, r) in first
  }

  // Any set of pairs with keys can be delivered, all at one time and some of them first.
  lemma DeliverFirst(w: World, first: set<Pair>, D: set<Pair>, now: int) returns (start: Db, ops: seq<Op>)
    requires first <= D && forall d <- D :: ItemKey(d.item) != ""
    ensures Delivers(w, start, ops, D) && forall op <- ops :: op.now == now
    ensures Received(w, Run(w, start, ops), D) && KeptFirst(w, Run(w, start, ops), first)
  {
    hide Inv, Received, Covers, Run;
    assert Delivers(w, EMPTY, [], {}) by { EmptyDelivers(w); }
    var before, ops1 := DeliverOnto(w, EMPTY, [], {}, first, now);
    assert [] + ops1 == ops1 && {} + first == first;
    var more;
    start, more := DeliverOnto(w, before, ops1, first, D, now);
    ops := ops1 + more;
    assert first + D == D;
    RunReceives(w, start, ops1, first);
    RunReceives(w, start, ops, D);
    RowsStay(w, start, ops1, more);
    var a, db := Run(w, start, ops1), Run(w, start, ops);
    forall d | d in first ensures KeptBy(w, db, first, d) {
      var r := RowFor(w, a, first, d);
      assert r in db.rows;
    }
  }

  lemma EmptyDelivers(w: World)
    ensures Delivers(w, EMPTY, [], {})
  {
    assert Run(w, EMPTY, []) == EMPTY;
    EveryRunAgrees(w, []);
  }

  lemma {:induction false} RecordAllObserved(w: World, rows: seq<Row>, source: Source, payload: seq<byte>, items: seq<Item>, now: int)
    requires forall r <- rows :: r.observedAt == now
    ensures forall r <- RecordAll(w, rows, source, payload, items, now) :: r.observedAt == now
  {
    if items != [] {
      RecordAllObserved(w, rows, source, payload, items[..|items| - 1], now);
    }
  }

  lemma {:induction false} RunObserved(w: World, db: Db, ops: seq<Op>, now: int)
    requires db.rows == [] && forall op <- ops :: op.Deliver? && op.now == now
    ensures forall r <- Run(w, db, ops).rows :: r.observedAt == now
  {
    if ops != [] {
      var n := |ops| - 1;
      var op := ops[n];
      RunObserved(w, db, ops[..n], now);
      RecordAllObserved(w, Run(w, db, ops[..n]).rows, op.source, w.sha(op.body), op.items, now);
    }
  }

  // Later than every date in D.
  lemma {:induction false} After(D: set<Pair>) returns (now: int)
    ensures forall d <- D :: Dated(d.item) ==> EffectiveUpdated(d.item).value < now
    decreases |D|
  {
    if D == {} {
      now := 0;
    } else {
      var d :| d in D;
      now := After(D - {d});
      if Dated(d.item) && EffectiveUpdated(d.item).value >= now { now := EffectiveUpdated(d.item).value + 1; }
    }
  }

  lemma AllAtOnce(w: World, start: Db, ops: seq<Op>, D: set<Pair>, now: int)
    requires Delivers(w, start, ops, D) && forall op <- ops :: op.now == now
    ensures forall r <- Run(w, start, ops).rows :: r.observedAt == now
  {
    hide Inv;
    RunObserved(w, start, ops, now);
  }

  // ---- and exactly when it does ----

  ghost predicate OrderIrrelevant(w: World, D: set<Pair>, k: string) {
    forall start: Db, ops: seq<Op>, start': Db, ops': seq<Op> ::
      Delivers(w, start, ops, D) && Delivers(w, start', ops', D) ==>
        SameOutcome(Run(w, start, ops), Run(w, start', ops'), k)
  }

  // A pair under k that no other pair under k outdoes by its claim alone.
  ghost predicate TopClaim(w: World, D: set<Pair>, k: string, d: Pair) {
    && d in D && ItemKey(d.item) == k
    && forall e <- D :: ItemKey(e.item) == k && Claim(w, e) ==> Claim(w, d)
  }

  // Kept and delivered after every date, an undated version that no claim outdoes gives the
  // winner the time of delivery.
  lemma UndatedWins(w: World, db: Db, D: set<Pair>, k: string, d: Pair, now: int)
    requires Received(w, db, D) && TopClaim(w, D, k, d) && !Dated(d.item) && KeptFirst(w, db, {d})
    requires forall e <- D :: Dated(e.item) ==> EffectiveUpdated(e.item).value < now
    requires forall r <- db.rows :: r.observedAt == now
    ensures k in db.logical && k in KeysOf(db.rows) && RankOfRow(Winner(db.rows, k)).updated == now
  {
    hide ContentHash, ClaimedByAuthor, Winner;
    assert KeptBy(w, db, {d}, d);
    var y :| y in db.rows && Covers(w, db.sources, y, d) && PairOf(db.sources, y) in {d};
    RowExplained(w, db, D, y);
    assert k in KeysOf(db.rows);
    assert AgreesAt(db, k);
    WinnerIsWinner(db.rows, k);
    var x := Winner(db.rows, k);
    RowExplained(w, db, D, x);
    assert AtLeast(x, y) && x.claimed == y.claimed;
  }

  lemma UndatedBreaksOrder(w: World, D: set<Pair>, k: string, d: Pair)
    requires forall e <- D :: ItemKey(e.item) != ""
    requires TopClaim(w, D, k, d) && !Dated(d.item)
    ensures !OrderIrrelevant(w, D, k)
  {
    hide Delivers, Received, Winner, Run, KeptFirst;
    var now := After(D);
    assert {d} <= D;
    var start, ops := DeliverFirst(w, {d}, D, now);
    var start', ops' := DeliverFirst(w, {d}, D, now + 1);
    AllAtOnce(w, start, ops, D, now);
    AllAtOnce(w, start', ops', D, now + 1);
    UndatedWins(w, Run(w, start, ops), D, k, d, now);
    UndatedWins(w, Run(w, start', ops'), D, k, d, now + 1);
    assert !SameOutcome(Run(w, start, ops), Run(w, start', ops'), k);
  }

  ghost predicate AtTheTop(w: World, d: Pair, rank: C.Rank) { Dated(d.item) && RankFor(w, d) == rank }

  ghost function Below(w: World, D: set<Pair>, rank: C.Rank): set<Pair> {
    set d <- D | !AtTheTop(w, d, rank)
  }

  // Delivered first, the unbeaten pair is shown.
  lemma BestFirst(w: World, db: Db, D: set<Pair>, k: string, m: Pair)
    requires Received(w, db, D) && Unbeaten(w, D, k, m) && KeptFirst(w, db, {m})
    ensures ShowsRank(db, k, RankFor(w, m))
  {
    assert KeptBy(w, db, {m}, m);
    var y :| y in db.rows && Covers(w, db.sources, y, m) && PairOf(db.sources, y) in {m};
    hide ContentHash, ClaimedByAuthor, Winner, Received, Unbeaten, RankFor;
    RowExplained(w, db, D, y);
    UnbeatenBasics(w, D, k, m);
    UnbeatenShows(w, db, D, k, m, y);
  }

  lemma SameFeedSameRow(w: World, db: Db, r: Row, s: Row)
    requires WellFormed(w, db) && r in db.rows && s in db.rows
    requires FeedOf(db.sources, r.source) == FeedOf(db.sources, s.source) && r.key == s.key && r.hash == s.hash
    ensures r == s
  {
    assert GoodRow(w, db, r) && GoodRow(w, db, s);
    var a, b := SourceById(db.sources, r.source), SourceById(db.sources, s.source);
    assert a in db.sources && b in db.sources;
  }

  lemma TiedUnbeaten(w: World, D: set<Pair>, k: string, m: Pair, p: Pair)
    requires Unbeaten(w, D, k, m) && p in D && ItemKey(p.item) == k && AtTheTop(w, p, RankFor(w, m))
    ensures Unbeaten(w, D, k, p)
  {
    assert Claim(w, p) == RankFor(w, p).claimed == Claim(w, m);
    hide ClaimedByAuthor, RankFor;
  }

  // A row stands for one of the pairs that came first if it has a twin among them.
  lemma TwinCameFirst(w: World, db: Db, first: set<Pair>, x: Row, q: Pair)
    requires WellFormed(w, db) && x in db.rows && Twins(w, PairOf(db.sources, x), q) && KeptBy(w, db, first, q)
    ensures PairOf(db.sources, x) in first
  {
    hide ContentHash;
    var r :| r in db.rows && Covers(w, db.sources, r, q) && PairOf(db.sources, r) in first;
    assert GoodRow(w, db, x);
    SameFeedSameRow(w, db, r, x);
  }

  lemma UnsettledTwin(w: World, D: set<Pair>, k: string, p: Pair) returns (q: Pair)
    requires Unbeaten(w, D, k, p) && !Settled(w, D, k)
    ensures q in D && Twins(w, p, q) && !AtTheTop(w, q, RankFor(w, p))
  {
    hide RankFor, Twins;
    assert !Settles(w, D, k, p);
    q :| q in D && Twins(w, p, q) && !AtTheTop(w, q, RankFor(w, p));
  }

  lemma TopRow(w: World, db: Db, D: set<Pair>, k: string, m: Pair, x: Row)
    requires Received(w, db, D) && Unbeaten(w, D, k, m) && x in db.rows && x.key == k && RankOfRow(x) == RankFor(w, m)
    ensures Unbeaten(w, D, k, PairOf(db.sources, x)) && AtTheTop(w, PairOf(db.sources, x), RankFor(w, m))
  {
    RowExplained(w, db, D, x);
    RankedRow(w, m, x);
    hide ContentHash, ClaimedByAuthor, Accounted, RankFor;
    TiedUnbeaten(w, D, k, m, PairOf(db.sources, x));
  }

  // Delivered last, it is not shown when each pair of its rank has a twin of another.
  lemma BestLast(w: World, db: Db, D: set<Pair>, k: string, m: Pair)
    requires Received(w, db, D) && Unbeaten(w, D, k, m) && !Settled(w, D, k)
    requires KeptFirst(w, db, Below(w, D, RankFor(w, m)))
    ensures !ShowsRank(db, k, RankFor(w, m))
  {
    var below := Below(w, D, RankFor(w, m));
    assert WellFormed(w, db) && Dated(m.item);
    hide Received, WellFormed, Unbeaten, Settled, RankFor, AtTheTop, Twins, KeptBy;
    if ShowsRank(db, k, RankFor(w, m)) {
      var x := Winner(db.rows, k);
      hide Winner;
      TopRow(w, db, D, k, m, x);
      var q := UnsettledTwin(w, D, k, PairOf(db.sources, x));
      AtTheTopOnce(w, PairOf(db.sources, x), RankFor(w, m));
      TwinCameFirst(w, db, below, x, q);
      assert false;
    }
  }

  lemma AtTheTopOnce(w: World, d: Pair, rank: C.Rank)
    requires AtTheTop(w, d, rank)
    ensures Dated(d.item) && RankFor(w, d) == rank
  {}

  lemma UnsettledBreaksOrder(w: World, D: set<Pair>, k: string, m: Pair)
    requires forall e <- D :: ItemKey(e.item) != ""
    requires Unbeaten(w, D, k, m) && !Settled(w, D, k)
    ensures !OrderIrrelevant(w, D, k)
  {
    UnbeatenBasics(w, D, k, m);
    hide Delivers, Received, Settled, Unbeaten, Winner, Run, KeptFirst, RankFor;
    assert {m} <= D;
    var start, ops := DeliverFirst(w, {m}, D, 0);
    var start', ops' := DeliverFirst(w, Below(w, D, RankFor(w, m)), D, 0);
    BestFirst(w, Run(w, start, ops), D, k, m);
    BestLast(w, Run(w, start', ops'), D, k, m);
    assert !SameOutcome(Run(w, start, ops), Run(w, start', ops'), k);
  }

  lemma {:induction false} Highest(w: World, T: set<Pair>) returns (m: Pair)
    requires T != {} && forall d <- T :: Dated(d.item)
    ensures m in T && forall e <- T :: !Outranks(w, e, m)
    decreases |T|
  {
    hide RankFor, C.Beats;
    var d :| d in T;
    SelfRank(w, d);
    if T == {d} {
      m := d;
    } else {
      var rest := T - {d};
      assert T == rest + {d};
      m := Highest(w, rest);
      if Outranks(w, d, m) {
        forall e | e in T ensures !Outranks(w, e, d) {
          if e != d { BeatenToo(w, d, m, e); }
        }
        m := d;
      }
      assert forall e <- T :: e == d || e in rest;
    }
  }

  lemma SelfRank(w: World, d: Pair)
    requires Dated(d.item)
    ensures !Outranks(w, d, d)
  {
    C.BeatsAsymmetric(AsCandidate(RankFor(w, d)), AsCandidate(RankFor(w, d)));
  }

  lemma BeatenToo(w: World, d: Pair, m: Pair, e: Pair)
    requires Dated(d.item) && Dated(m.item) && Dated(e.item) && Outranks(w, d, m) && !Outranks(w, e, m)
    ensures !Outranks(w, e, d)
  {
    hide RankFor;
    C.BeatsThrough(AsCandidate(RankFor(w, d)), AsCandidate(RankFor(w, m)), AsCandidate(RankFor(w, e)));
    C.BeatsAsymmetric(AsCandidate(RankFor(w, d)), AsCandidate(RankFor(w, e)));
  }

  // Every version that is not outdone by a claim carries a date of its own.
  ghost predicate TopDated(w: World, D: set<Pair>, k: string) {
    forall d <- D :: TopClaim(w, D, k, d) ==> Dated(d.item)
  }

  lemma TopClaimExists(w: World, D: set<Pair>, k: string, d: Pair) returns (c: Pair)
    requires d in D && ItemKey(d.item) == k
    ensures TopClaim(w, D, k, c)
  {
    if e :| e in D && ItemKey(e.item) == k && Claim(w, e) { c := e; } else { c := d; }
  }

  // Among dated top claims there is an unbeaten one.
  lemma UnbeatenExists(w: World, D: set<Pair>, k: string, d: Pair) returns (m: Pair)
    requires d in D && ItemKey(d.item) == k && TopDated(w, D, k)
    ensures Unbeaten(w, D, k, m)
  {
    hide ClaimedByAuthor;
    var T := set e <- D | TopClaim(w, D, k, e);
    var c := TopClaimExists(w, D, k, d);
    assert c in T;
    m := Highest(w, T);
    forall e | e in D && ItemKey(e.item) == k
      ensures if Dated(e.item) then !Outranks(w, e, m) else Claim(w, m) && !Claim(w, e)
    {
      if e !in T { assert !Claim(w, e) && Claim(w, m); }
    }
  }

  // Every two stores that receive the same pairs agree on k, however the deliveries were ordered,
  // batched, repeated and timed, if and only if nothing arrives under k, or some dated pair under
  // k is beaten by nothing and by none of its own twins.
  lemma OrderIrrelevantIff(w: World, D: set<Pair>, k: string)
    requires forall d <- D :: ItemKey(d.item) != ""
    ensures OrderIrrelevant(w, D, k) <==> Settled(w, D, k)
  {
    if Settled(w, D, k) {
      forall start: Db, ops: seq<Op>, start': Db, ops': seq<Op> |
        Delivers(w, start, ops, D) && Delivers(w, start', ops', D)
        ensures SameOutcome(Run(w, start, ops), Run(w, start', ops'), k)
      {
        SamePairsSameOutcome(w, start, ops, D, start', ops', D, k);
      }
    } else if TopDated(w, D, k) {
      var d :| d in D && ItemKey(d.item) == k;
      var m := UnbeatenExists(w, D, k, d);
      UnsettledBreaksOrder(w, D, k, m);
    } else {
      var d :| d in D && TopClaim(w, D, k, d) && !Dated(d.item);
      UndatedBreaksOrder(w, D, k, d);
    }
  }

  // ---- without zero characters ----

  ghost predicate ZeroFreeUnder(D: set<Pair>, k: string) {
    forall d <- D :: ItemKey(d.item) == k ==> ZeroFreeItem(d.item)
  }

  // Twins without zero characters are worth the same.
  lemma TwinsAlike(w: World, d: Pair, e: Pair)
    requires w.Injective() && Twins(w, d, e) && ZeroFreeItem(d.item) && ZeroFreeItem(e.item) && Dated(d.item)
    ensures Dated(e.item) && RankFor(w, e) == RankFor(w, d)
  {
    HashCovers(w, d.item, e.item);
    SamePartsSameColumns(d.item, e.item);
  }

  // There the condition is that every version under k that no claim outdoes is dated.
  lemma ZeroFreeOrderIff(w: World, D: set<Pair>, k: string)
    requires w.Injective() && (forall d <- D :: ItemKey(d.item) != "") && ZeroFreeUnder(D, k)
    ensures OrderIrrelevant(w, D, k) <==> TopDated(w, D, k)
  {
    OrderIrrelevantIff(w, D, k);
    hide OrderIrrelevant, ContentHash, ClaimedByAuthor;
    if TopDated(w, D, k) && exists d <- D :: ItemKey(d.item) == k {
      var d :| d in D && ItemKey(d.item) == k;
      var m := UnbeatenExists(w, D, k, d);
      forall e | e in D && Twins(w, m, e) ensures Dated(e.item) && RankFor(w, e) == RankFor(w, m) {
        TwinsAlike(w, m, e);
      }
      assert Settles(w, D, k, m);
    }
  }

  // Without a date an item's own arrival time stands in for one, and then order does matter:
  // the same two pairs, handed over in the two orders, end with different winners.
  lemma UndatedOrderMatters(w: World)
    requires w.Injective()
    ensures var s := Source(1, "f", false);
            var a := Item("k", true, "", "a", "", "", "", None, None, "", "", None, None, [], []);
            var b := a.(title := "b");
            var start := EMPTY.(sources := [s]);
            var one := Run(w, start, [Deliver(s, "1", [a], 10), Deliver(s, "2", [b], 20)]);
            var two := Run(w, start, [Deliver(s, "2", [b], 10), Deliver(s, "1", [a], 20)]);
            && "k" in KeysOf(one.rows) && Winner(one.rows, "k").item == b
            && "k" in KeysOf(two.rows) && Winner(two.rows, "k").item == a
  {
    var s := Source(1, "f", false);
    var a := Item("k", true, "", "a", "", "", "", None, None, "", "", None, None, [], []);
    var b := a.(title := "b");
    var start := EMPTY.(sources := [s]);
    assert TextParts(a)[0] == "a" && TextParts(b)[0] == "b";
    HashCovers(w, a, b);
    TwoUndated(w, start, s, "1", a, "2", b);
    TwoUndated(w, start, s, "2", b, "1", a);
  }

  lemma TwoUndated(w: World, start: Db, s: Source, x: string, a: Item, y: string, b: Item)
    requires start == EMPTY.(sources := [s]) && ItemKey(a) == ItemKey(b) == "k"
    requires ContentHash(w, a) != ContentHash(w, b) && EffectiveUpdated(a) == EffectiveUpdated(b) == None
    requires ClaimedByAuthor(w, s.feedURL, a, "k") == ClaimedByAuthor(w, s.feedURL, b, "k")
    ensures var db := Run(w, start, [Deliver(s, x, [a], 10), Deliver(s, y, [b], 20)]);
            "k" in KeysOf(db.rows) && Winner(db.rows, "k").item == b
  {
    PairRows(w, start, s, x, a, y, b);
    hide ContentHash, ClaimedByAuthor, Run, Step;
    var r1 := NewRow(w, [], s, w.sha(x), a, 10);
    var r2 := NewRow(w, [r1], s, w.sha(y), b, 20);
    assert r1 in [r1] && r2.id > r1.id;
    LaterWins(r1, r2);
    assert [r1] + [r2] == [r1, r2];
  }

  lemma LaterWins(r1: Row, r2: Row)
    requires 1 <= r1.id < r2.id && r1.key == r2.key && r1.claimed == r2.claimed
    requires CandidateOf(r1).updated < CandidateOf(r2).updated
    ensures r1.key in KeysOf([r1, r2]) && Winner([r1, r2], r1.key) == r2
  {
    C.LexIrreflexive(r2.hash);
    var rows := [r1, r2];
    assert r2 in rows && forall r :: r in rows <==> r == r1 || r == r2;
    assert AtLeast(r2, r1) && !AtLeast(r1, r2) && AtLeast(r2, r2);
    WinnerUnique(rows, r1.key, r2);
  }

  // With a zero character, order matters for dated items too: two of one feed that hash alike
  // keep each other out, and the version shown is of the one that came first.
  lemma TwinOrderMatters(w: World)
    ensures var s := Source(1, "f", false);
            var a := Item("g", true, "l", "", "h\0m", "", "", Some(1), None, "", "", None, None, [], []);
            var b := Item("g", true, "", "", "h", "m", "\0", Some(1), None, "l", "", None, None, [], []);
            var start := EMPTY.(sources := [s]);
            var one := Run(w, start, [Deliver(s, "1", [a], 10), Deliver(s, "2", [b], 20)]);
            var two := Run(w, start, [Deliver(s, "2", [b], 10), Deliver(s, "1", [a], 20)]);
            && "g" in KeysOf(one.rows) && RankOfRow(Winner(one.rows, "g")).fidelity == C.FIDELITY_HTML
            && "g" in KeysOf(two.rows) && RankOfRow(Winner(two.rows, "g")).fidelity == C.FIDELITY_MARKDOWN
  {
    var s := Source(1, "f", false);
    var a := Item("g", true, "l", "", "h\0m", "", "", Some(1), None, "", "", None, None, [], []);
    var b := Item("g", true, "", "", "h", "m", "\0", Some(1), None, "l", "", None, None, [], []);
    var start := EMPTY.(sources := [s]);
    ZeroBreaksHash(w, Some(1));
    hide ContentHash, ClaimedByAuthor, Winner;
    FirstKept(w, start, s, "1", a, "2", b);
    FirstKept(w, start, s, "2", b, "1", a);
  }

  lemma FirstKept(w: World, start: Db, s: Source, x: string, a: Item, y: string, b: Item)
    requires start == EMPTY.(sources := [s]) && ItemKey(a) == ItemKey(b) != "" && ContentHash(w, a) == ContentHash(w, b)
    ensures var db := Run(w, start, [Deliver(s, x, [a], 10), Deliver(s, y, [b], 20)]);
            ItemKey(a) in KeysOf(db.rows) && RankOfRow(Winner(db.rows, ItemKey(a))).fidelity == FidelityOf(a)
  {
    PairRows(w, start, s, x, a, y, b);
    hide ContentHash, ClaimedByAuthor, Run, Step;
    var r1 := NewRow(w, [], s, w.sha(x), a, 10);
    assert r1 in [r1] && Recorded(w, [r1], s.id, b);
    assert Winner([r1], ItemKey(a)) == r1;
  }

  lemma RunTwo(w: World, start: Db, op1: Op, op2: Op)
    ensures Run(w, start, [op1]) == Step(w, start, op1)
    ensures Run(w, start, [op1, op2]) == Step(w, Run(w, start, [op1]), op2)
  {
    hide Step;
    assert [op1][..0] == [] && [op1, op2][..1] == [op1];
  }

  lemma DeliverRow(w: World, db: Db, s: Source, x: string, a: Item, now: int)
    requires s in db.sources && ItemKey(a) != ""
    ensures var after := Step(w, db, Deliver(s, x, [a], now));
            after.rows == Record(w, db.rows, s, w.sha(x), a, now) && after.sources == db.sources
  {
    hide ContentHash, ClaimedByAuthor, Record;
    assert HasId(db.sources, s.id);
    assert [a][..0] == [];
    assert RecordAll(w, db.rows, s, w.sha(x), [], now) == db.rows;
  }

  lemma FirstRow(w: World, start: Db, s: Source, x: string, a: Item, now: int)
    requires start == EMPTY.(sources := [s]) && ItemKey(a) != ""
    ensures var db := Run(w, start, [Deliver(s, x, [a], now)]);
            db.rows == [NewRow(w, [], s, w.sha(x), a, now)] && db.sources == [s]
  {
    hide ContentHash, ClaimedByAuthor, Step;
    RunTwo(w, start, Deliver(s, x, [a], now), Deliver(s, x, [a], now));
    DeliverRow(w, start, s, x, a, now);
    assert [] + [NewRow(w, [], s, w.sha(x), a, now)] == [NewRow(w, [], s, w.sha(x), a, now)];
  }

  lemma PairRows(w: World, start: Db, s: Source, x: string, a: Item, y: string, b: Item)
    requires start == EMPTY.(sources := [s]) && ItemKey(a) != "" && ItemKey(b) != ""
    ensures Run(w, start, [Deliver(s, x, [a], 10), Deliver(s, y, [b], 20)]).rows
         == Record(w, [NewRow(w, [], s, w.sha(x), a, 10)], s, w.sha(y), b, 20)
  {
    hide ContentHash, ClaimedByAuthor, Step, Run, Record, NewRow;
    var op1, op2 := Deliver(s, x, [a], 10), Deliver(s, y, [b], 20);
    FirstRow(w, start, s, x, a, 10);
    RunTwo(w, start, op1, op2);
    DeliverRow(w, Run(w, start, [op1]), s, y, b, 20);
  }
}
