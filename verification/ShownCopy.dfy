// What the store shows, in terms of the columns of its rows alone: which copy of an item, whose
// it is taken to be, and what the search finds it by.
module ShownCopy {
  import opened Common
  import opened Feed
  import opened Ingest
  import opened IngestView
  import C = Convergence
  import Text

  // ---- the better copy ----

  // A copy counts with its own time of update, else of publication, else of arrival.
  function CountedTime(r: Row): int {
    if r.item.updated.Some? then r.item.updated.value
    else if r.item.published.Some? then r.item.published.value
    else r.observedAt
  }

  // The same prefix, and then an end or a smaller byte.
  ghost predicate Smaller(a: seq<byte>, b: seq<byte>) {
    exists n: nat :: n <= |a| && n < |b| && a[..n] == b[..n] && (n == |a| || a[n] < b[n])
  }

  // Both come as Markdown, or neither does and both or neither come as HTML.
  predicate SameKind(x: Item, y: Item) {
    && (x.markdown != "" <==> y.markdown != "")
    && (x.markdown == "" ==> (x.html != "" <==> y.html != ""))
  }

  // x is no worse than r: claimed rather than not, then later, then Markdown rather than HTML
  // rather than nothing, then with more enclosures, then with the smaller hash, then older.
  ghost predicate NoWorse(x: Row, r: Row) {
    && (r.claimed ==> x.claimed)
    && (r.claimed == x.claimed ==>
          && CountedTime(r) <= CountedTime(x)
          && (CountedTime(r) == CountedTime(x) ==>
                && (r.item.markdown != "" ==> x.item.markdown != "")
                && (r.item.html != "" ==> x.item.markdown != "" || x.item.html != "")
                && (SameKind(r.item, x.item) ==>
                      && |r.item.enclosures| <= |x.item.enclosures|
                      && (|r.item.enclosures| == |x.item.enclosures| ==>
                            && !Smaller(r.hash, x.hash)
                            && (r.hash == x.hash ==> x.id <= r.id)))))
  }

  lemma {:induction false} LexIsSmaller(a: seq<byte>, b: seq<byte>)
    ensures C.LexLess(a, b) <==> Smaller(a, b)
    decreases |a|
  {
    if a == [] || b == [] {
      assert a[..0] == b[..0];
    } else if a[0] != b[0] {
      assert a[..0] == b[..0];
      assert forall n: nat :: 0 < n <= |a| && n < |b| ==> a[..n][0] == a[0] && b[..n][0] == b[0];
    } else {
      LexIsSmaller(a[1..], b[1..]);
      if Smaller(a[1..], b[1..]) {
        var n: nat :| n <= |a[1..]| && n < |b[1..]| && a[1..][..n] == b[1..][..n] && (n == |a[1..]| || a[1..][n] < b[1..][n]);
        assert a[..n + 1] == [a[0]] + a[1..][..n] && b[..n + 1] == [b[0]] + b[1..][..n];
        assert n + 1 == |a| || a[n + 1] < b[n + 1];
      }
      if Smaller(a, b) {
        var n: nat :| n <= |a| && n < |b| && a[..n] == b[..n] && (n == |a| || a[n] < b[n]);
        assert n > 0;
        assert a[1..][..n - 1] == a[..n][1..] && b[1..][..n - 1] == b[..n][1..];
        assert n - 1 == |a[1..]| || a[1..][n - 1] < b[1..][n - 1];
      }
    }
  }

  lemma AtLeastNoWorse(x: Row, r: Row)
    requires x.fidelity == FidelityOf(x.item) && r.fidelity == FidelityOf(r.item)
    requires AtLeast(x, r) && (AtLeast(r, x) ==> x.id <= r.id)
    ensures NoWorse(x, r)
  {
    LexIsSmaller(r.hash, x.hash);
    C.LexIrreflexive(x.hash);
    hide Smaller, C.LexLess;
  }

  // In every run, the row that logical_item names for a key is no worse than any row of that key.
  lemma BestCopyShown(w: World, ops: seq<Op>, k: string, x: Row, r: Row)
    requires var db := Run(w, EMPTY, ops);
             && x in db.rows && r in db.rows && x.key == k == r.key
             && k in db.logical && x.id == db.logical[k].winner
    ensures NoWorse(x, r)
  {
    EveryRunAgrees(w, ops);
    var db := Run(w, EMPTY, ops);
    assert AgreesAt(db, k) && GoodRow(w, db, x) && GoodRow(w, db, r);
    WinnerIsWinner(db.rows, k);
    var winner := Winner(db.rows, k);
    SameIdSameRow(db.rows, x, winner);
    hide Winner, NoWorse, AtLeast;
    AtLeastNoWorse(x, r);
  }

  // A Markdown copy and an HTML copy of the same date, neither claimed: the Markdown copy wins
  // whichever comes first.
  lemma MarkdownWins()
    ensures var html := C.Candidate(1, false, 100, 1, 0, []);
            var md := C.Candidate(2, false, 100, 2, 0, []);
            && C.Resolved([html, md]) == C.Resolved([md, html]) == Ok(C.Resolution(md, C.Fidelity))
  {
    var html := C.Candidate(1, false, 100, 1, 0, []);
    var md := C.Candidate(2, false, 100, 2, 0, []);
    assert [html, md][..1] == [html] && [md, html][..1] == [md];
    assert C.BestAt([html, md]) == 1 && C.BestAt([md, html]) == 0;
    assert C.Without([html, md], 1) == [html] && C.Without([md, html], 0) == [html];
  }

  // What the reported reason says of a pair of copies.
  lemma ReasonTells(x: Row, r: Row)
    requires x.fidelity == FidelityOf(x.item) && r.fidelity == FidelityOf(r.item)
    ensures var reason := C.Beats(CandidateOf(x), CandidateOf(r)).1;
            && (reason == C.AuthorOrigin <==> x.claimed != r.claimed)
            && (reason == C.Newer <==> x.claimed == r.claimed && CountedTime(x) != CountedTime(r))
            && (reason == C.Fidelity <==>
                  x.claimed == r.claimed && CountedTime(x) == CountedTime(r) && !SameKind(x.item, r.item))
            && (reason == C.Attachments <==>
                  && x.claimed == r.claimed && CountedTime(x) == CountedTime(r) && SameKind(x.item, r.item)
                  && |x.item.enclosures| != |r.item.enclosures|)
  {}

  // ---- whose it is taken to be ----

  function Bare(host: string): string { if |host| >= 4 && host[..4] == "www." then host[4..] else host }

  // Its key or its link is on the site of the feed, "www." aside.
  predicate OnSite(w: World, feedURL: string, key: string, link: string) {
    && w.host(feedURL) != ""
    && ((w.host(key) != "" && Bare(w.host(key)) == Bare(w.host(feedURL)))
        || (w.host(link) != "" && Bare(w.host(link)) == Bare(w.host(feedURL))))
  }

  lemma ClaimedOnSite(w: World, feedURL: string, item: Item, key: string)
    ensures ClaimedByAuthor(w, feedURL, item, key) <==> OnSite(w, feedURL, key, item.link)
  {}

  // The row's columns are what its source delivered: the feed's own item, claimed if on its site.
  ghost predicate RowTells(w: World, db: Db, r: Row) {
    exists s <- db.sources :: s.id == r.source && (r.claimed <==> OnSite(w, s.feedURL, r.key, r.item.link))
  }

  ghost predicate AllTell(w: World, db: Db) { forall r <- db.rows :: RowTells(w, db, r) }

  predicate FromOwn(db: Db, op: Op) { op.Deliver? ==> op.source in db.sources }

  lemma {:induction false} RecordAllTells(w: World, db: Db, source: Source, payload: seq<byte>, items: seq<Item>, now: int)
    requires AllTell(w, db) && source in db.sources
    ensures AllTell(w, db.(rows := RecordAll(w, db.rows, source, payload, items, now)))
  {
    hide OnSite, ContentHash;
    if items != [] {
      var n := |items| - 1;
      RecordAllTells(w, db, source, payload, items[..n], now);
      var before := RecordAll(w, db.rows, source, payload, items[..n], now);
      var after := RecordAll(w, db.rows, source, payload, items, now);
      ClaimedOnSite(w, source.feedURL, items[n], ItemKey(items[n]));
      var t := db.(rows := before);
      forall r | r in after ensures RowTells(w, db.(rows := after), r) {
        if r in before {
          assert RowTells(w, t, r);
        } else {
          assert r == NewRow(w, before, source, payload, items[n], now);
        }
      }
    }
  }

  lemma SourcesStayTell(w: World, a: Db, b: Db)
    requires AllTell(w, a) && (forall r <- b.rows :: r in a.rows)
    requires forall r <- b.rows, s <- a.sources :: s.id == r.source ==>
      exists t <- b.sources :: t.id == s.id && t.feedURL == s.feedURL
    ensures AllTell(w, b)
  {
    hide OnSite;
    forall r | r in b.rows ensures RowTells(w, b, r) {
      assert RowTells(w, a, r);
    }
  }

  lemma DeliverTells(w: World, db: Db, op: Op)
    requires Inv(w, db) && AllTell(w, db) && op.Deliver? && op.source in db.sources
    ensures AllTell(w, Step(w, db, op))
  {
    assert HasId(db.sources, op.source.id);
    RecordAllTells(w, db, op.source, w.sha(op.body), op.items, op.now);
    var t := db.(rows := RecordAll(w, db.rows, op.source, w.sha(op.body), op.items, op.now));
    var after := Step(w, db, op);
    assert after.rows == t.rows && after.sources == t.sources;
    hide OnSite, Step, RecordAll;
    forall r | r in after.rows ensures RowTells(w, after, r) { assert RowTells(w, t, r); }
  }

  lemma MarkTells(w: World, db: Db, id: nat, isLocal: bool)
    requires AllTell(w, db)
    ensures AllTell(w, db.(sources := Mark(db.sources, id, isLocal)))
  {
    hide OnSite;
    var after := db.(sources := Mark(db.sources, id, isLocal));
    forall r, s | r in after.rows && s in db.sources && s.id == r.source
      ensures exists t <- after.sources :: t.id == s.id && t.feedURL == s.feedURL
    {
      var i :| 0 <= i < |db.sources| && db.sources[i] == s;
      assert after.sources[i] in after.sources;
    }
    SourcesStayTell(w, db, after);
  }

  lemma StepTells(w: World, db: Db, op: Op)
    requires Inv(w, db) && AllTell(w, db) && FromOwn(db, op)
    ensures AllTell(w, Step(w, db, op))
  {
    match op {
      case Deliver(_, _, _, _) => DeliverTells(w, db, op);
      case AddSource(url) => SourcesStayTell(w, db, AddSourceStep(db, url).0);
      case EnsureLocal(url) =>
        SourcesStayTell(w, db, AddSourceStep(db, url).0);
        MarkTells(w, AddSourceStep(db, url).0, AddSourceStep(db, url).1.id, true);
      case EnsureFederated(url) =>
        SourcesStayTell(w, db, AddSourceStep(db, url).0);
        MarkTells(w, AddSourceStep(db, url).0, AddSourceStep(db, url).1.id, false);
      case Remove(id, now) => RemoveTells(w, db, id, now);
      case Purge(_) => SourcesStayTell(w, db, Step(w, db, op));
    }
  }

  lemma RemoveTells(w: World, db: Db, id: nat, now: int)
    requires AllTell(w, db)
    ensures AllTell(w, RemoveStep(db, id, now).0)
  {
    var after := RemoveStep(db, id, now).0;
    if HasId(db.sources, id) && !SourceById(db.sources, id).isLocal {
      assert after.rows == Except(db.rows, id) && after.sources == Drop(db.sources, id);
    }
    SourcesStayTell(w, db, after);
  }

  ghost predicate OwnDeliveries(w: World, ops: seq<Op>) {
    forall n :: 0 <= n < |ops| ==> FromOwn(Run(w, EMPTY, ops[..n]), ops[n])
  }

  // In every run, every row belongs to a source, and is claimed exactly when its key or its link
  // is on the site of that source's feed.
  lemma {:induction false} EveryRowTells(w: World, ops: seq<Op>)
    requires OwnDeliveries(w, ops)
    ensures AllTell(w, Run(w, EMPTY, ops))
  {
    hide RowTells, Step;
    if ops != [] {
      var n := |ops| - 1;
      forall i | 0 <= i < n ensures FromOwn(Run(w, EMPTY, ops[..n][..i]), ops[..n][i]) {
        assert ops[..n][..i] == ops[..i];
      }
      EveryRowTells(w, ops[..n]);
      EveryRunAgrees(w, ops[..n]);
      StepTells(w, Run(w, EMPTY, ops[..n]), ops[n]);
    }
  }

  // ---- what it is found by ----

  // In every run the search finds a key by the title of the row shown, by its Markdown or else the
  // words of its HTML, and by its author or else the name of where it came from; and the item
  // cached for it carries that row's dates and reply address.
  lemma FoundBy(w: World, ops: seq<Op>, k: string, x: Row)
    requires var db := Run(w, EMPTY, ops);
             x in db.rows && x.key == k && k in db.logical && x.id == db.logical[k].winner
    ensures var db := Run(w, EMPTY, ops);
            && k in db.search
            && db.search[k].title == x.item.title
            && db.search[k].body == (if x.item.markdown != "" then x.item.markdown else StripTags(x.item.html))
            && (x.item.author != "" ==> db.search[k].author == x.item.author)
            && (x.item.author == "" && x.item.source.Some? ==> db.search[k].author == x.item.source.value.name)
            && (x.item.author == "" && x.item.source.None? ==> db.search[k].author == "")
            && db.logical[k].published == x.item.published && db.logical[k].inReplyTo == x.item.inReplyTo
            && db.logical[k].updated == (if x.item.updated.Some? then x.item.updated else x.item.published)
  {
    EveryRunAgrees(w, ops);
    var db := Run(w, EMPTY, ops);
    assert AgreesAt(db, k);
    SameIdSameRow(db.rows, x, Winner(db.rows, k));
  }

  // A tag counts as white space, and what stands between the tags is kept.
  lemma {:induction false} TagDropped(before: string, tag: string, rest: string)
    requires '<' !in before && '<' !in tag && '>' !in tag
    ensures DropTags(before + "<" + tag + ">" + rest, 0) == before + " " + DropTags(rest, 0)
  {
    if before == "" {
      InsideTag(tag, rest);
      assert before + "<" + tag + ">" + rest == "<" + (tag + ">" + rest);
      assert before + " " + DropTags(rest, 0) == " " + DropTags(rest, 0);
    } else {
      var all := before + "<" + tag + ">" + rest;
      assert before[0] in before && forall c <- before[1..] :: c in before;
      assert all[0] == before[0] && all[1..] == before[1..] + "<" + tag + ">" + rest;
      TagDropped(before[1..], tag, rest);
      assert [before[0]] + (before[1..] + " " + DropTags(rest, 0)) == before + " " + DropTags(rest, 0);
    }
  }

  lemma {:induction false} InsideTag(tag: string, rest: string)
    requires '<' !in tag && '>' !in tag
    ensures DropTags(tag + ">" + rest, 1) == " " + DropTags(rest, 0)
  {
    var all := tag + ">" + rest;
    if tag == "" {
      assert all[0] == '>' && all[1..] == rest;
    } else {
      assert tag[0] in tag && forall c <- tag[1..] :: c in tag;
      assert all[0] == tag[0] && all[1..] == tag[1..] + ">" + rest;
      InsideTag(tag[1..], rest);
    }
  }

  lemma {:induction false} NoTags(html: string)
    requires '<' !in html
    ensures DropTags(html, 0) == html && StripTags(html) == Text.JoinFields(Text.Fields(html))
  {
    if html != "" {
      assert html[0] in html && forall c <- html[1..] :: c in html;
      NoTags(html[1..]);
      assert [html[0]] + html[1..] == html;
    }
  }
}
