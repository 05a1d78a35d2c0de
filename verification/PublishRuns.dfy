// The timeline always shows the current version of a public post.
module PublishRuns {
  import opened Common
  import opened Feed
  import opened Ingest
  import opened IngestView
  import opened IngestRuns
  import opened IngestOrder
  import opened Publish
  import C = Convergence
  import Text

  datatype Act =
    | Create(account: Member, title: string, source: string, inReplyTo: string, visibility: string, now: int)
    | Update(account: Member, id: nat, title: string, source: string, now: int)
    | AttachAndRefresh(id: nat, files: seq<Placement>, now: int)
    | Elsewhere(op: Op)

  function ActStep(w: World, site: Site, j: Journal, act: Act): Journal {
    match act
    case Create(account, title, source, inReplyTo, visibility, now) =>
      CreateStep(w, site, j, account, title, source, inReplyTo, visibility, now).0
    case Update(account, id, title, source, now) => UpdateStep(w, site, j, account, id, title, source, now).0
    case AttachAndRefresh(id, files, now) => RefreshStep(w, site, AttachAll(j, id, files), id, now).0
    case Elsewhere(op) => j.(db := Step(w, j.db, op))
  }

  function ActAll(w: World, site: Site, j: Journal, acts: seq<Act>): Journal {
    if acts == [] then j
    else ActStep(w, site, ActAll(w, site, j, acts[..|acts| - 1]), acts[|acts| - 1])
  }

  // The post that is followed through a run, and its author.
  datatype Focus = Focus(id: nat, handle: string)

  predicate IsFocus(f: Focus, p: Post) { p.id == f.id && p.handle == f.handle }

  // The address of the post and that of its author's feed have a host name in common.
  predicate Hosted(w: World, site: Site, f: Focus) {
    SharesSite(w, site.AccountFeedURL(f.handle), site.PostURL(f.id))
  }

  // What may happen: anything, except that the post is created before 1970, that somebody passes
  // off an item under its address as coming from its author's site, or registers its author's
  // feed as a remote actor. All other posts, their addresses and authors are free.
  ghost predicate Honest(w: World, site: Site, f: Focus, j: Journal, act: Act) {
    && (act.Create? && NextPostId(j.posts) == f.id && act.account.handle == f.handle ==> act.now >= 0)
    && (act.Elsewhere? && act.op.Deliver? ==>
          && act.op.source in j.db.sources
          && forall item <- act.op.items :: ItemKey(item) == site.PostURL(f.id)
               ==> !ClaimedByAuthor(w, act.op.source.feedURL, item, ItemKey(item)))
    && (act.Elsewhere? && act.op.EnsureFederated? ==> act.op.url != site.AccountFeedURL(f.handle))
  }

  ghost predicate HonestRun(w: World, site: Site, f: Focus, acts: seq<Act>) {
    forall n :: 0 <= n < |acts| ==> Honest(w, site, f, ActAll(w, site, BLANK, acts[..n]), acts[n])
  }

  function Stamp(item: Item): int
    requires Dated(item)
  {
    EffectiveUpdated(item).value
  }

  function Current(w: World, site: Site, p: Post): C.Rank {
    RankFor(w, Pair(site.AccountFeedURL(p.handle), ItemOf(site, p)))
  }

  // An earlier version of the post, told apart from the current one by its time or its size.
  ghost predicate Earlier(w: World, r: Row, item: Item)
    requires Dated(item)
  {
    && Dated(r.item)
    && (|| Stamp(r.item) < Stamp(item)
        || (&& Stamp(r.item) == Stamp(item) && FidelityOf(r.item) == FidelityOf(item)
            && |r.item.enclosures| < |item.enclosures|
            && |Preimage(w, r.item)| < |Preimage(w, item)|))
  }

  ghost predicate Dominated(w: World, site: Site, rows: seq<Row>, p: Post) {
    forall r <- rows :: r.key == p.guid && r.claimed ==>
      RankOfRow(r) == Current(w, site, p) || Earlier(w, r, ItemOf(site, p))
  }

  // The row belongs to the local feed of this account.
  ghost predicate OwnedBy(site: Site, sources: seq<Source>, r: Row, handle: string) {
    && HasId(sources, r.source) && SourceById(sources, r.source).isLocal
    && SourceById(sources, r.source).feedURL == site.AccountFeedURL(handle)
  }

  ghost predicate Present(w: World, site: Site, db: Db, p: Post) {
    exists r <- db.rows ::
      r.key == p.guid && RankOfRow(r) == Current(w, site, p) && OwnedBy(site, db.sources, r, p.handle)
  }

  ghost predicate SoundPost(site: Site, p: Post) {
    && p.guid == site.PostURL(p.id) && p.markdown != "" && p.published >= 0
    && (p.updated.Some? ==> p.updated.value > p.published)
  }

  ghost predicate OrderedPosts(posts: seq<Post>) {
    forall i, j :: 0 <= i < j < |posts| ==> posts[i].id < posts[j].id
  }

  ghost predicate Shown(w: World, site: Site, db: Db, p: Post) {
    p.visibility.Public? ==> Dominated(w, site, db.rows, p) && Present(w, site, db, p)
  }

  // Nothing claims the address of the post unless it is public.
  ghost predicate Unclaimed(w: World, site: Site, f: Focus, j: Journal) {
    forall r <- j.db.rows :: r.key == site.PostURL(f.id) && r.claimed ==> exists p <- j.posts :: p.id == f.id && p.visibility.Public?
  }

  // Every row's claim is the one its source's address earns it.
  ghost predicate ClaimsMatch(w: World, db: Db) {
    forall r <- db.rows :: r.claimed == ClaimedByAuthor(w, FeedOf(db.sources, r.source), r.item, r.key)
  }

  ghost predicate Addressed(site: Site, posts: seq<Post>) {
    OrderedPosts(posts) && forall p <- posts :: p.guid == site.PostURL(p.id)
  }

  ghost predicate Good(w: World, site: Site, f: Focus, j: Journal) {
    && Inv(w, j.db) && ClaimsMatch(w, j.db) && Addressed(site, j.posts)
    && (forall p <- j.posts :: IsFocus(f, p) ==> SoundPost(site, p) && Shown(w, site, j.db, p))
    && Unclaimed(w, site, f, j)
  }

  // ---- the hash tells versions apart ----

  lemma {:induction false} TerminatedEndsInZero(parts: seq<string>)
    requires parts != []
    ensures Terminated(parts) != "" && Terminated(parts)[|Terminated(parts)| - 1] == '\0'
  {
    if |parts| > 1 {
      TerminatedEndsInZero(parts[1..]);
    }
  }

  lemma SuffixNoShorter(a: seq<string>, x: string, b: seq<string>, y: string)
    requires a != [] && ZeroFree(y) && Terminated(a) + x == Terminated(b) + y
    ensures |x| >= |y|
  {
    var s := Terminated(a) + x;
    TerminatedEndsInZero(a);
    var last := |Terminated(a)| - 1;
    assert s[last] == '\0';
    assert forall k :: |Terminated(b)| <= k < |s| ==> s[k] == y[k - |Terminated(b)|];
  }

  lemma PreimageFixesStamp(w: World, a: Item, b: Item)
    requires w.Injective() && Preimage(w, a) == Preimage(w, b)
    ensures EffectiveUpdated(a) == EffectiveUpdated(b)
  {
    var p, q := TextParts(a) + EnclosureParts(a.enclosures), TextParts(b) + EnclosureParts(b.enclosures);
    var x, y := w.stamp(EffectiveUpdated(a)), w.stamp(EffectiveUpdated(b));
    SuffixNoShorter(p, x, q, y);
    SuffixNoShorter(q, y, p, x);
    var s := Terminated(p) + x;
    assert x == s[|s| - |x|..] && y == s[|s| - |y|..];
  }

  lemma {:induction false} EnclosurePartsInsert(before: seq<Enclosure>, e: Enclosure, after: seq<Enclosure>)
    ensures |Terminated(EnclosureParts(before + [e] + after))| > |Terminated(EnclosureParts(before + after))|
  {
    if before == [] {
      assert before + [e] + after == [e] + after && before + after == after;
      assert ([e] + after)[1..] == after;
      TerminatedAppend([e.url, e.kind, Text.Itoa(e.length)], EnclosureParts(after));
    } else {
      var head := [before[0].url, before[0].kind, Text.Itoa(before[0].length)];
      assert (before + [e] + after)[1..] == before[1..] + [e] + after;
      assert (before + after)[1..] == before[1..] + after;
      TerminatedAppend(head, EnclosureParts(before[1..] + [e] + after));
      TerminatedAppend(head, EnclosureParts(before[1..] + after));
      EnclosurePartsInsert(before[1..], e, after);
    }
  }

  lemma AttachingGrows(w: World, site: Site, p: Post, file: File, at: nat)
    requires at <= |p.media| && file !in p.media
    ensures var a, b := ItemOf(site, p), ItemOf(site, Attached(p, file, at));
            && |a.enclosures| < |b.enclosures| && |Preimage(w, a)| < |Preimage(w, b)|
            && EffectiveUpdated(a) == EffectiveUpdated(b) && FidelityOf(a) == FidelityOf(b)
  {
    var a, b := ItemOf(site, p), ItemOf(site, Attached(p, file, at));
    var e := Enclosure(site.base + file.url, file.kind, file.bytes);
    assert a.enclosures == a.enclosures[..at] + a.enclosures[at..];
    assert b.enclosures == a.enclosures[..at] + [e] + a.enclosures[at..];
    EnclosurePartsInsert(a.enclosures[..at], e, a.enclosures[at..]);
    assert TextParts(a) == TextParts(b);
    TerminatedAppend(TextParts(a), EnclosureParts(a.enclosures));
    TerminatedAppend(TextParts(b), EnclosureParts(b.enclosures));
  }

  // A row of the current rank holds exactly what the current version hashes to.
  lemma CurrentRow(w: World, site: Site, r: Row, p: Post)
    requires w.Injective() && r.hash == ContentHash(w, r.item) && r.fidelity == FidelityOf(r.item)
    requires RankOfRow(r) == Current(w, site, p)
    ensures Preimage(w, r.item) == Preimage(w, ItemOf(site, p))
    ensures EffectiveUpdated(r.item) == EffectiveUpdated(ItemOf(site, p))
    ensures |r.item.enclosures| == |p.media| && FidelityOf(r.item) == FidelityOf(ItemOf(site, p))
  {
    PreimageFixesStamp(w, r.item, ItemOf(site, p));
  }

  // ---- projecting ----

  lemma SourceByIdUnique(sources: seq<Source>, s: Source)
    requires OrderedSources(sources) && s in sources
    ensures HasId(sources, s.id) && SourceById(sources, s.id) == s
  {}

  // Sources are added or marked, none is taken away; only those at the lost addresses may stop
  // being local.
  ghost predicate SourcesGrow(a: seq<Source>, b: seq<Source>, lost: set<string>) {
    && |a| <= |b|
    && forall i :: 0 <= i < |a| ==>
         b[i].id == a[i].id && b[i].feedURL == a[i].feedURL && (a[i].isLocal && a[i].feedURL !in lost ==> b[i].isLocal)
  }

  lemma GrowKeeps(a: seq<Source>, b: seq<Source>, lost: set<string>, id: nat)
    requires OrderedSources(a) && OrderedSources(b) && SourcesGrow(a, b, lost) && HasId(a, id)
    ensures HasId(b, id) && FeedOf(b, id) == FeedOf(a, id)
    ensures SourceById(b, id).feedURL == SourceById(a, id).feedURL
    ensures SourceById(a, id).isLocal && SourceById(a, id).feedURL !in lost ==> SourceById(b, id).isLocal
  {
    var i :| 0 <= i < |a| && a[i].id == id;
    SourceByIdUnique(a, a[i]);
    SourceByIdUnique(b, b[i]);
  }

  lemma AddSourceFrame(db: Db, url: string)
    requires OrderedSources(db.sources)
    ensures var (after, source) := AddSourceStep(db, url);
            && OrderedSources(after.sources) && SourcesGrow(db.sources, after.sources, {})
            && after == db.(sources := after.sources)
            && source in after.sources && source.feedURL == url
  {
    if !HasURL(db.sources, url) {
      var added := Source(NextSourceId(db.sources), url, false);
      var all := db.sources + [added];
      assert all[|db.sources|] == added;
      forall i | 0 <= i < |db.sources| ensures all[i].id < added.id && all[i].feedURL != url {
        assert all[i] == db.sources[i] && db.sources[i] in db.sources;
      }
    }
  }

  lemma MarkFrame(sources: seq<Source>, source: Source, isLocal: bool)
    requires OrderedSources(sources) && source in sources
    ensures OrderedSources(Mark(sources, source.id, isLocal))
    ensures SourcesGrow(sources, Mark(sources, source.id, isLocal), if isLocal then {} else {source.feedURL})
    ensures source.(isLocal := isLocal) in Mark(sources, source.id, isLocal)
  {
    var i :| 0 <= i < |sources| && sources[i] == source;
    assert Mark(sources, source.id, isLocal)[i] == source.(isLocal := isLocal);
  }

  lemma EnsureFrame(db: Db, url: string, isLocal: bool)
    requires OrderedSources(db.sources)
    ensures var (after, source) := EnsureStep(db, url, isLocal);
            && OrderedSources(after.sources) && SourcesGrow(db.sources, after.sources, if isLocal then {} else {url})
            && after == db.(sources := after.sources)
            && source in after.sources && source.isLocal == isLocal && source.feedURL == url
  {
    hide AddSourceStep, Mark;
    AddSourceFrame(db, url);
    var (added, first) := AddSourceStep(db, url);
    MarkFrame(added.sources, first, isLocal);
  }

  lemma ProjectRows(w: World, site: Site, db: Db, p: Post, now: int)
    requires OrderedSources(db.sources) && p.guid != ""
    ensures var (ready, source) := EnsureLocalStep(db, site.AccountFeedURL(p.handle));
            var after := Project(w, site, db, p, now);
            && after.sources == ready.sources
            && after.rows == Record(w, db.rows, source, w.sha(p.markdown), ItemOf(site, p), now)
  {
    var (ready, source) := EnsureLocalStep(db, site.AccountFeedURL(p.handle));
    EnsureFrame(db, site.AccountFeedURL(p.handle), true);
    assert HasId(ready.sources, source.id);
    var item := ItemOf(site, p);
    assert [item][..0] == [];
    assert RecordAll(w, db.rows, source, w.sha(p.markdown), [item], now)
        == Record(w, db.rows, source, w.sha(p.markdown), item, now);
  }

  lemma NotEarlierOfItself(w: World, r: Row, item: Item)
    requires w.Injective() && r.hash == ContentHash(w, r.item) && Dated(item)
    requires r.hash == ContentHash(w, item)
    ensures !Earlier(w, r, item)
  {
    PreimageFixesStamp(w, r.item, item);
  }

  lemma RecordShows(w: World, site: Site, sources: seq<Source>, rows: seq<Row>, source: Source, p: Post, now: int)
    requires w.Injective() && SharesSite(w, site.AccountFeedURL(p.handle), p.guid)
    requires p.guid != "" && source.feedURL == site.AccountFeedURL(p.handle)
    requires HasId(sources, source.id) && SourceById(sources, source.id) == source
    requires forall r <- rows ::
      && r.hash == ContentHash(w, r.item)
      && (r.source == source.id ==> r.claimed == ClaimedByAuthor(w, source.feedURL, r.item, r.key))
    requires Dominated(w, site, rows, p)
    ensures var after := Record(w, rows, source, w.sha(p.markdown), ItemOf(site, p), now);
            && Dominated(w, site, after, p)
            && exists r <- after :: r.key == p.guid && r.source == source.id && RankOfRow(r) == Current(w, site, p)
  {
    var item := ItemOf(site, p);
    var after := Record(w, rows, source, w.sha(p.markdown), item, now);
    hide ContentHash, ClaimedByAuthor;
    if Recorded(w, rows, source.id, item) {
      var r :| r in rows && r.source == source.id && r.key == p.guid && r.hash == ContentHash(w, item);
      NotEarlierOfItself(w, r, item);
      SharedIsClaimed(w, source.feedURL, r.item, r.key);
    } else {
      var added := NewRow(w, rows, source, w.sha(p.markdown), item, now);
      assert after == rows + [added] && added in after;
    }
  }

  lemma SharedIsClaimed(w: World, url: string, item: Item, key: string)
    requires SharesSite(w, url, key)
    ensures ClaimedByAuthor(w, url, item, key)
  {}

  // Projecting a version that everything claimed so far is a version of, or earlier than, makes
  // it present and leaves it dominating.
  lemma ProjectShows(w: World, site: Site, db: Db, p: Post, now: int)
    requires w.Injective() && Inv(w, db) && ClaimsMatch(w, db)
    requires p.guid != "" && SharesSite(w, site.AccountFeedURL(p.handle), p.guid) && Dominated(w, site, db.rows, p)
    ensures var after := Project(w, site, db, p, now);
            && Inv(w, after) && ClaimsMatch(w, after)
            && Dominated(w, site, after.rows, p) && Present(w, site, after, p)
  {
    var url := site.AccountFeedURL(p.handle);
    var (ready, source) := EnsureLocalStep(db, url);
    var after := Project(w, site, db, p, now);
    EnsureKeepsInv(w, db, url, true);
    EnsureFrame(db, url, true);
    IngestKeepsInv(w, ready, source, p.markdown, [ItemOf(site, p)], now);
    ProjectRows(w, site, db, p, now);
    SourceByIdUnique(ready.sources, source);
    ProjectClaims(w, site, db, p, now);
    forall r | r in db.rows
      ensures r.hash == ContentHash(w, r.item)
           && (r.source == source.id ==> r.claimed == ClaimedByAuthor(w, url, r.item, r.key))
    {
      RowBasics(w, db, r);
      GrowKeeps(db.sources, ready.sources, {}, r.source);
    }
    hide Inv, ClaimsMatch, Dominated, Record, IngestStep, EnsureLocalStep, Project, ContentHash, ClaimedByAuthor;
    RecordShows(w, site, ready.sources, db.rows, source, p, now);
  }

  lemma RowBasics(w: World, db: Db, r: Row)
    requires Inv(w, db) && r in db.rows
    ensures HasId(db.sources, r.source) && r.hash == ContentHash(w, r.item) && r.key != ""
    ensures r.fidelity == FidelityOf(r.item) && r.key == ItemKey(r.item) && r.payload in db.payloads
    ensures OrderedSources(db.sources)
  {
    assert GoodRow(w, db, r);
  }

  lemma ProjectClaims(w: World, site: Site, db: Db, p: Post, now: int)
    requires Inv(w, db) && ClaimsMatch(w, db) && p.guid != ""
    ensures ClaimsMatch(w, Project(w, site, db, p, now))
  {
    var url := site.AccountFeedURL(p.handle);
    var (ready, source) := EnsureLocalStep(db, url);
    EnsureFrame(db, url, true);
    ProjectRows(w, site, db, p, now);
    SourceByIdUnique(ready.sources, source);
    var after := Project(w, site, db, p, now);
    forall r | r in after.rows
      ensures r.claimed == ClaimedByAuthor(w, FeedOf(after.sources, r.source), r.item, r.key)
    {
      if r in db.rows {
        RowBasics(w, db, r);
        GrowKeeps(db.sources, ready.sources, {}, r.source);
      }
    }
  }

  // ---- the other posts ----

  lemma PostURLInjective(site: Site, a: nat, b: nat)
    requires site.PostURL(a) == site.PostURL(b)
    ensures a == b
  {
    var n := |site.base + "/p/"|;
    assert site.PostURL(a)[n..] == Text.Itoa(a) && site.PostURL(b)[n..] == Text.Itoa(b);
    Text.ItoaInjective(a, b);
  }

  lemma PresentStays(w: World, site: Site, db: Db, after: Db, q: Post)
    requires Present(w, site, db, q) && db.rows <= after.rows
    requires OrderedSources(db.sources) && OrderedSources(after.sources) && SourcesGrow(db.sources, after.sources, {})
    ensures Present(w, site, after, q)
  {
    var r :| r in db.rows && r.key == q.guid && RankOfRow(r) == Current(w, site, q)
      && OwnedBy(site, db.sources, r, q.handle);
    GrowKeeps(db.sources, after.sources, {}, r.source);
    assert r in after.rows;
  }

  lemma ProjectAdds(w: World, site: Site, db: Db, p: Post, now: int)
    requires OrderedSources(db.sources) && p.guid != ""
    ensures var after := Project(w, site, db, p, now);
            && db.rows <= after.rows && (forall r <- after.rows :: r in db.rows || r.key == p.guid)
            && OrderedSources(after.sources) && SourcesGrow(db.sources, after.sources, {})
  {
    EnsureFrame(db, site.AccountFeedURL(p.handle), true);
    ProjectRows(w, site, db, p, now);
    hide Project, EnsureLocalStep, OrderedSources, SourcesGrow, Recorded;
  }

  lemma ProjectLeavesOthers(w: World, site: Site, db: Db, p: Post, now: int, q: Post)
    requires Inv(w, db) && p.guid != "" && q.guid != p.guid && Shown(w, site, db, q)
    ensures Shown(w, site, Project(w, site, db, p, now), q)
  {
    assert OrderedSources(db.sources);
    hide Inv, Project, OrderedSources, Current, Earlier;
    if q.visibility.Public? {
      var after := Project(w, site, db, p, now);
      ProjectAdds(w, site, db, p, now);
      PresentStays(w, site, db, after, q);
    }
  }

  lemma ProjectInv(w: World, site: Site, db: Db, p: Post, now: int)
    requires Inv(w, db) && p.guid != ""
    ensures Inv(w, Project(w, site, db, p, now))
  {
    var url := site.AccountFeedURL(p.handle);
    var (ready, source) := EnsureLocalStep(db, url);
    EnsureKeepsInv(w, db, url, true);
    EnsureFrame(db, url, true);
    IngestKeepsInv(w, ready, source, p.markdown, [ItemOf(site, p)], now);
  }

  // The followed post is shown, or is the one being projected and has all its versions
  // dominated: projecting p leaves it shown.
  lemma ProjectGood(w: World, site: Site, f: Focus, posts: seq<Post>, db: Db, p: Post, now: int)
    requires w.Injective() && Hosted(w, site, f) && Inv(w, db) && ClaimsMatch(w, db) && Addressed(site, posts)
    requires p.guid == site.PostURL(p.id) && exists q <- posts :: q.id == p.id && q.visibility.Public?
    requires forall q <- posts :: IsFocus(f, q) ==>
      && SoundPost(site, q)
      && if q.id == p.id then q == p && Dominated(w, site, db.rows, p) else Shown(w, site, db, q)
    requires Unclaimed(w, site, f, Journal(posts, db))
    ensures Good(w, site, f, Journal(posts, Project(w, site, db, p, now)))
  {
    InvSources(w, db);
    hide Inv, ClaimsMatch, Dominated, Present, Unclaimed, Project, SoundPost, OrderedSources;
    var after := Project(w, site, db, p, now);
    ProjectInv(w, site, db, p, now);
    ProjectClaims(w, site, db, p, now);
    forall q | q in posts && IsFocus(f, q) ensures Shown(w, site, after, q) {
      if q.id == p.id {
        ProjectShows(w, site, db, p, now);
      } else {
        if q.guid == p.guid { PostURLInjective(site, q.id, p.id); }
        ProjectLeavesOthers(w, site, db, p, now, q);
      }
    }
    ProjectAdds(w, site, db, p, now);
    ProjectUnclaimed(w, site, f, posts, db, after, p);
  }

  lemma ProjectUnclaimed(w: World, site: Site, f: Focus, posts: seq<Post>, db: Db, after: Db, p: Post)
    requires Unclaimed(w, site, f, Journal(posts, db)) && exists q <- posts :: q.id == p.id && q.visibility.Public?
    requires p.guid == site.PostURL(p.id) && forall r <- after.rows :: r in db.rows || r.key == p.guid
    ensures Unclaimed(w, site, f, Journal(posts, after))
  {
    forall r | r in after.rows && r.key == site.PostURL(f.id) && r.claimed
      ensures exists q <- posts :: q.id == f.id && q.visibility.Public?
    {
      if r.key == p.guid {
        PostURLInjective(site, f.id, p.id);
      } else {
        assert r in Journal(posts, db).db.rows;
      }
    }
  }

  // ---- the steps ----

  lemma CreateGood(w: World, site: Site, f: Focus, j: Journal, act: Act)
    requires w.Injective() && Hosted(w, site, f) && Good(w, site, f, j) && Honest(w, site, f, j, act) && act.Create?
    ensures Good(w, site, f, ActStep(w, site, j, act))
  {
    hide Inv, ClaimsMatch, Present, Dominated, Project, Unclaimed, SoundPost, Current;
    var after := CreateStep(w, site, j, act.account, act.title, act.source, act.inReplyTo, act.visibility, act.now);
    if after.1.Ok? {
      var p := after.1.value;
      CreatedSound(w, site, j, act);
      AppendOrdered(j.posts, p);
      AppendUnclaimed(w, site, f, j, p);
      if p.visibility.Public? {
        ProjectGood(w, site, f, j.posts + [p], j.db, p, act.now);
      }
    }
  }

  lemma CreatedSound(w: World, site: Site, j: Journal, act: Act)
    requires act.Create?
    requires CreateStep(w, site, j, act.account, act.title, act.source, act.inReplyTo, act.visibility, act.now).1.Ok?
    ensures var p := CreateStep(w, site, j, act.account, act.title, act.source, act.inReplyTo, act.visibility, act.now).1.value;
            && p.id == NextPostId(j.posts) && p.guid == site.PostURL(p.id) && p.handle == act.account.handle
            && (act.now >= 0 ==> SoundPost(site, p))
  {}

  lemma AppendOrdered(posts: seq<Post>, p: Post)
    requires OrderedPosts(posts) && p.id == NextPostId(posts)
    ensures OrderedPosts(posts + [p]) && p in posts + [p]
    ensures forall q <- posts :: q.id < p.id
  {
    var all := posts + [p];
    assert all[|posts|] == p;
    forall q | q in posts ensures q.id < p.id {
      var i :| 0 <= i < |posts| && posts[i] == q;
    }
  }

  // A new post's address has never been claimed, if it is the followed one.
  lemma AppendUnclaimed(w: World, site: Site, f: Focus, j: Journal, p: Post)
    requires Unclaimed(w, site, f, j) && p.guid == site.PostURL(p.id) && forall q <- j.posts :: q.id != p.id
    ensures Unclaimed(w, site, f, j.(posts := j.posts + [p]))
    ensures p.id == f.id ==> Dominated(w, site, j.db.rows, p)
  {
    forall r | r in j.db.rows && r.key == site.PostURL(f.id) && r.claimed
      ensures f.id != p.id && exists q <- j.posts + [p] :: q.id == f.id && q.visibility.Public?
    {
      var q :| q in j.posts && q.id == f.id && q.visibility.Public?;
      assert q in j.posts + [p];
    }
  }

  // Swapping in a new version of a post and projecting it as it is read back.
  lemma ReplaceGood(w: World, site: Site, f: Focus, j: Journal, p: Post, z: Post, now: int)
    requires w.Injective() && Hosted(w, site, f) && Good(w, site, f, j) && HasPost(j.posts, p.id)
    requires p.guid == site.PostURL(p.id) && p.visibility == PostById(j.posts, p.id).visibility
    requires z.(updated := p.updated) == p
    requires IsFocus(f, p) ==> z == p && SoundPost(site, p) && (p.visibility.Public? ==> Dominated(w, site, j.db.rows, p))
    ensures Good(w, site, f, Journal(Replace(j.posts, p), ProjectIfPublic(w, site, j.db, z, now)))
  {
    hide Inv, ClaimsMatch, Present, Dominated, Project;
    var posts := Replace(j.posts, p);
    ReplaceMembers(j.posts, p);
    ReplaceUnclaimed(w, site, f, j, p);
    hide Replace, Unclaimed, SoundPost;
    if p.visibility.Public? {
      ProjectGood(w, site, f, posts, j.db, z, now);
    }
  }

  lemma ReplaceMembers(posts: seq<Post>, p: Post)
    requires OrderedPosts(posts) && HasPost(posts, p.id)
    ensures OrderedPosts(Replace(posts, p)) && p in Replace(posts, p)
    ensures forall q <- Replace(posts, p) :: q == p || (q in posts && q.id != p.id)
  {
    var i :| 0 <= i < |posts| && posts[i].id == p.id;
    assert Replace(posts, p)[i] == p;
    forall q | q in Replace(posts, p) ensures q == p || (q in posts && q.id != p.id) {
      var k :| 0 <= k < |posts| && Replace(posts, p)[k] == q;
      assert posts[k] in posts;
    }
  }

  lemma ReplaceUnclaimed(w: World, site: Site, f: Focus, j: Journal, p: Post)
    requires Unclaimed(w, site, f, j) && OrderedPosts(j.posts) && HasPost(j.posts, p.id)
    requires p.visibility == PostById(j.posts, p.id).visibility
    ensures Unclaimed(w, site, f, j.(posts := Replace(j.posts, p)))
  {
    var posts := Replace(j.posts, p);
    forall r | r in j.db.rows && r.key == site.PostURL(f.id) && r.claimed
      ensures exists q <- posts :: q.id == f.id && q.visibility.Public?
    {
      var q :| q in j.posts && q.id == f.id && q.visibility.Public?;
      var k :| 0 <= k < |posts| && j.posts[k] == q;
      SameIdSamePost(j.posts, PostById(j.posts, p.id), q);
      assert posts[k] in posts;
    }
  }

  lemma SameIdSamePost(posts: seq<Post>, a: Post, b: Post)
    requires OrderedPosts(posts) && a in posts && b in posts
    ensures a.id == b.id ==> a == b
  {}

  // A version stamped later than the current one dominates whatever the current one did.
  lemma LaterDominates(w: World, site: Site, rows: seq<Row>, p: Post, q: Post)
    requires w.Injective() && Dominated(w, site, rows, p) && q.guid == p.guid
    requires forall r <- rows :: r.hash == ContentHash(w, r.item) && r.fidelity == FidelityOf(r.item)
    requires Stamp(ItemOf(site, p)) < Stamp(ItemOf(site, q))
    ensures Dominated(w, site, rows, q)
  {
    forall r | r in rows && r.key == q.guid && r.claimed
      ensures Earlier(w, r, ItemOf(site, q))
    {
      if RankOfRow(r) == Current(w, site, p) {
        CurrentRow(w, site, r, p);
      }
    }
  }

  // So does the same version with one more attachment.
  lemma AttachedDominates(w: World, site: Site, rows: seq<Row>, p: Post, file: File, at: nat)
    requires w.Injective() && Dominated(w, site, rows, p) && at <= |p.media|
    requires forall r <- rows :: r.hash == ContentHash(w, r.item) && r.fidelity == FidelityOf(r.item)
    ensures Dominated(w, site, rows, Attached(p, file, at))
  {
    var q := Attached(p, file, at);
    if file !in p.media {
      AttachingGrows(w, site, p, file, at);
      forall r | r in rows && r.key == q.guid && r.claimed
        ensures Earlier(w, r, ItemOf(site, q))
      {
        if RankOfRow(r) == Current(w, site, p) {
          CurrentRow(w, site, r, p);
        }
      }
    }
  }

  lemma RowsHashed(w: World, db: Db)
    requires Inv(w, db)
    ensures forall r <- db.rows :: r.hash == ContentHash(w, r.item) && r.fidelity == FidelityOf(r.item)
  {
    forall r | r in db.rows ensures r.hash == ContentHash(w, r.item) && r.fidelity == FidelityOf(r.item) {
      RowBasics(w, db, r);
    }
  }

  lemma UpdateGood(w: World, site: Site, f: Focus, j: Journal, act: Act)
    requires w.Injective() && Hosted(w, site, f) && Good(w, site, f, j) && act.Update?
    ensures Good(w, site, f, ActStep(w, site, j, act))
  {
    var after := UpdateStep(w, site, j, act.account, act.id, act.title, act.source, act.now);
    if after.1.Ok? {
      var p, q := PostById(j.posts, act.id), after.1.value;
      assert q == p.(title := q.title, markdown := q.markdown, html := q.html, updated := Some(EditStamp(Read(p), act.now)));
      if IsFocus(f, p) {
        assert Read(p) == p;
        RowsHashed(w, j.db);
        if p.visibility.Public? {
          LaterDominates(w, site, j.db.rows, p, q);
        }
      }
      ReplaceGood(w, site, f, j, q, q, act.now);
    }
  }

  // ---- attaching several files ----

  function Placed(p: Post, a: Placement): Post {
    if a.at <= |p.media| then Attached(p, a.file, a.at) else p
  }

  function PlacedAll(p: Post, files: seq<Placement>): (q: Post)
    ensures q == p.(media := q.media)
  {
    if files == [] then p else Placed(PlacedAll(p, files[..|files| - 1]), files[|files| - 1])
  }

  lemma ReplaceTwice(posts: seq<Post>, p: Post, q: Post)
    requires p.id == q.id
    ensures Replace(Replace(posts, p), q) == Replace(posts, q)
  {}

  lemma AttachReplaces(j: Journal, id: nat, a: Placement)
    requires OrderedPosts(j.posts) && HasPost(j.posts, id)
    ensures AttachStep(j, id, a.file, a.at) == j.(posts := Replace(j.posts, Placed(PostById(j.posts, id), a)))
  {
    if a.at > |PostById(j.posts, id).media| { ReplaceSame(j.posts, PostById(j.posts, id)); }
  }

  // Attaching a list of files replaces the post by one that differs in its media alone.
  lemma {:induction false} AttachAllReplaces(j: Journal, id: nat, files: seq<Placement>)
    requires OrderedPosts(j.posts) && HasPost(j.posts, id)
    ensures AttachAll(j, id, files) == j.(posts := Replace(j.posts, PlacedAll(PostById(j.posts, id), files)))
  {
    hide AttachStep, Replace, Placed;
    var p := PostById(j.posts, id);
    if files == [] {
      ReplaceSame(j.posts, p);
    } else {
      var n := |files| - 1;
      var q := PlacedAll(p, files[..n]);
      AttachAllReplaces(j, id, files[..n]);
      ReplaceFinds(j.posts, q);
      ReplaceMembers(j.posts, q);
      AttachReplaces(j.(posts := Replace(j.posts, q)), id, files[n]);
      ReplaceTwice(j.posts, q, PlacedAll(p, files));
    }
  }

  lemma {:induction false} NothingAttached(j: Journal, id: nat, files: seq<Placement>)
    requires !HasPost(j.posts, id)
    ensures AttachAll(j, id, files) == j
  {
    if files != [] { NothingAttached(j, id, files[..|files| - 1]); }
  }

  lemma {:induction false} PlacedDominates(w: World, site: Site, rows: seq<Row>, p: Post, files: seq<Placement>)
    requires w.Injective() && Dominated(w, site, rows, p)
    requires forall r <- rows :: r.hash == ContentHash(w, r.item) && r.fidelity == FidelityOf(r.item)
    ensures Dominated(w, site, rows, PlacedAll(p, files))
  {
    hide Dominated, Attached;
    if files != [] {
      var n := |files| - 1;
      PlacedDominates(w, site, rows, p, files[..n]);
      var q := PlacedAll(p, files[..n]);
      if files[n].at <= |q.media| { AttachedDominates(w, site, rows, q, files[n].file, files[n].at); }
    }
  }

  lemma AttachGood(w: World, site: Site, f: Focus, j: Journal, act: Act)
    requires w.Injective() && Hosted(w, site, f) && Good(w, site, f, j) && act.AttachAndRefresh?
    ensures Good(w, site, f, ActStep(w, site, j, act))
  {
    hide Inv, ClaimsMatch, Present, Dominated, Project, Unclaimed, Replace, AttachAll, PlacedAll;
    if HasPost(j.posts, act.id) {
      var p := PostById(j.posts, act.id);
      var q := PlacedAll(p, act.files);
      AttachAllReplaces(j, act.id, act.files);
      if IsFocus(f, p) {
        RowsHashed(w, j.db);
        if p.visibility.Public? { PlacedDominates(w, site, j.db.rows, p, act.files); }
        assert Read(q) == q;
      }
      ReplaceGood(w, site, f, j, q, Read(q), act.now);
      ReplaceFinds(j.posts, q);
    } else {
      NothingAttached(j, act.id, act.files);
    }
  }

  lemma ReplaceFinds(posts: seq<Post>, p: Post)
    requires OrderedPosts(posts) && HasPost(posts, p.id)
    ensures HasPost(Replace(posts, p), p.id) && PostById(Replace(posts, p), p.id) == p
  {
    var i :| 0 <= i < |posts| && posts[i].id == p.id;
    assert Replace(posts, p)[i] == p;
  }

  lemma ReplaceSame(posts: seq<Post>, p: Post)
    requires OrderedPosts(posts) && p in posts
    ensures Replace(posts, p) == posts
  {}

  // ---- everything that happens elsewhere ----

  lemma {:induction false} RecordAllForeign(w: World, rows: seq<Row>, source: Source, payload: seq<byte>, items: seq<Item>, now: int)
    ensures var after := RecordAll(w, rows, source, payload, items, now);
            && rows <= after
            && forall r <- after :: r in rows ||
                 (exists item <- items :: r.item == item && r.key == ItemKey(item) && r.source == source.id
                    && r.claimed == ClaimedByAuthor(w, source.feedURL, item, ItemKey(item)))
  {
    if items != [] {
      var n := |items| - 1;
      RecordAllForeign(w, rows, source, payload, items[..n], now);
      var before := RecordAll(w, rows, source, payload, items[..n], now);
      var after := RecordAll(w, rows, source, payload, items, now);
      hide ClaimedByAuthor, Recorded, ContentHash;
      forall r | r in after && r !in rows
        ensures exists item <- items ::
          && r.item == item && r.key == ItemKey(item) && r.source == source.id
          && r.claimed == ClaimedByAuthor(w, source.feedURL, item, ItemKey(item))
      {
        if r in before {
          var item :| item in items[..n] && r.item == item && r.key == ItemKey(item) && r.source == source.id
            && r.claimed == ClaimedByAuthor(w, source.feedURL, item, ItemKey(item));
          assert item in items;
        } else {
          assert r == NewRow(w, before, source, payload, items[n], now) && items[n] in items;
        }
      }
    }
  }

  // What a step elsewhere may do to the table: lose rows that are not those of the author's own
  // feed, or gain rows that do not claim the address of the post.
  ghost predicate Elsewise(site: Site, f: Focus, db: Db, after: Db) {
    && OrderedSources(after.sources)
    && (forall r <- after.rows :: r in db.rows || (r.claimed ==> r.key != site.PostURL(f.id)))
    && (forall r <- db.rows :: OwnedBy(site, db.sources, r, f.handle) ==> r in after.rows && OwnedBy(site, after.sources, r, f.handle))
  }

  lemma ElsewhereGood(w: World, site: Site, f: Focus, j: Journal, after: Db)
    requires Good(w, site, f, j) && Inv(w, after) && ClaimsMatch(w, after) && Elsewise(site, f, j.db, after)
    ensures Good(w, site, f, j.(db := after))
  {
    hide Inv, ClaimsMatch, Earlier, Current;
    forall q | q in j.posts && IsFocus(f, q) ensures Shown(w, site, after, q) {
      if q.visibility.Public? {
        assert Dominated(w, site, j.db.rows, q) && Present(w, site, j.db, q);
        var r :| r in j.db.rows && r.key == q.guid && RankOfRow(r) == Current(w, site, q)
          && OwnedBy(site, j.db.sources, r, q.handle);
        assert r in after.rows;
        assert Present(w, site, after, q);
        assert Dominated(w, site, after.rows, q);
      }
    }
  }

  lemma DeliverElsewhere(w: World, site: Site, f: Focus, j: Journal, act: Act)
    requires Good(w, site, f, j) && Honest(w, site, f, j, act) && act.Elsewhere? && act.op.Deliver?
    ensures ClaimsMatch(w, Step(w, j.db, act.op)) && Elsewise(site, f, j.db, Step(w, j.db, act.op))
  {
    var op := act.op;
    var after := Step(w, j.db, op);
    RecordAllForeign(w, j.db.rows, op.source, w.sha(op.body), op.items, op.now);
    DeliverRows(w, j.db, op);
    InvSources(w, j.db);
    SourceByIdUnique(j.db.sources, op.source);
    hide Inv, Step, RecordAll, ClaimedByAuthor;
    forall r | r in after.rows
      ensures r.claimed == ClaimedByAuthor(w, FeedOf(after.sources, r.source), r.item, r.key)
      ensures r in j.db.rows || (r.claimed ==> r.key != site.PostURL(f.id))
    {}
  }

  lemma InvSources(w: World, db: Db)
    requires Inv(w, db)
    ensures OrderedSources(db.sources)
  {}

  lemma DeliverRows(w: World, db: Db, op: Op)
    requires op.Deliver? && op.source in db.sources
    ensures Step(w, db, op).rows == RecordAll(w, db.rows, op.source, w.sha(op.body), op.items, op.now)
    ensures Step(w, db, op).sources == db.sources
  {
    assert HasId(db.sources, op.source.id);
  }

  lemma GrowElsewise(w: World, site: Site, f: Focus, db: Db, after: Db, lost: set<string>)
    requires Inv(w, db) && ClaimsMatch(w, db) && site.AccountFeedURL(f.handle) !in lost
    requires OrderedSources(after.sources) && SourcesGrow(db.sources, after.sources, lost) && after.rows == db.rows
    ensures ClaimsMatch(w, after) && Elsewise(site, f, db, after)
  {
    InvSources(w, db);
    forall r | r in db.rows
      ensures r.claimed == ClaimedByAuthor(w, FeedOf(after.sources, r.source), r.item, r.key)
      ensures HasId(after.sources, r.source)
      ensures SourceById(after.sources, r.source).feedURL == SourceById(db.sources, r.source).feedURL
      ensures SourceById(db.sources, r.source).isLocal && SourceById(db.sources, r.source).feedURL !in lost ==>
                SourceById(after.sources, r.source).isLocal
    {
      RowBasics(w, db, r);
      GrowKeeps(db.sources, after.sources, lost, r.source);
    }
  }

  lemma DropLeaves(sources: seq<Source>, gone: nat, id: nat)
    requires OrderedSources(sources) && OrderedSources(Drop(sources, gone)) && HasId(sources, id) && id != gone
    ensures HasId(Drop(sources, gone), id) && SourceById(Drop(sources, gone), id) == SourceById(sources, id)
  {
    var s := SourceById(sources, id);
    assert s in Drop(sources, gone);
    SourceByIdUnique(Drop(sources, gone), s);
  }

  // Losing the rows of a source that is not local.
  lemma CutElsewise(w: World, site: Site, f: Focus, db: Db, after: Db, id: nat)
    requires ClaimsMatch(w, db) && OrderedSources(after.sources)
    requires HasId(db.sources, id) && !SourceById(db.sources, id).isLocal
    requires forall r :: r in after.rows <==> r in db.rows && r.source != id
    requires forall r <- db.rows :: r.source != id ==>
      && HasId(db.sources, r.source) && HasId(after.sources, r.source)
      && SourceById(after.sources, r.source) == SourceById(db.sources, r.source)
    ensures ClaimsMatch(w, after) && Elsewise(site, f, db, after)
  {
    hide ClaimedByAuthor, SourceById, HasId;
  }

  lemma RemoveElsewise(w: World, site: Site, f: Focus, db: Db, id: nat, now: int)
    requires Inv(w, db) && ClaimsMatch(w, db)
    ensures ClaimsMatch(w, RemoveStep(db, id, now).0) && Elsewise(site, f, db, RemoveStep(db, id, now).0)
  {
    hide Inv, ClaimsMatch, Elsewise, Except, Drop;
    var after := RemoveStep(db, id, now).0;
    RemoveKeepsInv(w, db, id, now);
    InvSources(w, db);
    InvSources(w, after);
    if HasId(db.sources, id) && !SourceById(db.sources, id).isLocal {
      forall r | r in db.rows && r.source != id
        ensures HasId(db.sources, r.source) && HasId(after.sources, r.source)
        ensures SourceById(after.sources, r.source) == SourceById(db.sources, r.source)
      {
        RowBasics(w, db, r);
        DropLeaves(db.sources, id, r.source);
      }
      CutElsewise(w, site, f, db, after, id);
    } else {
      NothingElsewise(w, site, f, db);
    }
  }

  lemma NothingElsewise(w: World, site: Site, f: Focus, db: Db)
    requires OrderedSources(db.sources)
    ensures Elsewise(site, f, db, db)
  {}

  lemma ElsewhereStep(w: World, site: Site, f: Focus, j: Journal, act: Act)
    requires Good(w, site, f, j) && Honest(w, site, f, j, act) && act.Elsewhere?
    ensures Good(w, site, f, ActStep(w, site, j, act))
  {
    var after := Step(w, j.db, act.op);
    StepKeepsInv(w, j.db, act.op);
    InvSources(w, j.db);
    match act.op {
      case Deliver(_, _, _, _) => DeliverElsewhere(w, site, f, j, act);
      case AddSource(url) =>
        AddSourceFrame(j.db, url);
        GrowElsewise(w, site, f, j.db, after, {});
      case EnsureLocal(url) =>
        EnsureFrame(j.db, url, true);
        GrowElsewise(w, site, f, j.db, after, {});
      case EnsureFederated(url) =>
        EnsureFrame(j.db, url, false);
        GrowElsewise(w, site, f, j.db, after, {url});
      case Remove(id, now) => RemoveElsewise(w, site, f, j.db, id, now);
      case Purge(_) => GrowElsewise(w, site, f, j.db, after, {});
    }
    ElsewhereGood(w, site, f, j, after);
  }

  // ---- the theorem ----

  lemma BlankGood(w: World, site: Site, f: Focus)
    ensures Good(w, site, f, BLANK)
  {
    assert Run(w, EMPTY, []) == EMPTY;
    EveryRunAgrees(w, []);
    hide Inv;
  }

  lemma HonestPrefix(w: World, site: Site, f: Focus, acts: seq<Act>)
    requires acts != [] && HonestRun(w, site, f, acts)
    ensures var n := |acts| - 1;
            HonestRun(w, site, f, acts[..n]) && Honest(w, site, f, ActAll(w, site, BLANK, acts[..n]), acts[n])
  {
    hide Honest, ActAll;
    var n := |acts| - 1;
    forall i | 0 <= i < n ensures Honest(w, site, f, ActAll(w, site, BLANK, acts[..n][..i]), acts[..n][i]) {
      assert acts[..n][..i] == acts[..i];
    }
  }

  lemma {:induction false} AllGood(w: World, site: Site, f: Focus, acts: seq<Act>)
    requires w.Injective() && Hosted(w, site, f) && HonestRun(w, site, f, acts)
    ensures Good(w, site, f, ActAll(w, site, BLANK, acts))
  {
    hide Good, Honest, HonestRun, ActStep;
    if acts == [] {
      BlankGood(w, site, f);
    } else {
      var n := |acts| - 1;
      HonestPrefix(w, site, f, acts);
      AllGood(w, site, f, acts[..n]);
      ActGood(w, site, f, ActAll(w, site, BLANK, acts[..n]), acts[n]);
    }
  }

  lemma ActGood(w: World, site: Site, f: Focus, j: Journal, act: Act)
    requires w.Injective() && Hosted(w, site, f) && Good(w, site, f, j) && Honest(w, site, f, j, act)
    ensures Good(w, site, f, ActStep(w, site, j, act))
  {
    hide Good, ActStep;
    match act {
      case Create(_, _, _, _, _, _) => CreateGood(w, site, f, j, act);
      case Update(_, _, _, _, _) => UpdateGood(w, site, f, j, act);
      case AttachAndRefresh(_, _, _) => AttachGood(w, site, f, j, act);
      case Elsewhere(_) => ElsewhereStep(w, site, f, j, act);
    }
  }

  lemma EarlierLoses(w: World, site: Site, r: Row, p: Post)
    requires Earlier(w, r, ItemOf(site, p)) && r.claimed && r.fidelity == FidelityOf(r.item)
    requires Current(w, site, p).claimed
    ensures !C.Beats(CandidateOf(r), AsCandidate(Current(w, site, p))).0
    ensures C.Beats(AsCandidate(Current(w, site, p)), CandidateOf(r)).0
  {}

  lemma PresentWins(w: World, site: Site, db: Db, p: Post)
    requires Hosted(w, site, Focus(p.id, p.handle)) && Inv(w, db) && SoundPost(site, p)
    requires Dominated(w, site, db.rows, p) && Present(w, site, db, p)
    ensures p.guid in db.logical && p.guid in KeysOf(db.rows)
    ensures RankOfRow(Winner(db.rows, p.guid)) == Current(w, site, p)
  {
    var r0 :| r0 in db.rows && r0.key == p.guid && RankOfRow(r0) == Current(w, site, p);
    assert AgreesAt(db, p.guid);
    WinnerIsWinner(db.rows, p.guid);
    var r := Winner(db.rows, p.guid);
    assert SharesSite(w, site.AccountFeedURL(p.handle), site.PostURL(p.id));
    RowBasics(w, db, r);
    assert AtLeast(r, r0);
    if RankOfRow(r) != Current(w, site, p) {
      if r.claimed { EarlierLoses(w, site, r, p); }
    }
  }

  // However edits, attachments, clock jumps and other feeds interleave, what the timeline shows
  // for a public post has the rank and content hash of that post as it stands now.
  lemma TimelineShowsCurrent(w: World, site: Site, acts: seq<Act>, p: Post)
    requires w.Injective() && Hosted(w, site, Focus(p.id, p.handle)) && HonestRun(w, site, Focus(p.id, p.handle), acts)
    requires p in ActAll(w, site, BLANK, acts).posts && p.visibility.Public?
    ensures var db := ActAll(w, site, BLANK, acts).db;
            && p.guid in db.logical && p.guid in KeysOf(db.rows)
            && RankOfRow(Winner(db.rows, p.guid)) == Current(w, site, p)
            && db.logical[p.guid].winner == Winner(db.rows, p.guid).id
  {
    AllGood(w, site, Focus(p.id, p.handle), acts);
    var j := ActAll(w, site, BLANK, acts);
    assert SoundPost(site, p) && Shown(w, site, j.db, p);
    PresentWins(w, site, j.db, p);
    assert AgreesAt(j.db, p.guid);
  }

  // Nothing less will do for the post's own address: an item delivered under it that is claimed by
  // its author and dated later takes its place, wherever it comes from.
  lemma LaterClaimHides(w: World, site: Site, db: Db, p: Post, source: Source, body: string, item: Item, now: int)
    requires Inv(w, db) && source in db.sources && ItemKey(item) == p.guid != ""
    requires ClaimedByAuthor(w, source.feedURL, item, p.guid) && !Recorded(w, db.rows, source.id, item)
    requires Dated(item) && Stamp(item) > Stamp(ItemOf(site, p))
    ensures var after := Step(w, db, Deliver(source, body, [item], now));
            p.guid in KeysOf(after.rows) && RankOfRow(Winner(after.rows, p.guid)) != Current(w, site, p)
  {
    var op := Deliver(source, body, [item], now);
    var after := Step(w, db, op);
    StepKeepsInv(w, db, op);
    DeliverRow(w, db, source, body, item, now);
    hide Step, ContentHash, ClaimedByAuthor;
    var added := NewRow(w, db.rows, source, w.sha(body), item, now);
    assert added in db.rows + [added];
    WinnerIsWinner(after.rows, p.guid);
    assert AtLeast(Winner(after.rows, p.guid), added);
  }

  // For posts without zero characters that pins down everything a reader sees: a row of the same
  // rank has as many enclosures, and then its hash identifies the post, whatever any feed holds.
  lemma TimelineShowsText(w: World, site: Site, acts: seq<Act>, p: Post)
    requires w.Injective() && Hosted(w, site, Focus(p.id, p.handle)) && HonestRun(w, site, Focus(p.id, p.handle), acts)
    requires p in ActAll(w, site, BLANK, acts).posts && p.visibility.Public?
    requires ZeroFreeItem(ItemOf(site, p))
    ensures var db := ActAll(w, site, BLANK, acts).db;
            && p.guid in KeysOf(db.rows) && p.guid in db.search && p.guid in db.logical
            && var r := Winner(db.rows, p.guid);
            && r.item.title == p.title && r.item.html == p.html && r.item.markdown == p.markdown && r.item.link == p.guid
            && r.item.inReplyTo == p.inReplyTo && r.item.author == "" && |r.item.enclosures| == |p.media|
            && (forall i :: 0 <= i < |p.media| ==>
                  r.item.enclosures[i] == Enclosure(site.base + p.media[i].url, p.media[i].kind, p.media[i].bytes))
            && db.logical[p.guid].updated == Some(if p.updated.Some? then p.updated.value else p.published)
            && db.search[p.guid].title == p.title && db.search[p.guid].body == p.markdown
  {
    AllGood(w, site, Focus(p.id, p.handle), acts);
    TimelineShowsCurrent(w, site, acts, p);
    var j := ActAll(w, site, BLANK, acts);
    var r := Winner(j.db.rows, p.guid);
    assert AgreesAt(j.db, p.guid) && SoundPost(site, p);
    RowBasics(w, j.db, r);
    assert |r.item.enclosures| == |ItemOf(site, p).enclosures|;
    HashCoversMore(w, ItemOf(site, p), r.item);
  }

  // The clock must not be before 1970 when a post is created. A stored edit is always stamped
  // after publication; a further edit is stamped after that one, whatever the clock says,
  // exactly when the stored stamp is positive, because a stamp of zero or less is read back as
  // "never edited".
  lemma EditsAdvanceIffPositive(p: Post)
    requires p.updated.Some? && p.updated.value > p.published
    ensures (forall now: int :: EditStamp(Read(p), now) > p.updated.value) <==> p.updated.value > 0
  {
    if p.updated.value <= 0 {
      assert EditStamp(Read(p), p.published) == p.published + 1;
    }
  }

  // A post published one second before 1970 and edited while the clock stands still: the first
  // edit is stamped zero, and so is the second.
  lemma EditBeforeEpochRepeats()
    ensures var p := Post(1, 1, "h", "g", "", "m", "", "", Public, -1, None, []);
            var edited := p.(updated := Some(EditStamp(Read(p), -1)));
            edited.updated == Some(0) && EditStamp(Read(edited), -1) == 0
  {}
}
