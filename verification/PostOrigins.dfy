// What reaches the store of the posts written here.
module PostOrigins {
  import opened Common
  import opened Feed
  import opened Ingest
  import opened IngestView
  import opened PostHistory
  import opened Publish
  import opened PublishRuns
  import opened RowOrigins
  import Text

  ghost predicate PublicUnder(posts: seq<Post>, key: string) {
    exists q <- posts :: q.visibility.Public? && q.guid == key
  }

  ghost predicate FromElsewhere(w: World, acts: seq<Act>, r: Row) {
    exists i :: 0 <= i < |acts| && acts[i].Elsewhere? && From(w, acts[i].op, r)
  }

  lemma ProjectedRows(w: World, site: Site, db: Db, p: Post, now: int, r: Row)
    requires r in ProjectIfPublic(w, site, db, p, now).rows
    ensures r in db.rows || (p.visibility.Public? && r.key == p.guid)
  {
    var (ready, source) := EnsureLocalStep(db, site.AccountFeedURL(p.handle));
    assert ready.rows == db.rows;
    var item := ItemOf(site, p);
    if p.visibility.Public? && r !in db.rows {
      StepRowsFrom(w, ready, Deliver(source, p.markdown, [item], now), r);
      assert r.item == item;
    }
    hide EnsureLocalStep, IngestStep, EnclosuresOf;
  }

  // Projecting a post adds at most one row: of its author's local feed, with its words, dates and
  // files as they stand, under its address.
  lemma ProjectedTells(w: World, site: Site, db: Db, p: Post, now: int, r: Row)
    requires r in Project(w, site, db, p, now).rows && r !in db.rows
    ensures exists s <- Project(w, site, db, p, now).sources ::
      s.id == r.source && s.isLocal && s.feedURL == site.base + "/users/" + p.handle + "/rss.xml"
    ensures var item := r.item;
            && r.key == item.guid == item.link == p.guid && item.guidIsPermalink
            && item.title == p.title && item.html == p.html && item.markdown == p.markdown && item.inReplyTo == p.inReplyTo
            && item.published == Some(p.published) && item.updated == p.updated && item.author == ""
            && item.source == Some(Origin(site.base + "/users/" + p.handle + "/rss.xml", p.handle))
            && item.comments == None && item.commentsPage == "" && item.unknown == []
            && |item.enclosures| == |p.media|
            && forall i :: 0 <= i < |p.media| ==>
                 item.enclosures[i] == Enclosure(site.base + p.media[i].url, p.media[i].kind, p.media[i].bytes)
  {
    var (ready, source) := EnsureLocalStep(db, site.AccountFeedURL(p.handle));
    assert ready.rows == db.rows;
    var item := ItemOf(site, p);
    StepRowsFrom(w, ready, Deliver(source, p.markdown, [item], now), r);
    assert r.item == item;
    EnsuredSource(db, site.AccountFeedURL(p.handle));
    assert Project(w, site, db, p, now).sources == ready.sources by { hide EnsureLocalStep; }
    hide EnsureLocalStep, IngestStep;
  }

  lemma EnsuredSource(db: Db, url: string)
    ensures var (ready, source) := EnsureLocalStep(db, url);
            source in ready.sources && source.isLocal && source.feedURL == url
  {
    var (added, found) := AddSourceStep(db, url);
    assert found in added.sources;
    var i :| 0 <= i < |added.sources| && added.sources[i] == found;
    assert Mark(added.sources, found.id, true)[i] == found.(isLocal := true);
  }

  lemma CreatedRows(w: World, site: Site, j: Journal, act: Act, r: Row)
    requires act.Create? && r in ActStep(w, site, j, act).db.rows
    ensures r in j.db.rows || PublicUnder(ActStep(w, site, j, act).posts, r.key)
  {
    var after := ActStep(w, site, j, act);
    if |after.posts| > |j.posts| {
      var p := after.posts[|j.posts|];
      assert p in after.posts && after.db == ProjectIfPublic(w, site, j.db, p, act.now);
      ProjectedRows(w, site, j.db, p, act.now, r);
    }
    hide ProjectIfPublic, Utf8Length;
    hide Text.TrimSpace, Text.Itoa;
  }

  lemma UpdatedRows(w: World, site: Site, j: Journal, act: Act, r: Row)
    requires OrderedPosts(j.posts) && act.Update? && r in ActStep(w, site, j, act).db.rows
    ensures r in j.db.rows || PublicUnder(ActStep(w, site, j, act).posts, r.key)
  {
    hide ProjectIfPublic, Utf8Length, OrderedPosts;
    hide Text.TrimSpace;
    var (after, result) := UpdateStep(w, site, j, act.account, act.id, act.title, act.source, act.now);
    if result.Ok? {
      var edited := result.value;
      ReplaceMembers(j.posts, edited);
      assert edited in after.posts;
      ProjectedRows(w, site, j.db, edited, act.now, r);
    }
  }

  lemma RefreshedRows(w: World, site: Site, j: Journal, act: Act, r: Row)
    requires OrderedPosts(j.posts) && act.AttachAndRefresh? && r in ActStep(w, site, j, act).db.rows
    ensures r in j.db.rows || PublicUnder(ActStep(w, site, j, act).posts, r.key)
  {
    hide ProjectIfPublic, OrderedPosts;
    AttachKeepsStore(j, act.id, act.files);
    var attached := AttachAll(j, act.id, act.files);
    if HasPost(attached.posts, act.id) {
      var p := Read(PostById(attached.posts, act.id));
      ProjectedRows(w, site, attached.db, p, act.now, r);
      assert PostById(attached.posts, act.id) in attached.posts;
    }
  }

  lemma {:induction false} AttachKeepsStore(j: Journal, id: nat, files: seq<Placement>)
    ensures AttachAll(j, id, files).db == j.db
  {
    if files != [] { AttachKeepsStore(j, id, files[..|files| - 1]); }
  }

  lemma ActRows(w: World, site: Site, j: Journal, act: Act, r: Row)
    requires OrderedPosts(j.posts) && r in ActStep(w, site, j, act).db.rows
    ensures r in j.db.rows || (act.Elsewhere? && From(w, act.op, r)) || PublicUnder(ActStep(w, site, j, act).posts, r.key)
  {
    match act {
      case Create(_, _, _, _, _, _) => CreatedRows(w, site, j, act, r);
      case Update(_, _, _, _, _) => UpdatedRows(w, site, j, act, r);
      case AttachAndRefresh(_, _, _) => RefreshedRows(w, site, j, act, r);
      case Elsewhere(op) => StepRowsFrom(w, j.db, op, r);
    }
    hide ActStep;
  }

  // What is public under an address stays so.
  lemma PublicStays(w: World, site: Site, j: Journal, act: Act, key: string)
    requires OrderedPosts(j.posts) && PublicUnder(j.posts, key)
    ensures PublicUnder(ActStep(w, site, j, act).posts, key)
  {
    ActKeeps(w, site, j, act);
    hide ActStep, OrderedPosts;
    var after := ActStep(w, site, j, act).posts;
    var q :| q in j.posts && q.visibility.Public? && q.guid == key;
    var i :| 0 <= i < |j.posts| && j.posts[i] == q;
    assert ActDid(site, act, j.posts[i], after[i]) && after[i] in after;
  }

  ghost predicate Accounted(w: World, acts: seq<Act>, posts: seq<Post>, r: Row) {
    FromElsewhere(w, acts, r) || PublicUnder(posts, r.key)
  }

  lemma StillAccounted(w: World, acts: seq<Act>, act: Act, before: seq<Post>, after: seq<Post>, r: Row)
    requires Accounted(w, acts, before, r) && (PublicUnder(before, r.key) ==> PublicUnder(after, r.key))
    ensures Accounted(w, acts + [act], after, r)
  {
    hide From, PublicUnder;
    if FromElsewhere(w, acts, r) {
      var i :| 0 <= i < |acts| && acts[i].Elsewhere? && From(w, acts[i].op, r);
      assert (acts + [act])[i] == acts[i];
    }
  }

  lemma PostsOrdered(w: World, site: Site, acts: seq<Act>)
    ensures OrderedPosts(ActAll(w, site, BLANK, acts).posts)
  {
    AuthorsWords(w, site, acts);
    hide ActAll, SomeWroteLast, OrderedPosts;
  }

  lemma RowAccounted(w: World, site: Site, acts: seq<Act>, act: Act, j: Journal, r: Row)
    requires OrderedPosts(j.posts) && forall x <- j.db.rows :: Accounted(w, acts, j.posts, x)
    requires r in ActStep(w, site, j, act).db.rows
    ensures Accounted(w, acts + [act], ActStep(w, site, j, act).posts, r)
  {
    ActRows(w, site, j, act, r);
    if PublicUnder(j.posts, r.key) { PublicStays(w, site, j, act, r.key); }
    var after := ActStep(w, site, j, act).posts;
    hide Accounted, ActStep, OrderedPosts, PublicUnder, From;
    if r in j.db.rows {
      StillAccounted(w, acts, act, j.posts, after, r);
    } else {
      NewAccounted(w, acts + [act], after, r);
    }
  }

  // In every run, every row was delivered from elsewhere or stands under the address of a public
  // post.
  lemma {:induction false} EveryRowAccounted(w: World, site: Site, acts: seq<Act>)
    ensures var j := ActAll(w, site, BLANK, acts);
            forall r <- j.db.rows :: Accounted(w, acts, j.posts, r)
  {
    hide Accounted, ActStep;
    if acts != [] {
      var earlier, act := acts[..|acts| - 1], acts[|acts| - 1];
      EveryRowAccounted(w, site, earlier);
      PostsOrdered(w, site, earlier);
      var before := ActAll(w, site, BLANK, earlier);
      assert ActAll(w, site, BLANK, acts) == ActStep(w, site, before, act) && acts == earlier + [act];
      hide ActAll, OrderedPosts;
      forall r | r in ActStep(w, site, before, act).db.rows
        ensures Accounted(w, earlier + [act], ActStep(w, site, before, act).posts, r)
      {
        RowAccounted(w, site, earlier, act, before, r);
      }
    }
  }

  lemma NewAccounted(w: World, acts: seq<Act>, posts: seq<Post>, r: Row)
    requires acts != []
    requires (acts[|acts| - 1].Elsewhere? && From(w, acts[|acts| - 1].op, r)) || PublicUnder(posts, r.key)
    ensures Accounted(w, acts, posts, r)
  {
    hide From, PublicUnder;
  }

  // Each post has the address of its number.
  lemma {:induction false} AddressesOwn(w: World, site: Site, acts: seq<Act>)
    ensures forall p <- ActAll(w, site, BLANK, acts).posts :: p.guid == site.PostURL(p.id)
  {
    if acts != [] {
      var n := |acts| - 1;
      var act, before, after := acts[n], ActAll(w, site, BLANK, acts[..n]), ActAll(w, site, BLANK, acts);
      AddressesOwn(w, site, acts[..n]);
      PostsOrdered(w, site, acts[..n]);
      ActKeeps(w, site, before, act);
      forall p | p in after.posts ensures p.guid == site.PostURL(p.id) {
        var i :| 0 <= i < |after.posts| && after.posts[i] == p;
        if i < |before.posts| {
          assert ActDid(site, act, before.posts[i], after.posts[i]) && before.posts[i] in before.posts;
        } else {
          CreatedAddress(w, site, before, act, i);
        }
      }
    }
  }

  lemma CreatedAddress(w: World, site: Site, j: Journal, act: Act, i: nat)
    requires act.Create? && |j.posts| <= i < |ActStep(w, site, j, act).posts|
    ensures ActStep(w, site, j, act).posts[i].guid == site.PostURL(ActStep(w, site, j, act).posts[i].id)
  {
    hide Utf8Length, ProjectIfPublic;
    hide Text.TrimSpace, Text.Itoa;
  }

  // A post for followers or for its author alone never reaches the store, and so neither timeline
  // nor search: whatever stands there under its address came from elsewhere.
  lemma HiddenStaysHidden(w: World, site: Site, acts: seq<Act>, p: Post, r: Row)
    requires var j := ActAll(w, site, BLANK, acts);
             p in j.posts && !p.visibility.Public? && r in j.db.rows && r.key == p.guid
    ensures FromElsewhere(w, acts, r)
  {
    var j := ActAll(w, site, BLANK, acts);
    EveryRowAccounted(w, site, acts);
    AddressesOwn(w, site, acts);
    PostsOrdered(w, site, acts);
    if PublicUnder(j.posts, r.key) {
      var q :| q in j.posts && q.visibility.Public? && q.guid == r.key;
      SameAddressSamePost(site, j.posts, p, q);
    }
    hide ActAll, FromElsewhere;
  }

  lemma SameAddressSamePost(site: Site, posts: seq<Post>, p: Post, q: Post)
    requires OrderedPosts(posts) && p in posts && q in posts
    requires p.guid == site.PostURL(p.id) == q.guid == site.PostURL(q.id)
    ensures p == q
  {
    var start := site.base + "/p/";
    assert site.PostURL(p.id)[|start|..] == Text.Itoa(p.id) && site.PostURL(q.id)[|start|..] == Text.Itoa(q.id);
    Text.ItoaInjective(p.id, q.id);
  }
}
