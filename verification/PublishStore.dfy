// The publishing store: post rows changed step by step, each public version handed to ingest.
module PublishStore {
  import opened Common
  import opened Ingest
  import opened IngestStore
  import opened IngestView
  import opened Publish
  import P = Publish
  import Text

  class Publisher {
    const site: Site
    const sources: Store
    var posts: seq<Post>

    ghost function State(): Journal
      reads this, sources
    {
      Journal(posts, sources.State())
    }

    constructor (site: Site, sources: Store)
      requires sources.Valid() && sources.State() == EMPTY
      ensures this.site == site && this.sources == sources && State() == BLANK
    {
      this.site, this.sources, this.posts := site, sources, [];
    }

    method Project(p: Post, now: int)
      requires sources.Valid() && p.guid != ""
      modifies sources
      ensures sources.Valid()
      ensures sources.State() == P.Project(sources.world, site, old(sources.State()), p, now)
    {
      var source := sources.EnsureLocalSource(site.AccountFeedURL(p.handle));
      var item := ItemOf(site, p);
      var _ := sources.IngestItem(source, p.markdown, item, now);
    }

    method ProjectIfPublic(p: Post, now: int)
      requires sources.Valid() && p.guid != ""
      modifies sources
      ensures sources.Valid()
      ensures sources.State() == P.ProjectIfPublic(sources.world, site, old(sources.State()), p, now)
    {
      if p.visibility.Public? {
        Project(p, now);
      }
    }

    method CreateVisible(account: Member, title: string, source: string, inReplyTo: string, visibility: string, now: int)
      returns (r: Result<Post, P.Error>)
      requires sources.Valid()
      modifies this`posts, sources
      ensures sources.Valid()
      ensures (State(), r) == CreateStep(sources.world, site, old(State()), account, title, source, inReplyTo, visibility, now)
    {
      var body := Text.TrimSpace(source);
      var heading := Text.TrimSpace(title);
      var seen := NormalizeVisibility(visibility);
      if body == "" { return Err(EmptyPost); }
      if Utf8Length(body) > MAX_MARKDOWN_BYTES { return Err(PostTooLong); }
      if |heading| > MAX_TITLE_RUNES {
        heading := heading[..MAX_TITLE_RUNES];
      }
      var html := site.render(body);
      if html == "" { return Err(EmptyPost); }

      var id := NextPostId(posts);
      var p := Post(id, account.id, account.handle, "", heading, body, html, inReplyTo, seen, now, None, []);
      p := p.(guid := site.PostURL(id));
      posts := posts + [p];
      ProjectIfPublic(p, now);
      r := Ok(p);
    }

    method Update(account: Member, id: nat, title: string, source: string, clock: int) returns (r: Result<Post, P.Error>)
      requires sources.Valid() && forall p <- posts :: p.guid != ""
      modifies this`posts, sources
      ensures sources.Valid()
      ensures (State(), r) == UpdateStep(sources.world, site, old(State()), account, id, title, source, clock)
    {
      hide P.ProjectIfPublic;
      hide Text.TrimSpace;
      hide Inv, Utf8Length;
      if !HasPost(posts, id) { return Err(NoPost); }
      var p := Read(PostById(posts, id));
      if p.account != account.id { return Err(NotYours); }
      var body := Text.TrimSpace(source);
      if body == "" { return Err(EmptyPost); }
      if Utf8Length(body) > MAX_MARKDOWN_BYTES { return Err(PostTooLong); }
      var html := site.render(body);

      var now := clock;
      if now <= p.published {
        now := p.published + 1;
      }
      if p.updated.Some? && now <= p.updated.value {
        now := p.updated.value + 1;
      }
      p := p.(title := Text.TrimSpace(title), markdown := body, html := html, updated := Some(now));
      posts := Replace(posts, p);
      ProjectIfPublic(p, clock);
      r := Ok(p);
    }

    method Attach(id: nat, file: File, at: nat)
      modifies this`posts
      ensures State() == AttachStep(old(State()), id, file, at)
    {
      if HasPost(posts, id) && at <= |PostById(posts, id).media| {
        posts := Replace(posts, Attached(PostById(posts, id), file, at));
      }
    }

    // internal/web/media.go: attachToPost.
    method AttachToPost(id: nat, files: seq<Placement>)
      modifies this`posts
      ensures State() == AttachAll(old(State()), id, files)
    {
      for i := 0 to |files|
        invariant State() == AttachAll(old(State()), id, files[..i])
      {
        assert files[..i + 1][..i] == files[..i];
        Attach(id, files[i].file, files[i].at);
      }
      assert files[..|files|] == files;
    }

    method RefreshProjection(id: nat, now: int) returns (r: Result<Post, P.Error>)
      requires sources.Valid() && forall p <- posts :: p.guid != ""
      modifies sources
      ensures sources.Valid()
      ensures (State(), r) == RefreshStep(sources.world, site, old(State()), id, now)
    {
      if !HasPost(posts, id) { return Err(NoPost); }
      var p := Read(PostById(posts, id));
      ProjectIfPublic(p, now);
      r := Ok(p);
    }
  }
}
