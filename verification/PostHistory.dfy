// Whose words a post holds, and where they came from.
module PostHistory {
  import opened Common
  import opened Ingest
  import opened Publish
  import opened PublishRuns
  import P = Publish
  import Text

  // ---- one post created ----

  // A blank text is refused, one that renders to nothing as well, and one over 64 KiB; otherwise
  // one post is added with what was passed in, and only a public one is handed on.
  lemma CreateTells(w: World, site: Site, j: Journal, account: Member, title: string, source: string,
                    inReplyTo: string, visibility: string, now: int)
    ensures var (after, r) := CreateStep(w, site, j, account, title, source, inReplyTo, visibility, now);
            var body, heading := Text.TrimSpace(source), Text.TrimSpace(title);
            && (r == Err(EmptyPost) <==> body == "" || (Utf8Length(body) <= 65536 && site.render(body) == ""))
            && (r == Err(PostTooLong) <==> Utf8Length(body) > 65536)
            && (r.Err? ==> after == j && (r.error == EmptyPost || r.error == PostTooLong))
            && (r.Ok? ==>
                  && var p := r.value;
                  && after.posts == j.posts + [p]
                  && p.account == account.id && p.handle == account.handle
                  && p.title == (if |heading| > 200 then heading[..200] else heading)
                  && p.markdown == body && p.html == site.render(body) && p.inReplyTo == inReplyTo
                  && (p.visibility.Followers? <==> visibility == "followers")
                  && (p.visibility.Private? <==> visibility == "private")
                  && p.published == now && p.updated == None && p.media == []
                  && p.guid == site.base + "/p/" + Text.Itoa(p.id)
                  && (visibility == "followers" || visibility == "private" ==> after.db == j.db))
  {
    assert Utf8Length("") == 0;
  }

  lemma {:induction false} Utf8Append(a: string, b: string)
    ensures Utf8Length(a + b) == Utf8Length(a) + Utf8Length(b)
  {
    if a == "" {
      assert a + b == b;
    } else {
      assert (a + b)[1..] == a[1..] + b;
      Utf8Append(a[1..], b);
    }
  }

  // UTF-8 needs one byte up to U+007F, two up to U+07FF, three up to U+FFFF, and four beyond.
  lemma Utf8OfChar(c: char)
    ensures var n := Utf8Length([c]);
            && (n == 1 <==> c <= '\U{7F}') && (n <= 2 <==> c <= '\U{7FF}') && (n <= 3 <==> c <= '\U{FFFF}') && 1 <= n <= 4
  {
    assert Utf8Length([c][1..]) == 0;
  }

  // ---- one post edited ----

  predicate SamePlace(p: Post, q: Post) {
    && q.id == p.id && q.account == p.account && q.handle == p.handle && q.guid == p.guid
    && q.inReplyTo == p.inReplyTo && q.visibility == p.visibility && q.published == p.published
  }

  predicate SameWords(p: Post, q: Post) {
    q.title == p.title && q.markdown == p.markdown && q.html == p.html && q.updated == p.updated
  }

  // The words passed in, trimmed, as HTML as well, stamped after publication.
  predicate Rewritten(site: Site, p: Post, q: Post, title: string, source: string) {
    && q.title == Text.TrimSpace(title) && q.markdown == Text.TrimSpace(source) && q.html == site.render(q.markdown)
    && q.updated.Some? && q.updated.value > p.published
  }

  // An edit of a post that is not there or not one's own, or to a blank or overlong text, is
  // refused and changes nothing at all. Any other replaces the words of that post, and leaves
  // everything else of it and all other posts alone.
  lemma UpdateTells(w: World, site: Site, j: Journal, account: Member, id: nat, title: string, source: string, now: int)
    requires OrderedPosts(j.posts)
    ensures var (after, r) := UpdateStep(w, site, j, account, id, title, source, now);
            var body := Text.TrimSpace(source);
            && (r == Err(NoPost) <==> forall p <- j.posts :: p.id != id)
            && (r == Err(NotYours) <==> exists p <- j.posts :: p.id == id && p.account != account.id)
            && (r == Err(EmptyPost) <==> body == "" && exists p <- j.posts :: p.id == id && p.account == account.id)
            && (r == Err(PostTooLong) <==> Utf8Length(body) > 65536 && exists p <- j.posts :: p.id == id && p.account == account.id)
            && (r.Err? ==> after == j)
            && (r.Ok? ==>
                  && |after.posts| == |j.posts|
                  && forall i :: 0 <= i < |j.posts| ==>
                       var p, q := j.posts[i], after.posts[i];
                       if p.id != id then q == p
                       else SamePlace(p, q) && q.media == p.media && Rewritten(site, p, q, title, source) && r.value == q)
  {
    assert Utf8Length("") == 0;
    if HasPost(j.posts, id) {
      var p := PostById(j.posts, id);
      OnlyPost(j.posts, id);
      hide Text.TrimSpace, Utf8Length;
      hide ProjectIfPublic;
    }
  }

  lemma OnlyPost(posts: seq<Post>, id: nat)
    requires OrderedPosts(posts) && HasPost(posts, id)
    ensures forall i :: 0 <= i < |posts| && posts[i].id == id ==> posts[i] == PostById(posts, id)
  {
    var k :| 0 <= k < |posts| && posts[k] == PostById(posts, id);
  }

  // ---- along a run ----

  // What one act may do to one post.
  ghost predicate ActDid(site: Site, act: Act, p: Post, q: Post) {
    && SamePlace(p, q)
    && (SameWords(p, q) || (act.Update? && act.id == p.id && act.account.id == p.account && Rewritten(site, p, q, act.title, act.source)))
    && (q.media == p.media || (act.AttachAndRefresh? && act.id == p.id))
  }

  ghost predicate Acceptable(source: string) { Text.TrimSpace(source) != "" && Utf8Length(Text.TrimSpace(source)) <= 65536 }

  // What one act may do to all of them: change the old ones so, and add new ones of its author.
  ghost predicate Keeps(site: Site, act: Act, before: seq<Post>, after: seq<Post>) {
    && OrderedPosts(after) && |before| <= |after|
    && (forall i :: 0 <= i < |before| ==> ActDid(site, act, before[i], after[i]))
    && (forall i :: |before| <= i < |after| ==>
          act.Create? && after[i].account == act.account.id && after[i].markdown == Text.TrimSpace(act.source))
    && (act.Update? && Acceptable(act.source) ==>
          forall i :: 0 <= i < |before| && before[i].id == act.id && before[i].account == act.account.id ==>
            after[i].markdown == Text.TrimSpace(act.source))
  }

  lemma CreateKeeps(w: World, site: Site, j: Journal, act: Act)
    requires OrderedPosts(j.posts) && act.Create?
    ensures Keeps(site, act, j.posts, ActStep(w, site, j, act).posts)
  {
    CreateTells(w, site, j, act.account, act.title, act.source, act.inReplyTo, act.visibility, act.now);
    CreateNumbers(w, site, j, act);
    hide CreateStep, OrderedPosts, Utf8Length, Acceptable;
    hide Text.TrimSpace, Text.Itoa;
  }

  lemma UpdateKeeps(w: World, site: Site, j: Journal, act: Act)
    requires OrderedPosts(j.posts) && act.Update?
    ensures Keeps(site, act, j.posts, ActStep(w, site, j, act).posts)
  {
    hide UpdateStep, Utf8Length, Rewritten;
    hide Text.TrimSpace;
    UpdateTells(w, site, j, act.account, act.id, act.title, act.source, act.now);
    var (after, r) := UpdateStep(w, site, j, act.account, act.id, act.title, act.source, act.now);
    if r.Err? { RefusedKeeps(j.posts, act, r.error); } else { EditedKeeps(site, j.posts, after.posts, act); }
  }

  lemma RefusedKeeps(posts: seq<Post>, act: Act, e: P.Error)
    requires act.Update?
    requires e == NoPost <==> forall p <- posts :: p.id != act.id
    requires e == NotYours <==> exists p <- posts :: p.id == act.id && p.account != act.account.id
    requires e == EmptyPost || e == PostTooLong ==> !Acceptable(act.source)
    requires OrderedPosts(posts)
    ensures Acceptable(act.source) ==> forall p <- posts :: !(p.id == act.id && p.account == act.account.id)
  {
    hide Acceptable;
  }

  lemma EditedKeeps(site: Site, before: seq<Post>, after: seq<Post>, act: Act)
    requires OrderedPosts(before) && act.Update? && |after| == |before|
    requires !exists p <- before :: p.id == act.id && p.account != act.account.id
    requires forall i :: 0 <= i < |before| ==>
      var p, q := before[i], after[i];
      if p.id != act.id then q == p
      else SamePlace(p, q) && q.media == p.media && Rewritten(site, p, q, act.title, act.source)
    ensures Keeps(site, act, before, after)
  {
    forall i | 0 <= i < |before| ensures ActDid(site, act, before[i], after[i]) {
      assert before[i] in before;
    }
    hide Acceptable;
    hide Text.TrimSpace;
  }

  lemma ActKeeps(w: World, site: Site, j: Journal, act: Act)
    requires OrderedPosts(j.posts)
    ensures Keeps(site, act, j.posts, ActStep(w, site, j, act).posts)
  {
    match act {
      case Create(_, _, _, _, _, _) => CreateKeeps(w, site, j, act);
      case Update(_, _, _, _, _) => UpdateKeeps(w, site, j, act);
      case AttachAndRefresh(id, files, now) => AttachKeeps(w, site, j, id, files, now);
      case Elsewhere(op) =>
    }
  }

  lemma CreateNumbers(w: World, site: Site, j: Journal, act: Act)
    requires OrderedPosts(j.posts) && act.Create?
    ensures OrderedPosts(ActStep(w, site, j, act).posts)
  {
    var after := ActStep(w, site, j, act);
    if |after.posts| > |j.posts| {
      var p := after.posts[|j.posts|];
      AppendOrdered(j.posts, p);
    }
  }

  lemma AttachKeeps(w: World, site: Site, j: Journal, id: nat, files: seq<Placement>, now: int)
    requires OrderedPosts(j.posts)
    ensures var after := RefreshStep(w, site, AttachAll(j, id, files), id, now).0;
            && OrderedPosts(after.posts) && |after.posts| == |j.posts|
            && forall i :: 0 <= i < |j.posts| ==>
                 after.posts[i] == (if j.posts[i].id == id then j.posts[i].(media := after.posts[i].media) else j.posts[i])
  {
    if HasPost(j.posts, id) {
      AttachAllReplaces(j, id, files);
      var q := PlacedAll(PostById(j.posts, id), files);
      ReplaceMembers(j.posts, q);
      OnlyPost(j.posts, id);
    } else {
      NothingAttached(j, id, files);
    }
  }

  // Act n wrote the text of p, and no later act by its author replaced it.
  ghost predicate WroteLast(acts: seq<Act>, n: nat, p: Post) {
    && n < |acts|
    && (match acts[n]
        case Create(account, _, source, _, _, _) => account.id == p.account && Text.TrimSpace(source) == p.markdown
        case Update(account, id, _, source, _) => account.id == p.account && id == p.id && Text.TrimSpace(source) == p.markdown
        case _ => false)
    && forall m :: n < m < |acts| && acts[m].Update? && acts[m].id == p.id && acts[m].account.id == p.account ==> !Acceptable(acts[m].source)
  }

  ghost predicate SomeWroteLast(acts: seq<Act>, p: Post) { exists n: nat :: WroteLast(acts, n, p) }

  lemma WroteOn(acts: seq<Act>, act: Act, p: Post, q: Post)
    requires SomeWroteLast(acts, p) && SamePlace(p, q) && q.markdown == p.markdown
    requires act.Update? && act.id == p.id && act.account.id == p.account ==> !Acceptable(act.source)
    ensures SomeWroteLast(acts + [act], q)
  {
    var n: nat :| WroteLast(acts, n, p);
    var all := acts + [act];
    assert forall m :: 0 <= m < |acts| ==> all[m] == acts[m];
    assert WroteLast(all, n, q);
  }

  lemma WroteNow(acts: seq<Act>, act: Act, q: Post)
    requires act.Create? || act.Update?
    requires act.account.id == q.account && Text.TrimSpace(act.source) == q.markdown && (act.Update? ==> act.id == q.id)
    ensures SomeWroteLast(acts + [act], q)
  {
    assert (acts + [act])[|acts|] == act;
    assert WroteLast(acts + [act], |acts|, q);
  }

  // In every run, whoever else edits or attaches, every post holds the text its author wrote last,
  // and stays its author's.
  lemma {:induction false} AuthorsWords(w: World, site: Site, acts: seq<Act>)
    ensures OrderedPosts(ActAll(w, site, BLANK, acts).posts)
    ensures forall p <- ActAll(w, site, BLANK, acts).posts :: SomeWroteLast(acts, p)
  {
    hide ActStep, Acceptable, SomeWroteLast, OrderedPosts;
    hide Text.TrimSpace;
    if acts == [] {
      NoPosts();
    } else {
      var n := |acts| - 1;
      AuthorsWords(w, site, acts[..n]);
      var j, act := ActAll(w, site, BLANK, acts[..n]), acts[n];
      var after := ActStep(w, site, j, act);
      ActKeeps(w, site, j, act);
      assert acts[..n] + [act] == acts;
      forall q | q in after.posts ensures SomeWroteLast(acts, q) {
        var i :| 0 <= i < |after.posts| && after.posts[i] == q;
        if i >= |j.posts| {
          WroteNow(acts[..n], act, q);
        } else {
          var p := j.posts[i];
          assert p in j.posts && ActDid(site, act, p, q);
          if act.Update? && act.id == p.id && act.account.id == p.account && Acceptable(act.source) {
            WroteNow(acts[..n], act, q);
          } else if SameWords(p, q) {
            WroteOn(acts[..n], act, p, q);
          } else {
            WroteNow(acts[..n], act, q);
          }
        }
      }
    }
  }

  lemma NoPosts()
    ensures OrderedPosts([])
  {}

  // ---- files ----

  // A file not yet there stands at its place, and the others before and behind it as they were.
  lemma AttachedTells(p: Post, file: File, at: nat)
    requires at <= |p.media|
    ensures var q := Attached(p, file, at);
            && q == p.(media := q.media)
            && (file in p.media ==> q.media == p.media)
            && (file !in p.media ==>
                  && |q.media| == |p.media| + 1 && q.media[at] == file
                  && q.media[..at] == p.media[..at] && q.media[at + 1..] == p.media[at..])
  {}
}
