// internal/publish: posts written here and projected into the timeline like any other item.
module Publish {
  import opened Common
  import opened Feed
  import opened Ingest
  import Text

  const MAX_MARKDOWN_BYTES := 64 * 1024
  const MAX_TITLE_RUNES := 200

  datatype Visibility = Public | Followers | Private

  datatype File = File(url: string, kind: string, bytes: int)

  // A row of table post joined with its media, in position order.
  datatype Post = Post(
    id: nat, account: nat, handle: string, guid: string,
    title: string, markdown: string, html: string, inReplyTo: string, visibility: Visibility,
    published: int, updated: Option<int>, media: seq<File>)

  datatype Member = Member(id: nat, handle: string)

  // The instance's address, without a trailing slash, and its Markdown renderer.
  datatype Site = Site(base: string, render: string -> string)
  {
    function PostURL(id: nat): string { base + "/p/" + Text.Itoa(id) }

    function AccountFeedURL(handle: string): string { base + "/users/" + handle + "/rss.xml" }
  }

  datatype Error = EmptyPost | PostTooLong | NoPost | NotYours

  // posts are in primary-key order.
  datatype Journal = Journal(posts: seq<Post>, db: Db)

  const BLANK := Journal([], EMPTY)

  function NormalizeVisibility(v: string): Visibility {
    if v == "followers" then Followers else if v == "private" then Private else Public
  }

  function Utf8Length(s: string): nat {
    if s == "" then 0
    else
      var c := s[0] as int;
      (if c < 0x80 then 1 else if c < 0x800 then 2 else if c < 0x1_0000 then 3 else 4) + Utf8Length(s[1..])
  }

  function EnclosuresOf(site: Site, media: seq<File>): (r: seq<Enclosure>)
    ensures |r| == |media|
    ensures forall i :: 0 <= i < |r| ==> r[i] == Enclosure(site.base + media[i].url, media[i].kind, media[i].bytes)
  {
    seq(|media|, i requires 0 <= i < |media| =>
      Enclosure(site.base + media[i].url, media[i].kind, media[i].bytes))
  }

  function ItemOf(site: Site, p: Post): Item {
    Item(p.guid, true, p.guid, p.title, p.html, p.markdown, "", Some(p.published), p.updated,
         p.inReplyTo, "", None, Some(Origin(site.AccountFeedURL(p.handle), p.handle)),
         EnclosuresOf(site, p.media), [])
  }

  // project: make sure the author's own feed is a source, then ingest the post from it.
  function Project(w: World, site: Site, db: Db, p: Post, now: int): Db {
    var (ready, source) := EnsureLocalStep(db, site.AccountFeedURL(p.handle));
    IngestStep(w, ready, source, p.markdown, [ItemOf(site, p)], now).0
  }

  function ProjectIfPublic(w: World, site: Site, db: Db, p: Post, now: int): Db {
    if p.visibility.Public? then Project(w, site, db, p, now) else db
  }

  function NextPostId(posts: seq<Post>): nat {
    if posts == [] then 1 else posts[|posts| - 1].id + 1
  }

  predicate HasPost(posts: seq<Post>, id: nat) {
    exists p <- posts :: p.id == id
  }

  function PostById(posts: seq<Post>, id: nat): (p: Post)
    requires HasPost(posts, id)
    ensures p in posts && p.id == id
  {
    if posts[0].id == id then posts[0] else PostById(posts[1..], id)
  }

  // scanPost reads a stored update time back only when it is positive.
  function Read(p: Post): Post {
    p.(updated := if p.updated.Some? && p.updated.value > 0 then p.updated else None)
  }

  // update post set ... where id = ?
  function Replace(posts: seq<Post>, p: Post): (r: seq<Post>)
    ensures |r| == |posts|
    ensures forall i :: 0 <= i < |r| ==> r[i] == if posts[i].id == p.id then p else posts[i]
  {
    seq(|posts|, i requires 0 <= i < |posts| => if posts[i].id == p.id then p else posts[i])
  }

  function Written(site: Site, source: string): Result<string, Error> {
    var trimmed := Text.TrimSpace(source);
    if trimmed == "" then Err(EmptyPost)
    else if Utf8Length(trimmed) > MAX_MARKDOWN_BYTES then Err(PostTooLong)
    else Ok(site.render(trimmed))
  }

  function CreateStep(w: World, site: Site, j: Journal, account: Member, title: string, source: string,
                      inReplyTo: string, visibility: string, now: int): (Journal, Result<Post, Error>) {
    match Written(site, source)
    case Err(e) => (j, Err(e))
    case Ok(html) =>
      if html == "" then (j, Err(EmptyPost))
      else
        var id := NextPostId(j.posts);
        var heading := Text.TrimSpace(title);
        var short := if |heading| > MAX_TITLE_RUNES then heading[..MAX_TITLE_RUNES] else heading;
        var p := Post(id, account.id, account.handle, site.PostURL(id), short, Text.TrimSpace(source), html,
                      inReplyTo, NormalizeVisibility(visibility), now, None, []);
        (Journal(j.posts + [p], ProjectIfPublic(w, site, j.db, p, now)), Ok(p))
  }

  // An edit is stamped after everything it replaces, whatever the clock says.
  function EditStamp(p: Post, now: int): (t: int)
    ensures t > p.published && (p.updated.Some? ==> t > p.updated.value)
    ensures now > p.published && (p.updated.Some? ==> now > p.updated.value) ==> t == now
  {
    var afterPublished := if now > p.published then now else p.published + 1;
    if p.updated.Some? && afterPublished <= p.updated.value then p.updated.value + 1 else afterPublished
  }

  function UpdateStep(w: World, site: Site, j: Journal, account: Member, id: nat, title: string,
                      source: string, now: int): (Journal, Result<Post, Error>) {
    if !HasPost(j.posts, id) then (j, Err(NoPost))
    else
      var p := Read(PostById(j.posts, id));
      if p.account != account.id then (j, Err(NotYours))
      else
        match Written(site, source)
        case Err(e) => (j, Err(e))
        case Ok(html) =>
          var edited := p.(title := Text.TrimSpace(title), markdown := Text.TrimSpace(source),
                           html := html, updated := Some(EditStamp(p, now)));
          (Journal(Replace(j.posts, edited), ProjectIfPublic(w, site, j.db, edited, now)), Ok(edited))
  }

  // Attaching a file puts it somewhere in the position order, once; the caller then refreshes.
  function Attached(p: Post, file: File, at: nat): Post
    requires at <= |p.media|
  {
    if file in p.media then p else p.(media := p.media[..at] + [file] + p.media[at..])
  }

  function AttachStep(j: Journal, id: nat, file: File, at: nat): Journal {
    if HasPost(j.posts, id) && at <= |PostById(j.posts, id).media|
    then j.(posts := Replace(j.posts, Attached(PostById(j.posts, id), file, at)))
    else j
  }

  // A file and the place in the position order it is put at.
  datatype Placement = Placement(file: File, at: nat)

  // The submitted files, one after the other.
  function AttachAll(j: Journal, id: nat, files: seq<Placement>): Journal {
    if files == [] then j
    else
      var n := |files| - 1;
      AttachStep(AttachAll(j, id, files[..n]), id, files[n].file, files[n].at)
  }

  function RefreshStep(w: World, site: Site, j: Journal, id: nat, now: int): (Journal, Result<Post, Error>) {
    if !HasPost(j.posts, id) then (j, Err(NoPost))
    else
      var p := Read(PostById(j.posts, id));
      (j.(db := ProjectIfPublic(w, site, j.db, p, now)), Ok(p))
  }
}
