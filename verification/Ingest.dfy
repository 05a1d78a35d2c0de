// internal/ingest: observations are rows that never change; logical_item and item_search are
// caches over them that every operation maintains incrementally.
module Ingest {
  import opened Common
  import opened Feed
  import C = Convergence
  import Text

  const CLEAN_RETENTION := 30 * 24 * 3600

  // What the model does not look into: SHA-256, the RFC 3339 rendering of a time, and the
  // lower-cased host name of a URL ("" when there is none or the URL does not parse).
  datatype World = World(
    sha: string -> seq<byte>, stamp: Option<int> -> string, host: string -> string)
  {
    ghost predicate Injective() {
      && (forall a, b :: sha(a) == sha(b) ==> a == b)
      && (forall s, t :: stamp(s) == stamp(t) ==> s == t)
      && (forall t :: '\0' !in stamp(t))
    }
  }

  datatype Source = Source(id: nat, feedURL: string, isLocal: bool)

  datatype Payload = Payload(body: string, keepUntil: int)

  // A row of table observation. The text columns are those of the item.
  datatype Row = Row(
    id: nat, source: nat, payload: seq<byte>, key: string, observedAt: int, item: Item,
    fidelity: int, claimed: bool, hash: seq<byte>)

  datatype Logical = Logical(
    winner: nat, reason: C.Reason,
    published: Option<int>, updated: Option<int>, inReplyTo: string, convergedAt: int)

  datatype Doc = Doc(title: string, body: string, author: string)

  // sources and rows are in primary-key order.
  datatype Db = Db(
    sources: seq<Source>, payloads: map<seq<byte>, Payload>, rows: seq<Row>,
    logical: map<string, Logical>, search: map<string, Doc>)

  const EMPTY := Db([], map[], [], map[], map[])

  datatype Error = NoSource | SourceIsLocal | NoKey

  datatype Summary = Summary(payloadStored: bool, observations: nat, converged: nat)

  // ---- columns of an observation ----

  function EffectiveUpdated(item: Item): Option<int> {
    if item.updated.Some? then item.updated else item.published
  }

  function FidelityOf(item: Item): int {
    if item.markdown != "" then C.FIDELITY_MARKDOWN
    else if item.html != "" then C.FIDELITY_HTML
    else C.FIDELITY_NOTHING
  }

  predicate SameSite(a: string, b: string) {
    a == b || Text.TrimPrefix(a, "www.") == Text.TrimPrefix(b, "www.")
  }

  // The item's address is on the site the feed comes from.
  predicate SharesSite(w: World, feedURL: string, candidate: string) {
    w.host(feedURL) != "" && w.host(candidate) != "" && SameSite(w.host(feedURL), w.host(candidate))
  }

  predicate ClaimedByAuthor(w: World, feedURL: string, item: Item, key: string) {
    SharesSite(w, feedURL, key) || SharesSite(w, feedURL, item.link)
  }

  // The byte stream fed to the content hash: zero-terminated fields, then the time.
  function Terminated(parts: seq<string>): string {
    if parts == [] then "" else parts[0] + "\0" + Terminated(parts[1..])
  }

  function EnclosureParts(list: seq<Enclosure>): (r: seq<string>)
    ensures |r| == 3 * |list|
  {
    if list == [] then []
    else [list[0].url, list[0].kind, Text.Itoa(list[0].length)] + EnclosureParts(list[1..])
  }

  function TextParts(item: Item): (r: seq<string>)
    ensures |r| == 6
  {
    [item.title, item.html, item.markdown, item.link, item.inReplyTo, item.author]
  }

  function Preimage(w: World, item: Item): string {
    Terminated(TextParts(item) + EnclosureParts(item.enclosures)) + w.stamp(EffectiveUpdated(item))
  }

  function ContentHash(w: World, item: Item): seq<byte> {
    w.sha(Preimage(w, item))
  }

  function NewRow(w: World, rows: seq<Row>, source: Source, payload: seq<byte>, item: Item, now: int): Row {
    Row(NextId(rows), source.id, payload, ItemKey(item), now, item, FidelityOf(item),
        ClaimedByAuthor(w, source.feedURL, item, ItemKey(item)), ContentHash(w, item))
  }

  // integer primary key: one past the largest id in use.
  function NextId(rows: seq<Row>): nat {
    if rows == [] then 1 else rows[|rows| - 1].id + 1
  }

  function CandidateOf(r: Row): C.Candidate {
    var updated := match EffectiveUpdated(r.item) case Some(t) => t case None => r.observedAt;
    C.Candidate(r.id, r.claimed, updated, r.fidelity, |r.item.enclosures|, r.hash)
  }

  function Candidates(rows: seq<Row>): (cs: seq<C.Candidate>)
    ensures |cs| == |rows| && forall i :: 0 <= i < |rows| ==> cs[i] == CandidateOf(rows[i])
  {
    seq(|rows|, i requires 0 <= i < |rows| => CandidateOf(rows[i]))
  }

  // ---- resolving from scratch ----

  function ForKey(rows: seq<Row>, key: string): (r: seq<Row>)
    ensures forall x :: x in r <==> x in rows && x.key == key
  {
    if rows == [] then []
    else
      var n := |rows| - 1;
      assert forall x :: x in rows <==> x in rows[..n] || x == rows[n];
      if rows[n].key == key then ForKey(rows[..n], key) + [rows[n]] else ForKey(rows[..n], key)
  }

  function KeysOf(rows: seq<Row>): set<string> {
    set r <- rows :: r.key
  }

  function Winner(rows: seq<Row>, key: string): (r: Row)
    requires key in KeysOf(rows)
    ensures r in rows && r.key == key
  {
    var mine := ForKey(rows, key);
    assert mine != [] by { var x :| x in rows && x.key == key; assert x in mine; }
    mine[C.BestAt(Candidates(mine))]
  }

  function ReasonFor(rows: seq<Row>, key: string): C.Reason
    requires key in KeysOf(rows)
  {
    var mine := ForKey(rows, key);
    assert mine != [] by { var x :| x in rows && x.key == key; assert x in mine; }
    C.Resolved(Candidates(mine)).value.reason
  }

  // The text a winner contributes to the full-text index.
  function DocOf(r: Row): Doc {
    var origin := match r.item.source case Some(s) => s.name case None => "";
    Doc(r.item.title,
        if r.item.markdown != "" then r.item.markdown else StripTags(r.item.html),
        if r.item.author != "" then r.item.author else origin)
  }

  function DropTags(html: string, depth: nat): string {
    if html == "" then ""
    else if html[0] == '<' then DropTags(html[1..], depth + 1)
    else if html[0] == '>' && depth > 0 then " " + DropTags(html[1..], depth - 1)
    else if depth == 0 then [html[0]] + DropTags(html[1..], depth)
    else DropTags(html[1..], depth)
  }

  function StripTags(html: string): string {
    Text.JoinFields(Text.Fields(DropTags(html, 0)))
  }

  // ---- one step of each operation ----

  predicate HasId(sources: seq<Source>, id: nat) {
    exists s <- sources :: s.id == id
  }

  function SourceById(sources: seq<Source>, id: nat): (s: Source)
    requires HasId(sources, id)
    ensures s in sources && s.id == id
  {
    if sources[0].id == id then sources[0] else SourceById(sources[1..], id)
  }

  // on conflict (source_id, item_key, content_hash) do nothing
  predicate Recorded(w: World, rows: seq<Row>, source: nat, item: Item) {
    exists r <- rows :: r.source == source && r.key == ItemKey(item) && r.hash == ContentHash(w, item)
  }

  function Record(w: World, rows: seq<Row>, source: Source, payload: seq<byte>, item: Item, now: int): seq<Row> {
    if Recorded(w, rows, source.id, item) then rows
    else rows + [NewRow(w, rows, source, payload, item, now)]
  }

  function RecordAll(w: World, rows: seq<Row>, source: Source, payload: seq<byte>, items: seq<Item>, now: int): (r: seq<Row>)
    ensures rows <= r
  {
    if items == [] then rows
    else
      var n := |items| - 1;
      var before := RecordAll(w, rows, source, payload, items[..n], now);
      if ItemKey(items[n]) == "" then before
      else Record(w, before, source, payload, items[n], now)
  }

  function Touched(items: seq<Item>): set<string> {
    set item <- items | ItemKey(item) != "" :: ItemKey(item)
  }

  function StorePayload(w: World, payloads: map<seq<byte>, Payload>, body: string, now: int): map<seq<byte>, Payload> {
    if w.sha(body) in payloads then payloads
    else payloads[w.sha(body) := Payload(body, now + CLEAN_RETENTION)]
  }

  // on conflict (item_key) do update ... where the winner is another row
  function Upsert(rows: seq<Row>, logical: map<string, Logical>, key: string, now: int): Logical
    requires key in KeysOf(rows)
  {
    var winner := Winner(rows, key);
    if key in logical && logical[key].winner == winner.id then logical[key]
    else Logical(winner.id, ReasonFor(rows, key), winner.item.published,
                 EffectiveUpdated(winner.item), winner.item.inReplyTo, now)
  }

  function Entries(rows: seq<Row>, logical: map<string, Logical>, keys: set<string>, now: int): map<string, Logical>
    requires keys <= KeysOf(rows)
  {
    map k <- keys :: Upsert(rows, logical, k, now)
  }

  function Docs(rows: seq<Row>, keys: set<string>): map<string, Doc>
    requires keys <= KeysOf(rows)
  {
    map k <- keys :: DocOf(Winner(rows, k))
  }

  // Converging a set of keys; keys nothing carries are left alone.
  function Converge(db: Db, keys: set<string>, now: int): Db {
    var live := keys * KeysOf(db.rows);
    db.(logical := db.logical + Entries(db.rows, db.logical, live, now),
        search := db.search + Docs(db.rows, live))
  }

  // The keys whose winner converging would change.
  function Moved(db: Db, keys: set<string>): set<string> {
    set k <- keys * KeysOf(db.rows) |
      k !in db.logical || db.logical[k].winner != Winner(db.rows, k).id
  }

  function IngestStep(w: World, db: Db, source: Source, body: string, items: seq<Item>, now: int): (Db, Result<Summary, Error>) {
    var stored := db.(payloads := StorePayload(w, db.payloads, body, now));
    if Touched(items) != {} && !HasId(db.sources, source.id) then (stored, Err(NoSource))
    else
      var recorded := stored.(rows := RecordAll(w, db.rows, source, w.sha(body), items, now));
      (Converge(recorded, Touched(items), now),
       Ok(Summary(w.sha(body) !in db.payloads,
                  |recorded.rows| - |db.rows|,
                  |Moved(recorded, Touched(items))|)))
  }

  function Except(rows: seq<Row>, source: nat): (r: seq<Row>)
    ensures forall x :: x in r <==> x in rows && x.source != source
  {
    if rows == [] then []
    else
      var n := |rows| - 1;
      assert forall x :: x in rows <==> x in rows[..n] || x == rows[n];
      if rows[n].source == source then Except(rows[..n], source)
      else Except(rows[..n], source) + [rows[n]]
  }

  function Drop(sources: seq<Source>, id: nat): (r: seq<Source>)
    ensures forall x :: x in r <==> x in sources && x.id != id
  {
    if sources == [] then []
    else
      var n := |sources| - 1;
      assert forall x :: x in sources <==> x in sources[..n] || x == sources[n];
      if sources[n].id == id then Drop(sources[..n], id) else Drop(sources[..n], id) + [sources[n]]
  }

  // Items whose winner is an observation of the source.
  function WinningOn(db: Db, source: nat): set<string> {
    set k <- db.logical | exists r <- db.rows :: r.id == db.logical[k].winner && r.source == source
  }

  function RemoveStep(db: Db, id: nat, now: int): (Db, Result<(), Error>) {
    if !HasId(db.sources, id) then (db, Err(NoSource))
    else if SourceById(db.sources, id).isLocal then (db, Err(SourceIsLocal))
    else
      var orphaned := WinningOn(db, id);
      var cut := db.(sources := Drop(db.sources, id), rows := Except(db.rows, id),
                     logical := db.logical - orphaned);
      var again := Converge(cut, orphaned, now);
      (again.(search := again.search - (orphaned - again.logical.Keys)), Ok(()))
  }

  predicate HasURL(sources: seq<Source>, url: string) {
    exists s <- sources :: s.feedURL == url
  }

  function SourceByURL(sources: seq<Source>, url: string): (s: Source)
    requires HasURL(sources, url)
    ensures s in sources && s.feedURL == url
  {
    if sources[0].feedURL == url then sources[0] else SourceByURL(sources[1..], url)
  }

  function NextSourceId(sources: seq<Source>): nat {
    if sources == [] then 1 else sources[|sources| - 1].id + 1
  }

  function AddSourceStep(db: Db, url: string): (Db, Source) {
    if HasURL(db.sources, url) then (db, SourceByURL(db.sources, url))
    else
      var added := Source(NextSourceId(db.sources), url, false);
      (db.(sources := db.sources + [added]), added)
  }

  // update source set is_local = ? where id = ?
  function Mark(sources: seq<Source>, id: nat, isLocal: bool): (r: seq<Source>)
    ensures |r| == |sources|
    ensures forall i :: 0 <= i < |r| ==>
      r[i] == if sources[i].id == id then sources[i].(isLocal := isLocal) else sources[i]
  {
    seq(|sources|, i requires 0 <= i < |sources| =>
      if sources[i].id == id then sources[i].(isLocal := isLocal) else sources[i])
  }

  function EnsureStep(db: Db, url: string, isLocal: bool): (Db, Source) {
    var (added, source) := AddSourceStep(db, url);
    (added.(sources := Mark(added.sources, source.id, isLocal)), source.(isLocal := isLocal))
  }

  function EnsureLocalStep(db: Db, url: string): (Db, Source) { EnsureStep(db, url, true) }

  function EnsureFederatedStep(db: Db, url: string): (Db, Source) { EnsureStep(db, url, false) }

  function PurgeStep(db: Db, now: int): Db {
    db.(payloads := map p <- db.payloads |
          db.payloads[p].keepUntil >= now || (exists r <- db.rows :: r.payload == p)
          :: db.payloads[p])
  }
}
