# rss-expert, verified

A Dafny model of the parts of rss-expert that keep state or transform data, with proofs of what
they promise. Each source file that updates things in place is modelled by a class or by methods
with loops, proved against functions on values; the theorems are lemmas about those functions and
about whole runs of them. `dafny verify dfyconfig.toml` checks everything.

- **Convergence as a materialised view** (`Convergence`, `Ingest`, `IngestView`, `IngestRuns`,
  `IngestOrder`, `IngestRemoval`, `ShownCopy`, `StoreHistory`, `RowOrigins`, `IngestStore`).
  Observations are rows with ids allocated as one more than the largest; `logical_item` and
  `item_search` are maps kept up to date by each operation. In every run they hold what resolving
  every key from scratch would. SHA-256, the time an address stands for and the host of an
  address are parameters.
- **Publishing** (`Publish`, `PublishRuns`, `PostHistory`, `PostOrigins`, `PublishStore`). Posts
  are projected into the same store as any feed; the timestamps an edit gets make it win there.
- **The feed document** (`Xml`, `Writer`, `WriterReads`, `Decode`, `RoundTrip`, `Namespaces`,
  `Rss`, `RssReads`, `RssDocument`, `Scan`, `RssItems`, `RssScan`, `RssAgain`, `RssFields`,
  `FeedWords`). A printer with indentation and prefix allocation, a small XML tokenizer (section
  2.4 of XML 1.0, sections 3 and 5 of Namespaces in XML 1.0) and the recursive reader. They undo
  each other on whole trees, and the scanner recovers from the written document what the feed
  said.
- **The limiter** (`RateLimit`, `RateHistory`). Token buckets over real numbers, with the sweep
  that forgets idle ones.
- **The job queue** (`Jobs`, `JobsProtocol`, `JobsHistory`). The table and its updates, and the
  protocol of workers that share it, with a log of every job's life.
- **Byte and stream transformers** (`Strip`, `StripPng`, `MediaFiles`, `Compress`,
  `CompressSays`, `Base64`, `HeaderText`, `Signature`, `Signature9421`, `SignatureVerify`,
  `SignatureSays`, `Opml`, `OpmlSays`).

The modules whose names end in `History`, `Origins` or `Says`, and `ShownCopy`, `RssFields`,
`FeedWords` and `MediaFiles`, say what the specification functions mean without using them: in
field names, numbers and literal texts, over whole runs or for every input.

`Common`, `Text` and `Feed` hold the shared value types, Go's string helpers and the neutral feed
model.

## What turned out not to hold

Each of these is kept as the code has it, with a concrete counterexample and the exact condition.

- The very same winner for every order of candidates: if and only if no other candidate shares its
  rank (`Convergence.WinnerIdentityIffTopUnshared`, `Convergence.SharedTopFollowsOrder`).
- Order independence of deliveries: for any set of pairs, if and only if nothing arrives under the
  key, or some dated pair under it that no other outranks or can come later than is worth the same
  as every pair of its feed with its content hash (`IngestOrder.OrderIrrelevantIff`). Undated items
  break it (`IngestOrder.UndatedOrderMatters`), and so do dated ones that hash alike through a zero
  character (`IngestOrder.TwinOrderMatters`); without zero characters the condition is that every
  version not outdone by a claim is dated (`IngestOrder.ZeroFreeOrderIff`).
- The content hash as an identity of an item: if and only if the item holds no zero character and
  has no enclosures (`IngestRuns.HashIdentifiesIff`, `IngestRuns.ZeroBreaksHash`). Between two
  items without zero characters it always is one (`IngestRuns.HashCovers`).
- Every edit stamped after the last: if and only if the stored stamp is positive
  (`PublishRuns.EditsAdvanceIffPositive`, `PublishRuns.EditBeforeEpochRepeats`).
- An item's key coming back from its own document: not when it has no guid and an unknown element
  offers another id, or a link where the item has none (`RssItems.KeyComesBack`,
  `RssItems.AtomIdTakesOver`).
- A feed without items read without items: if and only if no unknown element contains something
  called item or entry (`RssScan.EmptyFeedReadsBack`, `RssScan.BoxBecomesItem`).
- A document that settles after one trip: it does for everything but the links a feed is written
  with, and for those if and only if it has neither a hub nor an address of its own
  (`RssAgain.SecondTrip`, `RssAgain.OwnLinkDoubles`).
- An invisible sweep: if and only if an hour refills at least a burst of at least one
  (`RateLimit.SweepInvisibleIff`, `RateLimit.SlowRefillShows`). The bound of burst and refill on every
  window holds under the same condition (`RateLimit.WindowBoundedIff`).
- At most MaxAttempts claims of a job: if and only if it is never claimed again after the lease of
  its last chance has run out (`JobsProtocol.NeverOverspentIff`, `JobsProtocol.LateClaimIsExpiry`,
  `JobsProtocol.ExpiryOverspends`).
- The classes of the queue staying apart when a settlement comes late: `JobsProtocol.SettlementKeepsApartIff`
  says exactly when, `JobsProtocol.LateSettlementBreaksCount` shows a late success that breaks it.
- Every handler's writes reaching the client through the compressor: if and only if no status comes
  too late (`Compress.AnyHandlerServedIff`, `Compress.LateNoContentLoses`).
- A signature's key id coming back from its own header: if and only if it needs no escaping and
  holds no semicolon (`Signature9421.KeySurvivesIff`, `Signature9421.QuotedKeyLost`).
- A second trip of a subscription list changing nothing: if and only if the first leaves every
  category in one place (`Opml.SecondTripIdentityIff`, `Opml.SpacesComeTogether`).
- The changed flag of the PNG stripper: wrong exactly when bytes behind the last chunk are cut off
  and no chunk is dropped (`StripPng.PNGChangedIff`, `StripPng.TruncatedGoesUnreported`).

## Model

| member | source | states |
|---|---|---|
| `Convergence.BestAt` | internal/convergence/convergence.go:61-69 | the index found is the first one no other candidate beats |
| `Convergence.Best` | internal/convergence/convergence.go:61-69 | the loop returns the first unbeaten candidate and where it stands |
| `Convergence.Resolve` | internal/convergence/convergence.go:42-59 | the loop over the losers agrees with the specification: the winner, and the reason of the best of the rest. What the order prefers is ShownCopy.BestCopyShown |
| `Convergence.BeatsAsymmetric` | internal/convergence/convergence.go:71-85 | no two candidates beat each other, neither does exactly when their ranks are equal, and the criterion does not depend on who is asked |
| `Convergence.BeatsThrough` | internal/convergence/convergence.go:71-85 | the order is a strict weak order: what does not beat b is beaten by what beats b |
| `Convergence.ResolveIsMaximal` | internal/convergence/convergence.go:42-59 | Resolve answers for every non-empty list, with a candidate nothing outranks |
| `Convergence.CloserDiffersLater` | internal/convergence/convergence.go:52-58 | a competitor ranked between the winner and another loser is separated from the winner no earlier than that loser is |
| `Convergence.ReasonIsTheClosest` | internal/convergence/convergence.go:42-85 | the reported reason is the criterion separating the winner from some loser, and for every loser the separating criterion comes no later |
| `Convergence.ResolveIgnoresOrder` | internal/convergence/convergence.go:42-85 | the winning rank and the reason are the same for every permutation of the candidates |
| `Convergence.WinnerIdentityIffTopUnshared` | internal/convergence/convergence.go:61-69 | every permutation gives the very same winner if and only if no other candidate shares its rank |
| `Convergence.SharedTopFollowsOrder` | internal/convergence/convergence.go:61-69 | two candidates of equal rank, in either order: the first one wins both times |
| `ShownCopy.BestCopyShown` | internal/convergence/convergence.go:71-85 | in every run, for the row a key shows and every row of that key: an unclaimed row never shows over a claimed one, then never an older over a later, then no HTML over Markdown and no bare copy over either, then never fewer enclosures over more, then never the larger hash over one smaller at the first differing byte, then never the later row |
| `ShownCopy.MarkdownWins` | internal/convergence/convergence.go:71-85 | a concrete pair: a Markdown and an HTML copy of one date, in either order; the Markdown copy wins for its fidelity |
| `ShownCopy.ReasonTells` | internal/convergence/convergence.go:71-85 | which difference between two rows each reason stands for |
| `Ingest.ForKey` | internal/ingest/ingest.go:139-146 | the rows a key is converged from are exactly the rows carrying it |
| `Ingest.Winner` | internal/ingest/ingest.go:139-160 | the winner of a key with rows is one of the rows carrying that key |
| `IngestView.WinnerIsWinner` | internal/ingest/ingest.go:139-160 | reading candidates in id order makes the winner the lowest-id row that no row of the key outranks |
| `IngestView.WinnerUnique` | internal/ingest/ingest.go:139-160 | there is only one such row |
| `IngestView.IngestKeepsInv` | internal/ingest/ingest.go:44-89 | ingesting any document from any source keeps the caches equal to resolving every key from scratch, keeps ids, the unique index and the foreign keys |
| `IngestView.RemoveKeepsInv` | internal/ingest/source.go:278-349 | so does removing a source, with the cascade on its observations |
| `IngestView.PurgeKeepsInv` | internal/ingest/ingest.go:438-447 | so does purging payloads, which never takes one that an observation still points at |
| `IngestView.AddSourceKeepsInv` | internal/ingest/source.go:86-109 | so does adding a source, whose address stays unique |
| `IngestView.EnsureKeepsInv` | internal/ingest/ingest.go:347-374 | so does making a source local or federated, whether or not it is already followed |
| `IngestView.StepKeepsInv` | internal/ingest/ingest.go:44-447 | every operation that writes observations, payloads, caches or the set of sources keeps the whole invariant |
| `IngestView.EveryRunAgrees` | internal/ingest/ingest.go:139-209 | in every run from an empty store, a key is in logical_item and in item_search exactly when a row carries it, and both hold the recomputed winner |
| `IngestView.CachedWinner` | internal/ingest/ingest.go:139-209 | the same for one key in terms of the rows alone: the cached row is the lowest-id rank-maximal one, the cached dates and reply address are its own, the search text is its text |
| `IngestRuns.ReingestIsNoop` | internal/ingest/ingest.go:44-89 | ingesting the same document again, however much later, changes nothing and reports nothing new |
| `IngestRuns.WinnerNeverRegresses` | internal/ingest/ingest.go:139-209 | without removals, no sequence of deliveries in any order replaces a winner by something that ranks below it |
| `IngestRuns.HashCovers` | internal/ingest/ingest.go:259-278 | for two items without zero characters, equal content hashes mean equal covered fields, enclosures and effective date, and the other way round |
| `IngestRuns.HashCoversMore` | internal/ingest/ingest.go:259-278 | the same when only one of them is free of zero characters and the other has at least as many enclosures |
| `IngestRuns.HashIdentifiesIff` | internal/ingest/ingest.go:225-278 | the hash of an item identifies what it covers among all items if and only if the item holds no zero character and has no enclosures |
| `IngestRuns.ZeroMovesBoundary` | internal/ingest/ingest.go:259-278 | an item with a zero character in any covered text has a twin with other texts and the same key and hash |
| `IngestRuns.EnclosureMovesBoundary` | internal/ingest/ingest.go:259-278 | an item with enclosures has a twin with one fewer and the same key and hash |
| `IngestRuns.TerminatedInjective` | internal/ingest/ingest.go:259-278 | zero-terminated fields can be told apart when they hold no zero character |
| `IngestRuns.ZeroSplits` | internal/ingest/ingest.go:259-278 | a zero character inside a field hashes like a field boundary |
| `IngestRuns.ZeroBreaksHash` | internal/ingest/ingest.go:225-233 | a concrete pair: two items of different fidelity that hash alike whatever the hash function and their common date are |
| `IngestRuns.RunKeepsInv` | internal/ingest/ingest.go:139-209 | the invariant from any sound store on |
| `IngestOrder.SamePairsSameOutcome` | internal/ingest/ingest.go:114-209 | two stores that receive the same (feed, item) pairs under a key, in any order, batching or repetition and whatever arrives under other keys, end with the same winning rank and content hash under it if it is settled: nothing arrives under it, or some dated pair under it is outranked by no dated one, has a claim no undated one has if there are any, and is worth the same as every pair of its feed that hashes like it |
| `IngestOrder.OrderIrrelevantIff` | internal/ingest/ingest.go:114-209 | for any pairs at all, dated or not and whatever characters they hold, all stores that receive exactly these pairs agree under a key if and only if the key is settled |
| `IngestOrder.ZeroFreeOrderIff` | internal/ingest/ingest.go:114-209 | for items under the key without zero characters that is the case if and only if every pair under it that is not outdone by a claim is dated |
| `IngestOrder.PairHasRowRank` | internal/ingest/ingest.go:114-137 | a delivery kept out by the unique index was kept out by a row of the same rank |
| `IngestOrder.UndatedOrderMatters` | internal/ingest/ingest.go:139-146 | a concrete pair of undated deliveries that, swapped, end with different winners |
| `IngestOrder.TwinOrderMatters` | internal/ingest/ingest.go:114-146 | a concrete pair of dated deliveries of one feed that hash alike through a zero character and, swapped, end with winners of different fidelity |
| `ShownCopy.ClaimedOnSite` | internal/ingest/ingest.go:235-257 | an item counts as claimed if and only if its key or its link has the host of its feed, "www." aside, and that host is not empty |
| `ShownCopy.EveryRowTells` | internal/ingest/ingest.go:114-137 | in every run in which the registered sources deliver, every row names a source and is claimed exactly when its key or link is on the site of that source |
| `ShownCopy.FoundBy` | internal/ingest/ingest.go:139-209 | in every run the search entry of a key holds the title, the Markdown or else the HTML without its tags, and the author or else the origin of the row shown; the cached dates and reply address are that row's |
| `ShownCopy.TagDropped` | internal/ingest/ingest.go:421-436 | a tag counts as one space, what stands before it stays, and the rest is stripped in the same way |
| `IngestRuns.CoveredParts` | internal/ingest/ingest.go:259-278 | what two items with the same covered fields have in common, field by field |
| `StoreHistory.LocalIffLastTold` | internal/ingest/ingest.go:347-374 | in every run a source is local if and only if the last call that named its address as local or federated named it as local |
| `StoreHistory.BodyKept` | internal/ingest/ingest.go:91-103 | a new body is stored under its hash for 2592000 seconds, one already stored is left as it is, and nothing else is |
| `StoreHistory.PayloadDroppedIff` | internal/ingest/ingest.go:438-447 | a payload is dropped if and only if the operation is a purge, its time is over and no row points at it; otherwise it does not change |
| `StoreHistory.ReportTells` | internal/ingest/ingest.go:44-89 | the summary says whether the body was new, how many rows came and under how many keys something else is shown; an ingest fails if and only if its source is not registered and an item has a key |
| `RowOrigins.EveryRowDelivered` | internal/ingest/ingest.go:44-137 | in every run each row holds an item that was delivered, as it was delivered, under its guid or else its link, for the source, the body and the moment of that delivery |
| `RowOrigins.EveryItemRecorded` | internal/ingest/ingest.go:114-137 | each delivered item with a key has a row of its source under its key with its content hash |
| `RowOrigins.RemovalTells` | internal/ingest/source.go:278-349 | a source is removed unless it is unknown or local; its rows go and all others stay |
| `RowOrigins.StoredReason` | internal/ingest/ingest.go:139-209 | whenever an ingest changes what a key shows, the reason stored with it names a difference between the row shown and another of its key, and no other row differs from it only later; it is the only candidate exactly when there is no other row |
| `IngestRemoval.RemovalForgets` | internal/ingest/source.go:278-349 | after removing a source every key shows the same winner, dates and search text as if the run had never ingested from it |
| `IngestStore.HashContent` | internal/ingest/ingest.go:259-278 | the hasher fed field by field gives the hash of the terminated fields |
| `IngestStore.Store.constructor` | internal/ingest/source.go:64-68 | a new store is empty and sound |
| `IngestStore.Store.AddSource` | internal/ingest/source.go:86-109 | an address already followed gives its source back unchanged; otherwise a source with the next id is added |
| `IngestStore.Store.EnsureLocalSource` | internal/ingest/ingest.go:347-359 | the source of the address exists afterwards and is local |
| `IngestStore.Store.EnsureFederatedSource` | internal/ingest/ingest.go:361-374 | the source of the address exists afterwards and is not local |
| `IngestStore.Store.StorePayload` | internal/ingest/ingest.go:91-103 | a body is stored under its hash once, and the answer says whether it was new |
| `IngestStore.Store.RecordObservation` | internal/ingest/ingest.go:114-137 | a row is added exactly when the unique index on source, key and hash lets it in |
| `IngestStore.Store.Index` | internal/ingest/ingest.go:395-419 | the search entry of the key holds the text of its winner |
| `IngestStore.Store.CandidatesFor` | internal/ingest/ingest.go:139-158 | the candidates are the rows of the key, in id order |
| `IngestStore.Store.Converge` | internal/ingest/ingest.go:139-209 | the cached entry and the search text of the key become those of its winner, a key nothing carries is left alone, and changed says whether the winner moved |
| `IngestStore.Store.Ingest` | internal/ingest/ingest.go:44-89 | the whole new state and the summary are those of recording every keyed item and converging the touched keys |
| `IngestStore.Store.IngestItem` | internal/ingest/ingest.go:376-393 | one item ingested is the document with that one item |
| `IngestStore.Store.ItemsWinningOn` | internal/ingest/source.go:313-332 | the loop over the cached items collects exactly the keys whose winner is a row of the source |
| `IngestStore.Store.Forget` | internal/ingest/source.go:334-349 | the search entry of a key without an item is gone, and nothing else |
| `IngestStore.Store.RemoveSource` | internal/ingest/source.go:278-311 | an unknown or local source is refused; otherwise its rows are gone and every key it was winning has been resolved again or forgotten |
| `IngestStore.Store.PurgeExpiredPayloads` | internal/ingest/ingest.go:438-447 | exactly the expired payloads no row points at are dropped, and counted |
| `Publish.EditStamp` | internal/publish/publish.go:260-266 | an edit is stamped after publication and after the stamp it read, and with the clock whenever the clock is ahead of both |
| `PublishRuns.EditsAdvanceIffPositive` | internal/publish/publish.go:308-323 | a further edit is always stamped later, whatever the clock says, if and only if the stored stamp is positive: zero and below are read back as never edited |
| `PublishRuns.EditBeforeEpochRepeats` | internal/publish/publish.go:308-323 | a concrete clock before the epoch that stamps two edits alike |
| `PublishRuns.PreimageFixesStamp` | internal/ingest/ingest.go:259-278 | equal hash inputs mean equal effective dates |
| `PublishRuns.AttachingGrows` | internal/publish/feeds.go:50-80 | attaching a file gives the projected item more enclosures and a longer hash input and leaves its date and fidelity |
| `PublishRuns.ProjectShows` | internal/publish/publish.go:118-126 | projecting a post whose claimed rows are all earlier versions of it stores its current version, and every other claimed row is still an earlier one |
| `PublishRuns.ProjectLeavesOthers` | internal/publish/publish.go:118-126 | and leaves what is shown for every other post |
| `PublishRuns.AllGood` | internal/publish/publish.go:179-284 | for any post: in every run of creating, editing, attaching any number of files before a refresh, and anything elsewhere that is honest about this one post, it is shown when public and every invariant of the store holds; all other posts, addresses and feeds are free |
| `PublishRuns.TimelineShowsCurrent` | internal/publish/publish.go:118-139 | what the timeline shows for a public post has the rank and content hash of the post as it stands now, even if the clock goes backwards, provided it was not created before 1970, its author feed is not registered as a remote actor, and no foreign delivery under its own address is claimed by its author |
| `PublishRuns.TimelineShowsText` | internal/publish/publish.go:118-139 | for a post without zero characters, whatever any other item in the store holds, the shown row, the cached date and the search entry carry the current title, text and enclosures, field by field |
| `PublishRuns.LaterClaimHides` | internal/ingest/ingest.go:139-160 | a foreign item under the address of a post that is claimed and dated later takes its place: that proviso is needed |
| `PostHistory.CreateTells` | internal/publish/publish.go:179-236 | a post is stored with the trimmed title of at most 200 characters, the trimmed text, its rendering, its author, the visibility asked for and its own address; it is refused exactly for blank text, text of more than 65536 bytes or an empty rendering |
| `PostHistory.Utf8Append` | internal/publish/publish.go:186-192 | the length in bytes is added up over the characters |
| `PostHistory.Utf8OfChar` | internal/publish/publish.go:186-192 | the bytes of one character, by its number |
| `PostHistory.UpdateTells` | internal/publish/publish.go:238-284 | an edit goes through only for the account that wrote the post, and otherwise changes nothing; it replaces title, text and rendering and leaves number, account, address, visibility, publication and files, and every other post |
| `PostHistory.ActKeeps` | internal/publish/publish.go:179-284 | no act removes a post or changes its author, address, visibility or publication, and only an edit by its own account changes its words |
| `PostHistory.AuthorsWords` | internal/publish/publish.go:179-284 | in every run every post holds the text that its own account wrote last |
| `PostOrigins.EveryRowAccounted` | internal/publish/publish.go:118-284 | in every run every row was delivered from elsewhere or stands under the address of a public post |
| `PostOrigins.ProjectedTells` | internal/publish/feeds.go:50-80 | what projecting a post adds is one item of its author's local feed, with the address, words, dates, origin and files of the post, field by field |
| `PostOrigins.HiddenStaysHidden` | internal/publish/publish.go:118-284 | in every run whatever stands under the address of a post for followers or for its author alone came from elsewhere: the post itself never reaches the store |
| `PostHistory.AttachedTells` | internal/media/media.go:294-304 | a file not yet in the post is put at its position between the others, and nothing else changes |
| `PublishStore.Publisher.CreateVisible` | internal/publish/publish.go:179-236 | the new journal and store are those of adding the post and projecting it when public; blank text and long text are refused |
| `PublishStore.Publisher.Update` | internal/publish/publish.go:238-284 | the new state is that of replacing the post, stamped later, and projecting it; a missing or foreign post and blank text are refused. What that says of each post is PostHistory.UpdateTells |
| `PublishStore.Publisher.Attach` | internal/media/media.go:294-304 | the file is in the post once, at its position |
| `PublishStore.Publisher.AttachToPost` | internal/web/media.go:113-123 | the submitted files are attached one after the other |
| `PublishStore.Publisher.RefreshProjection` | internal/publish/publish.go:128-139 | the post as stored is projected again when public |
| `PublishStore.Publisher.Project` | internal/publish/publish.go:118-126 | the author feed is a local source and the post has been ingested from it |
| `Xml.Clean` | internal/feedout/xmlwriter.go:26-28 | every character XML 1.0 cannot carry becomes U+FFFD, every other stays |
| `Xml.EscapedReads` | internal/feedout/xmlwriter.go:26-28 | each escaped character is read back as itself, whatever follows it |
| `FeedWords.CharactersTell` | internal/feedout/xmlwriter.go:26-28 | a character other than the eight written as references is written as itself, or as U+FFFD when its number is not one XML allows |
| `FeedWords.QuotesTell` | internal/feedout/xmlwriter.go:26-28 | the references quotes are written as |
| `FeedWords.MarkupTells` | internal/feedout/xmlwriter.go:26-28 | the references of the characters of markup |
| `FeedWords.SpacesTell` | internal/feedout/xmlwriter.go:26-28 | the references of tab and line ends |
| `FeedWords.TreeLooks` | internal/feedout/xmlwriter.go:80-102 | a concrete tree as it is printed: a line for each tag, indented by a tab, the empty element closed in itself |
| `Writer.Printer.Open` | internal/feedout/xmlwriter.go:40-47 | appends the indented start tag and goes one level down |
| `Writer.Printer.Close` | internal/feedout/xmlwriter.go:49-55 | goes one level up and appends the indented end tag |
| `Writer.Printer.Leaf` | internal/feedout/xmlwriter.go:57-71 | appends one line with the element, self-closing when it has no text |
| `Writer.Printer.Optional` | internal/feedout/xmlwriter.go:73-78 | appends a leaf, or nothing for an empty text |
| `Writer.Printer.Element` | internal/feedout/xmlwriter.go:80-102 | appends the printed tree at the current depth and comes back to that depth |
| `Writer.ForestAppend` | internal/feedout/xmlwriter.go:97-100 | elements printed one after the other are the printed sequence |
| `WriterReads.ElementReads` | internal/feedout/xmlwriter.go:80-102 | the printed tree is tokenized into exactly its start tags, characters and end tags |
| `WriterReads.LexTag` | internal/feedout/xmlwriter.go:40-71 | a printed tag is read back with its name and every attribute value |
| `Decode.DecodeElement` | internal/feedin/xmlscan.go:205-240 | the recursive reader collects text and children as the specification does, also when the input ends early |
| `Decode.DecodeAttrs` | internal/feedin/xmlscan.go:208-214 | namespace declarations are dropped, the other attributes kept in order with canonical namespaces |
| `Decode.ReadDocument` | internal/feedin/xmlscan.go:182-203 | the first element of the document is decoded; a document without one is an error |
| `RoundTrip.QualifiedTranslates` | internal/feedout/namespaces.go:65-76 | a qualified name is translated back to the namespace and local name it came from |
| `RoundTrip.TreeRoundTrip` | internal/feedout/xmlwriter.go:80-102 | for every tree with proper names and no namespace declarations among its attributes, whatever its texts, printing at any depth and decoding gives the tree with trimmed and cleaned texts and the canonical source namespace |
| `RoundTrip.CanonicalUnchanged` | internal/feedin/xmlscan.go:205-247 | that normal form is the tree itself if and only if its texts are trimmed and printable and it does not use the legacy namespace |
| `Namespaces.KnownPrefix` | internal/feedout/namespaces.go:10-22 | every well-known prefix is a proper name, not reserved, and not one a generated prefix can equal |
| `FeedWords.WellKnownTells` | internal/feedout/namespaces.go:10-22 | the prefix of each of the well-known namespaces, by its address |
| `Namespaces.GeneratedInjective` | internal/feedout/namespaces.go:48-52 | generated prefixes never repeat |
| `Namespaces.FreshPrefix` | internal/feedout/namespaces.go:39-63 | a generated prefix never collides with any prefix in the table, so the retry loop ends at its first try |
| `Namespaces.UseKeepsValid` | internal/feedout/namespaces.go:39-54 | registering keeps the table injective in both directions, each address listed once, and gives the address a prefix |
| `Namespaces.RegisterCovers` | internal/feedout/namespaces.go:102-110 | every name in a registered tree has a prefix |
| `Namespaces.CollectedCovers` | internal/feedout/namespaces.go:78-100 | after collecting, every name in every unknown tree resolves without the bare-local fallback, and every namespace the feed fields need is registered |
| `Namespaces.Prefixes.Use` | internal/feedout/namespaces.go:39-54 | the table afterwards and the prefix are those of the specification |
| `Namespaces.Prefixes.PrefixIsTaken` | internal/feedout/namespaces.go:56-63 | answers whether some binding has the prefix |
| `Namespaces.Prefixes.RegisterTree` | internal/feedout/namespaces.go:102-110 | registers the name of every element and attribute, parents first |
| `Namespaces.Prefixes.Collect` | internal/feedout/namespaces.go:78-100 | the whole table of a feed |
| `Rss.WriteItem` | internal/feedout/rss.go:101-157 | appends the printed elements of the item in order: its fields, the source elements that have a prefix, its unknown elements. Which field stands under which name is RssFields.ItemSaid |
| `Rss.WriteChannel` | internal/feedout/rss.go:46-99 | appends the channel: titles, links, cloud, self and accounts, unknown elements, items |
| `Rss.RSS` | internal/feedout/rss.go:27-44 | the document is the declaration, the root with every namespace declared once, and the channel |
| `RssReads.RootDeclares` | internal/feedout/rss.go:34-38 | the scope the root opens binds every prefix of the table to its address and no default namespace |
| `RssReads.ItemWellnamed` | internal/feedout/rss.go:101-157 | every element of a written item has a proper name whose namespace is declared |
| `RssDocument.TableForFeed` | internal/feedout/rss.go:27-31 | the table a feed is written with is valid and covers everything in it, so no field is dropped for lack of a prefix |
| `RssDocument.DocumentDecodes` | internal/feedout/rss.go:27-44 | decoding the written document gives the tree of the feed, every text trimmed, nothing lost |
| `RssFields.ItemSaid` | internal/feedout/rss.go:101-157 | among the elements of a written item each field is found under its own name and namespace, trimmed and cleaned, with its attributes, and not at all when it is empty: title, description, pubDate, guid with its flag, link unless it is the guid, source, author, comments, the enclosures in order, and markdown, inReplyTo, in-reply-to, comments and updated |
| `RssFields.ChannelSaid` | internal/feedout/rss.go:46-99 | the same for the channel: title, link, description, language, the two dates, generator, docs, cloud, self, the accounts with a handle, the hub and self links before any other link, and one item element for each item with what that item says |
| `RssFields.DocumentSays` | internal/feedout/rss.go:27-157 | for every feed, decoding the document it is written as gives an rss element of version 2.0 with one channel that says all this |
| `Text.ItoaTells` | internal/feedout/rss.go:119-123 | numbers are written in base ten |
| `Scan.CollectAccounts` | internal/feedin/xmlscan.go:93-107 | exactly the source accounts with a handle, in order |
| `Scan.CollectUnknown` | internal/feedin/xmlscan.go:167-180 | exactly the namespaced children that are neither items nor read into a field, in order |
| `Scan.CollectItems` | internal/feedin/xmlscan.go:74-91 | the direct items, or else every item anywhere, or else every entry anywhere |
| `Scan.ScanDocument` | internal/feedin/xmlscan.go:51-72 | the scan of a document is the scan of its decoded root, or the decoding error |
| `FeedWords.KeyTells` | internal/feedin/xmlscan.go:145-165 | the key of any item element: guid, or else atom:id, or else link, or else the address of a link of its own |
| `FeedWords.TextsTell` | internal/feedin/xmlscan.go:109-143 | the Markdown, the comments page and what is replied to of any item element, by the names of the elements they are taken from |
| `FeedWords.ExtrasTell` | internal/feedin/xmlscan.go:109-143 | the key is a permalink unless the attribute says false, in any case; origin and comments are there exactly when their element says something |
| `FeedWords.DocumentTells` | internal/feedin/xmlscan.go:51-107 | for any document: the channel or else the root is looked at, its self and its accounts are taken, and its direct items or else those further down |
| `RssItems.KeyRead` | internal/feedin/xmlscan.go:145-165 | the key scanned is the guid, else a foreign atom:id, else the link, else the first foreign link with an address |
| `RssItems.PermalinkRead` | internal/feedin/xmlscan.go:118-122 | the permalink flag comes back; an item without a guid counts as having one |
| `RssItems.ReplyRead` | internal/feedin/xmlscan.go:123-127 | the reply address comes back from the source element or else from the thread element |
| `RssItems.CommentsRead` | internal/feedin/xmlscan.go:135-141 | comments come back with their count when they have a feed address, and not otherwise |
| `RssItems.OriginRead` | internal/feedin/xmlscan.go:128-134 | the origin comes back when it has an address or a name |
| `RssItems.UnknownRead` | internal/feedin/xmlscan.go:167-180 | the unknown elements come back, all of them and in order, and nothing the writer added is among them |
| `RssItems.ItemReadsBack` | internal/feedin/xmlscan.go:109-143 | for every item whose unknown elements are foreign, whatever its texts, the scan of the written item is given field by field |
| `RssItems.SettledSeen` | internal/feedin/xmlscan.go:109-143 | for trimmed, printable fields every field is the original one |
| `RssItems.KeyComesBack` | internal/feedin/xmlscan.go:145-165 | the key is the item key if and only if the item has a guid, or its unknown elements offer no competing id or link |
| `RssItems.AtomIdTakesOver` | internal/feedin/xmlscan.go:145-165 | a concrete item with a link, no guid and an unknown atom:id, which comes back under that id |
| `RssScan.FeedReadsBack` | internal/feedout/rss.go:46-157 | scanning the document of any feed with items and foreign unknown elements gives self, the accounts with a visible handle, every item, and the unknown elements behind the links the writer added |
| `RssScan.SettledFeedReadsBack` | internal/feedin/xmlscan.go:51-72 | for settled feeds self, accounts and items are the originals, and the original unknown elements are a suffix, preceded only by atom:link elements |
| `RssScan.EmptyFeedReadsBack` | internal/feedin/xmlscan.go:74-91 | a feed without items is read without items if and only if none of its unknown elements contains something called item or entry |
| `RssScan.BoxBecomesItem` | internal/feedin/xmlscan.go:74-91 | a concrete feed without items that comes back with one |
| `RssAgain.SecondTrip` | internal/feedin/parse.go:71-107 | a feed that was written and scanned meets the conditions for being written and scanned again; its address, accounts and everything scanned of its items but the key and its flag stay as they were, no unknown element is lost, and none is added if and only if there is neither a hub nor an address of its own |
| `RssAgain.ItemSeenAgain` | internal/feedin/parse.go:71-107 | an item with its scan laid over it, whatever the generic parser made of it, is scanned as before, its key and the flag of the key aside |
| `RssAgain.OwnLinkDoubles` | internal/feedout/rss.go:56-66 | a concrete feed with an address, whose own link is doubled by the second trip |
| `RateLimit.Limiter.constructor` | internal/web/ratelimit.go:24-31 | a new limiter has seen nobody and was swept now |
| `RateLimit.Limiter.Sweep` | internal/web/ratelimit.go:39-46 | exactly the buckets used within the last hour stay |
| `RateLimit.Limiter.Allow` | internal/web/ratelimit.go:33-63 | the answer and the whole new state are those of the specification step |
| `RateLimit.TokensStayBounded` | internal/web/ratelimit.go:52-62 | in every run with a clock that never goes back, stored tokens stay between zero and the burst |
| `RateLimit.SameAnswers` | internal/web/ratelimit.go:39-46 | when an hour refills a burst, the sweeping limiter answers every call like one that never deletes |
| `RateLimit.SweepInvisibleIff` | internal/web/ratelimit.go:39-62 | no run can tell the two apart if and only if 1 <= burst <= perHour |
| `RateLimit.SlowRefillShows` | internal/web/ratelimit.go:33-63 | a concrete limiter and two calls that the sweep lets through and that would otherwise not both pass |
| `RateLimit.AttemptsSweepInvisible` | internal/web/auth.go:37 | so the sweep of the limiter for login attempts is invisible |
| `RateLimit.ConfiguredSweepsInvisible` | internal/web/app.go:116-117 | and those of the federation and inbox limiters |
| `RateLimit.KeptBound` | internal/web/ratelimit.go:52-62 | what a key gets is bounded by the credit it starts with plus what refills |
| `RateLimit.WindowBound` | internal/web/ratelimit.go:33-63 | in any window of any run one key is allowed at most burst + perHour * hours times |
| `RateLimit.WindowBoundedIff` | internal/web/ratelimit.go:33-63 | every window of every run keeps that bound if and only if 1 <= burst <= perHour |
| `RateHistory.GrantedIff` | internal/web/ratelimit.go:33-63 | a call is let through if and only if every stretch of calls of its key that ends with it stays within the burst and what the time between refills: nothing is refused without need |
| `RateHistory.CreditIsLeast` | internal/web/ratelimit.go:33-63 | what a key can draw is the least of what the calls since any of its calls leave |
| `RateHistory.ConfiguredGranted` | internal/web/app.go:116-117 | the same in the numbers of the three configured limiters |
| `Jobs.Queue.constructor` | internal/jobs/jobs.go:52-54 | a new queue is empty |
| `Jobs.Queue.NextId` | internal/store/migrations/0005_jobs_and_delivery.sql:2-15 | one more than the largest id, 1 in an empty table |
| `Jobs.Queue.Enqueue` | internal/jobs/jobs.go:73-105 | a job without a kind or with a payload that cannot be encoded is refused, a waiting key is a duplicate, otherwise one waiting row with the defaults filled in is added under the next id |
| `Jobs.Queue.Claim` | internal/jobs/jobs.go:107-150 | the job claimed is a claimable one with the earliest run time, leased and counted; none is claimed only when none is claimable |
| `Jobs.Queue.Done` | internal/jobs/jobs.go:152-157 | the row is done and unleased; an unknown id changes nothing |
| `Jobs.Queue.Fail` | internal/jobs/jobs.go:159-177 | the row is dead on the last chance of the job as it was claimed, otherwise scheduled after the backoff. In numbers: JobsHistory.FailTells |
| `Jobs.Queue.Retry` | internal/jobs/jobs.go:190-202 | a dead row is revived; a missing or living one is refused, and so is one whose key is waiting again |
| `Jobs.Queue.CountDepth` | internal/jobs/jobs.go:211-222 | one pass over the rows counts the four classes, each row wherever it belongs |
| `Jobs.Queue.PurgeDone` | internal/jobs/jobs.go:253-261 | exactly the rows done before the cut are deleted, and their number is reported |
| `Jobs.Deliverer.Once` | internal/web/delivery.go:144-167 | a job is claimed and then exactly one of Done and Fail is applied to it, or nothing was claimable and nothing changed |
| `Jobs.GrownAt` | internal/jobs/jobs.go:179-188 | the doubling passes the cap from the eleventh attempt on and never before the base |
| `Jobs.BackoffGrows` | internal/jobs/jobs.go:179-188 | the wait never shrinks with the attempt, starts at the base and stops at the cap |
| `JobsProtocol.StepKeepsInv` | internal/jobs/jobs.go:107-177 | every step of workers that settle before their lease ends, or never, keeps the invariant: each row says what happened to its job last, live holders hold unchanged leased rows, the log is legal |
| `JobsProtocol.RunKeepsInv` | internal/jobs/jobs.go:107-202 | so does every interleaving |
| `JobsProtocol.NoTwoHolders` | internal/jobs/jobs.go:107-150 | in no interleaving do two workers hold the same job while both could still settle it |
| `JobsProtocol.HolderHolds` | internal/jobs/jobs.go:107-150 | what a live holder holds is waiting, leased to it until the time it thinks, unchanged, and claimable by nobody |
| `JobsProtocol.EveryLifeLegal` | internal/jobs/jobs.go:159-202 | every job is enqueued, claimed again only after its backoff or a whole expired lease, settled at most once a claim and within the lease, and restarted only from the dead; its row says how far it got, and a job that is gone was done |
| `JobsProtocol.DepthCountsEverything` | internal/jobs/jobs.go:211-222 | the four counts and the delayed rows add up to the table if and only if no row is both done and dead |
| `JobsProtocol.EveryRunCounts` | internal/jobs/jobs.go:211-222 | in every run no row is both, so each job is in exactly one of five classes and Depth counts them exactly |
| `JobsProtocol.SettlementKeepsApartIff` | internal/jobs/jobs.go:152-177 | whenever it comes, a settlement keeps done and dead apart if and only if the job is gone, or it is a success and the job is not dead, or it is a failure and the job is not done or this was not its last chance |
| `JobsProtocol.LateSettlementBreaksCount` | internal/jobs/jobs.go:152-177 | a concrete late success that leaves a job both done and dead, counted twice |
| `JobsProtocol.WaitingHasBudget` | internal/jobs/jobs.go:107-202 | in every run a waiting row without a lease has attempts left |
| `JobsProtocol.NeverOverspentIff` | internal/jobs/jobs.go:107-177 | along any run the attempts of a job stay within its maximum if and only if it is never claimed again when they are used up; other jobs and earlier leases do not matter |
| `JobsProtocol.LateClaimIsExpiry` | internal/jobs/jobs.go:107-150 | such a claim happens only when the lease of the last chance has run out |
| `JobsProtocol.ExactlyMaxAttempts` | internal/jobs/jobs.go:159-177 | a job that is never claimed so goes dead with exactly MaxAttempts claims |
| `JobsProtocol.DeadWasTried` | internal/jobs/jobs.go:159-177 | in any run a dead job was claimed at least that often |
| `JobsProtocol.ExpiryOverspends` | internal/jobs/jobs.go:107-127 | a concrete run in which a lease that runs out lets attempts exceed the maximum |
| `JobsProtocol.RestartRestores` | internal/jobs/jobs.go:190-202 | a job that is restarted was dead with its key free, and has no claims behind it, its maximum unchanged, and is claimable at once |
| `JobsProtocol.OnceIsAProtocolStep` | internal/web/delivery.go:144-167 | what the delivery worker does within the lease is a claim, some time and a settlement of the protocol |
| `JobsHistory.BackoffIs` | internal/jobs/jobs.go:179-188 | after the k-th failure a job waits 30 seconds times two to the power of k - 1, at most 21600 |
| `JobsHistory.WaitsInNumbers` | internal/jobs/jobs.go:107-188 | in every run the row of a job says when it goes on: after its k-th attempt failed at t, at t plus that wait; claimed at t, leased until t + 300; dead only when its attempts are used up |
| `JobsHistory.EnqueueTells` | internal/jobs/jobs.go:73-105 | what each refusal is for, and otherwise the row: as given, due when asked or now, five attempts unless a positive number is given, never claimed |
| `JobsHistory.NextIdTells` | internal/jobs/jobs.go:89-104 | the number of a new job is one more than the largest, and 1 in an empty table |
| `JobsHistory.ClaimTells` | internal/jobs/jobs.go:107-150 | the job taken is open, due, free and of a wanted kind, no such job is due earlier, and it is handed out as it stands with one more attempt and a lease of 300 seconds |
| `JobsHistory.FailTells` | internal/jobs/jobs.go:159-188 | a failure of the last attempt ends the job, any other puts it off by the wait in numbers; the error is noted, the lease ends, no other job changes |
| `JobsHistory.DepthTells` | internal/jobs/jobs.go:211-222 | what is counted as ready, leased, dead and done |
| `JobsHistory.EveryJobAsGiven` | internal/jobs/jobs.go:73-105 | in every run every job in the table has the kind, payload, key and attempts of the call that stored it, and until it is claimed it is due when that call said |
| `JobsHistory.HandedAsGiven` | internal/jobs/jobs.go:107-150 | a worker that can still settle its job holds what that call gave |
| `JobsHistory.OnlyPurgesForget` | internal/jobs/jobs.go:253-261 | a job leaves the table if and only if a purge finds it done before the moment it names |
| `Strip.StripJPEG` | internal/media/strip.go:23-67 | the loop computes the printed pieces of the file without its APPn and COM segments, and whether there were any |
| `Strip.PiecesPrint` | internal/media/strip.go:35-66 | taking a file apart into pieces loses nothing |
| `Strip.PiecesParsed` | internal/media/strip.go:35-66 | every piece but the last is a marker or a complete segment, and the last starts neither |
| `Strip.JPEGIdempotent` | internal/media/strip.go:23-67 | stripping what was stripped changes nothing and says so |
| `Strip.JPEGChangedIff` | internal/media/strip.go:23-67 | the output is never longer, and changed is reported exactly when it differs from the input |
| `Strip.JPEGKeepsScan` | internal/media/strip.go:47-66 | from the start of the scan, or from where the segments stop parsing, every byte stays |
| `Strip.JPEGInsertionInvisible` | internal/media/strip.go:35-61 | an APPn or COM segment inserted at any boundary the loop reaches leaves the output unchanged |
| `MediaFiles.JPEGLosesThePrivateParts` | internal/media/strip.go:23-77 | a file written from any markers and segments comes back written from the same parts without APP0 to APP15 and comments; what the loop stops at, a scan, a byte that is no marker or a segment cut short, stays with everything behind it |
| `StripPng.StripPNG` | internal/media/strip.go:81-113 | the loop computes the signature and the kept chunks up to IEND or the last complete chunk, and whether one was dropped |
| `StripPng.PNGKeepsTheRest` | internal/media/strip.go:81-113 | the output reads back as exactly the kept chunks in order, and chunks and trailing bytes together are the input |
| `StripPng.PNGIdempotent` | internal/media/strip.go:81-113 | stripping twice is stripping once, the second time without a reported change |
| `StripPng.PNGDiffersIff` | internal/media/strip.go:81-113 | the output is never longer, and differs from the input exactly when a chunk was dropped or bytes follow the last chunk |
| `StripPng.PNGChangedIff` | internal/media/strip.go:91-112 | the reported flag is right if and only if the input is no PNG, a chunk was dropped, or nothing follows the last chunk |
| `StripPng.TruncatedGoesUnreported` | internal/media/strip.go:91-112 | an input whose trailing byte is cut off without being reported |
| `StripPng.PNGInsertionInvisible` | internal/media/strip.go:91-111 | a dropped-kind chunk inserted at any chunk boundary before the end leaves the output unchanged |
| `MediaFiles.PNGLosesThePrivateChunks` | internal/media/strip.go:81-121 | a file written from any chunks comes back written from the same chunks without tEXt, zTXt, iTXt, eXIf, tIME and dSIG, ending with its IEND |
| `MediaFiles.PNGCutShort` | internal/media/strip.go:81-121 | a file that ends before its IEND keeps its other chunks as well, but not what it breaks off in |
| `Compress.GzipWriter.constructor` | internal/web/compress.go:55-62 | a new writer has held nothing back and decided nothing |
| `Compress.GzipWriter.WriteHeader` | internal/web/compress.go:64-72 | the status is kept for later, or sent at once for a response without a body |
| `Compress.GzipWriter.Write` | internal/web/compress.go:74-87 | the bytes are held, or decided upon and flushed, or passed on |
| `Compress.GzipWriter.Decide` | internal/web/compress.go:89-106 | the status is sent with the headers as decided, which say gzip exactly when compressing is worth while |
| `Compress.GzipWriter.Close` | internal/web/compress.go:126-136 | an undecided body is decided and flushed, and the sink is closed |
| `Compress.Holds` | internal/web/compress.go:74-106 | whichever write reaches the threshold, the choice is the one the total length calls for |
| `Compress.EveryHandlerServed` | internal/web/compress.go:42-136 | for every handler that sets headers, says the status at most once and then writes, the client gets the status exactly once and first, with all the headers set by then (those of a bodiless response are the ones set before its status), then exactly the concatenated writes, all plain or all through the closed sink, and the choice depends on headers and total length alone |
| `Compress.AnyHandlerServedIff` | internal/web/compress.go:42-136 | whatever a handler does in whatever order, the client gets the status once and first and then exactly the concatenated writes, all plain or all packed, if and only if every status is said before the choice is made, one without a body before anything is written, or is one the packed response ignores |
| `Compress.AnyHandlerAnswered` | internal/web/compress.go:42-136 | the status is then one the handler said, or 200, the headers are those there when the choice was made, and the choice fell on the whole length |
| `Compress.LateNoContentLoses` | internal/web/compress.go:64-72 | a concrete handler that writes one byte and then says there is no content: the byte is lost |
| `CompressSays.TextualTypes` | internal/web/compress.go:16-30 | which media types are packed, whatever their case, the space around them and their parameters |
| `CompressSays.ServedTells` | internal/web/compress.go:64-135 | the body arrives whole with the status said or 200; it is packed if and only if it has at least 900 bytes, a packable type and no encoding yet, and only then the headers change, as spelled out |
| `CompressSays.BodilessTells` | internal/web/compress.go:64-72 | a 204 or 304 goes out at once with the headers set before it |
| `Compress.ChunkingInvisible` | internal/web/compress.go:74-87 | how a body was cut into writes changes neither bytes nor status nor headers nor encoding |
| `Base64.RoundTrip` | internal/activitypub/rfc9421.go:41-44 | decoding what was encoded gives the bytes back, whatever they are |
| `Base64.QuadIsNumber` | internal/activitypub/rfc9421.go:41-44 | three bytes and their four letters are the same number |
| `Base64.LettersInOrder` | internal/activitypub/rfc9421.go:41-44 | the alphabet |
| `Base64.EncodedInQuads` | internal/activitypub/rfc9421.go:41-44 | triples of bytes are encoded one after the other, what is left over is padded |
| `HeaderText.SplitParams` | internal/activitypub/signature.go:132-148 | the loop cuts the header at exactly the commas outside quotes |
| `HeaderText.UnquotedJoin` | internal/activitypub/signature.go:132-148 | the pieces joined by commas are the header |
| `HeaderText.UnquotedOfJoined` | internal/activitypub/signature.go:132-148 | parameters whose commas are all quoted are split into exactly those parameters |
| `HeaderText.QuotePrefix` | internal/activitypub/rfc9421.go:116-127 | what was quoted, and where the quoted text ends, can be told from the front, whatever characters it holds and whatever follows |
| `Signature.CoversAll` | internal/activitypub/signature.go:182-193 | refused exactly when a required name is not among the covered ones, compared without case |
| `Signature.SigningString` | internal/activitypub/signature.go:47-62 | one line for each covered header in order, or an error when one is missing |
| `SignatureSays.LinesTell` | internal/activitypub/signature.go:47-62 | there is something to sign exactly when every covered header is there, and then each line is its name, a colon and its trimmed value, or the request line |
| `SignatureSays.PrintedTells` | internal/activitypub/signature.go:64-93 | the four parameters of the printed header by name |
| `SignatureSays.OldReadTells` | internal/activitypub/signature.go:95-130 | a header that is read names a key, covers something and is not empty; only a blank one counts as none |
| `Signature.ParseSignature` | internal/activitypub/signature.go:95-130 | the loop reads the parameters as the specification does, with the same errors |
| `Signature.PrintedParses` | internal/activitypub/signature.go:64-130 | the header Sign writes is read back with key id, covered headers and signature, commas in the key id included; an empty key id, list or signature is refused |
| `Signature9421.SignatureBytes` | internal/activitypub/rfc9421.go:238-255 | the signature of the label, decoded, or an error |
| `Signature9421.ReadComponents` | internal/activitypub/rfc9421.go:190-203 | every component name without its quotes and in lower case; an empty one is an error |
| `Signature9421.ParseSignature9421` | internal/activitypub/rfc9421.go:176-236 | the loops read label, components and parameters as the specification does, with the same errors in the same order |
| `Signature9421.BuildBase` | internal/activitypub/rfc9421.go:129-140 | one line for each component and the parameters last, or the first error |
| `Signature9421.ParamsRoundTrip` | internal/activitypub/rfc9421.go:116-127 | the printed parameters read back as the components, times, key id and algorithm they were printed from |
| `Signature9421.SignatureRoundTrip` | internal/activitypub/rfc9421.go:116-255 | for every clear signature the printed headers parse to the same signature, an expiry that was not printed aside; an empty key id, an unknown algorithm and an empty signature are refused |
| `Signature9421.KeySurvivesIff` | internal/activitypub/rfc9421.go:116-255 | a printed signature is read back as it was if and only if its key id needs no escaping and holds no semicolon |
| `Signature9421.QuotedKeyLost` | internal/activitypub/rfc9421.go:116-255 | a concrete key id that does not come back |
| `Signature9421.ParamsInjective` | internal/activitypub/rfc9421.go:116-127 | printed parameters name components, times, key id and algorithm, whatever characters key id and algorithm hold |
| `Signature9421.ParsedFramed` | internal/activitypub/rfc9421.go:176-236 | every signature that is read at all has component names that leave the printed list in one piece |
| `SignatureVerify.CheckDigest` | internal/activitypub/rfc9421.go:291-302 | some part of the header is the digest of the body |
| `SignatureVerify.Outgoing.Sign9421` | internal/activitypub/rfc9421.go:142-174 | the headers afterwards are those of the specification, also when signing fails |
| `SignatureVerify.Verify9421` | internal/activitypub/rfc9421.go:257-289 | the checks are made in order and the first one that fails is reported. Which they are: SignatureSays.AcceptedIff and SignatureSays.RefusedFor |
| `SignatureVerify.SigningSucceedsIff` | internal/activitypub/rfc9421.go:142-174 | signing succeeds if and only if a delivery has a content type |
| `SignatureVerify.SignedVerifies` | internal/activitypub/rfc9421.go:142-289 | a signed request, read back from its headers, verifies for as long as the clock is within the allowed drift |
| `SignatureVerify.BaseFixesParams` | internal/activitypub/rfc9421.go:129-140 | equal bases were made with the same components, times, key id and algorithm, whatever the values and the key ids contain |
| `SignatureVerify.BaseFixesValues` | internal/activitypub/rfc9421.go:129-140 | equal bases over values without line breaks cover the same values |
| `SignatureVerify.ForgeryRefused` | internal/activitypub/rfc9421.go:176-302 | with ideal keys and hash, a request that verifies with the signature of another, whatever signature headers it was read from and whatever key id was signed with, has its method, its target, every value it covers and, for a delivery, its body, and comes no more than 43200 seconds before or after the signing |
| `SignatureSays.AcceptedIff` | internal/activitypub/rfc9421.go:257-302 | a request is accepted if and only if the signature mentions its method and target, on a delivery also the digest and the header lists that of the body, it was created not at zero and within 43200 seconds of now, has not expired, and verifies for the base built from the request |
| `SignatureSays.RefusedFor` | internal/activitypub/rfc9421.go:257-289 | which error each failing test gives, the first one that fails counting |
| `SignatureSays.ReadTells` | internal/activitypub/rfc9421.go:176-255 | a signature that is read names a key, covers something, says no algorithm but this one and is not empty; only a blank header counts as none |
| `SignatureSays.ComponentTells` | internal/activitypub/rfc9421.go:54-114 | the value of each derived component and of a header component, from the fields of the request |
| `SignatureSays.SameRequest` | internal/activitypub/rfc9421.go:54-302 | what verifies with the signature of another request has its method, host, path, scheme and query, on a delivery its content type and body, and comes within 43200 seconds of the signing |
| `SignatureSays.SigningTells` | internal/activitypub/rfc9421.go:116-174 | the headers of a signed request: the covered components, creation time, key id and algorithm; the signature of the lines of its method, address, host and path, on a delivery of its digest and content type; a digest and a date; every other header as it was |
| `Opml.Walk` | internal/opml/opml.go:55-83 | the recursive walk gives every feed below the outlines in document order with its folder path |
| `Opml.Parse` | internal/opml/opml.go:46-88 | a document without outlines or without feeds is refused, otherwise every feed is returned |
| `Opml.Tally` | internal/opml/opml.go:91-98 | the order holds each category once as first seen, and each group the subscriptions of its category in order |
| `Opml.Render` | internal/opml/opml.go:90-127 | the outlines are those of the groups in that order, loose ones without a folder |
| `Opml.ParseOfRender` | internal/opml/opml.go:46-134 | for every list, parsing the rendered outlines gives the stable grouping of the subscriptions with an address, trimmed and titled, and fails when none has one |
| `Opml.TidyRoundTrip` | internal/opml/opml.go:46-134 | tidy subscriptions come back exactly, grouped by category in first-seen order, none lost and none doubled, order kept within a category, a missing title replaced by the address |
| `Opml.GroupedSame` | internal/opml/opml.go:91-98 | grouping neither loses nor doubles anything |
| `Opml.GroupedStable` | internal/opml/opml.go:91-98 | grouping keeps the order within each category |
| `Opml.SecondTripIsIdentity` | internal/opml/opml.go:46-134 | a second round trip changes nothing when categories are trimmed |
| `Opml.ThirdTripIsIdentity` | internal/opml/opml.go:46-134 | and a third never does |
| `Opml.RoundTripExactIff` | internal/opml/opml.go:46-134 | a list comes back from one trip exactly as it was if and only if it is not empty, all its subscriptions are trimmed and have an address and a title, and no category comes in two places |
| `Opml.SecondTripIdentityIff` | internal/opml/opml.go:46-134 | a second trip changes nothing if and only if the first leaves every category in one place |
| `Opml.SpacesComeTogether` | internal/opml/opml.go:46-134 | a concrete list with two categories that differ in white space alone, which the second trip still changes |
| `OpmlSays.ParsedTells` | internal/opml/opml.go:46-88 | one subscription for each outline with an address, in document order: its address, its site, its title or else its text, and the names of the outlines it is in joined by slashes; refused exactly when there is none |
| `OpmlSays.RenderedTells` | internal/opml/opml.go:90-127 | for each category once, its subscriptions in order, each as a line with its address, its site and its name, loose ones at the top and the others in a folder of that name |

## Left out

- Ingest.NewRow: the columns read back only for display (author, source name, poll metadata) are carried by the item itself, not as separate columns.
- IngestStore.Store.AddSource: normalising and validating the address is not modelled; addresses are taken as already normalised.
- IngestStore.Store.EnsureLocalSource: the title and the next poll time it stores are not modelled.
- IngestStore.Store.EnsureFederatedSource: the protocol, title and site address it stores are not modelled.
- IngestStore.Store.StorePayload: the media type, length and first-seen columns are not modelled.
- IngestView.StepKeepsInv: the bookkeeping of polls (RecordFetch and its columns) is not among the operations.
- IngestStore.Store.Ingest: describing the source row, the media type, and the overlay of what a generic feed parser finds on the scan, are not modelled; the parsed items are a parameter.
- IngestStore.Store.Converge: the stored reason is rewritten only when the winner changes, as in the code, and nothing is claimed about its freshness.
- PublishStore.Publisher.CreateVisible: allocating a handle and rendering Markdown are parameters, and rendering does not fail; titles are cut by characters, the byte limit by their UTF-8 length.
- PublishStore.Publisher.Update: rendering Markdown does not fail.
- PublishStore.Publisher.Attach: the check that post and file belong to the same account is the caller's; the file is inserted at an index that stands for its position.
- PublishRuns.TimelineShowsCurrent: deleting a post and counting replies are not part of the acts; the address of the post and that of its author's feed are taken to share a host name.
- Decode.ReadDocument: comments, CDATA sections, document types, mismatched end tags and the other leniencies of encoding/xml are not read; an input that ends early gives what was collected, as in the code.
- Xml.Clean: the printer escapes what encoding/xml escapes; other encodings than UTF-8 are not modelled.
- Scan.ScanDocument: counts are integers without the range check of strconv.
- RssAgain.SecondTrip: finding the scan of an item by key is not modelled, every item has its own; what the generic parser makes of the document is any feed with as many items.
- Rss.RSS: the two time formats are parameters; what they print is not modelled.
- RateLimit.Limiter.Allow: floating point is modelled by real numbers and the mutex by taking calls one at a time; the client address a key comes from is not modelled.
- Jobs.Queue.Claim: of several claimable jobs with the same run time any may be taken, as the query leaves it open; waking sleeping workers is not modelled.
- JobsProtocol.StepKeepsInv: workers that settle after their lease ended are excluded, because the queue has no fencing.
- Strip.StripJPEG: the choice of stripper by media type is not modelled.
- Compress.GzipWriter.Write: errors of the underlying writer, the pool of gzip writers and gzip itself are not modelled; the sink delivers what is written to it.
- Compress.EveryHandlerServed: for handlers that set all headers before they write; the others are those of AnyHandlerServedIff. Whether a request accepts gzip is not modelled.
- HeaderText.Quote: characters beyond ASCII are taken to be printable.
- Signature.SigningString: verifying the older scheme is not modelled beyond its parser, because it parses dates.
- Signature9421.ParseSignature9421: numbers are integers without the range check of strconv; letter case is that of ASCII, as everywhere in this model.
- Signature9421.SignatureRoundTrip: claimed for the parameter order this code prints.
- SignatureVerify.ForgeryRefused: the values both requests cover are taken to hold no line break, as header values and request lines cannot.
- SignatureVerify.Verify9421: the clock counts whole seconds; header names are kept in lower case.
- Opml.Parse: the XML around the outlines and its errors are not modelled, nor are the title, owner and date of the document.
- Opml.Render: the head of the document, its date and the XML marshalling are not modelled.
- Statements are single steps on the tables: partial failures, transactions and concurrent writers of the database are not modelled.
- HTTP handlers, templates, fetching, mail, configuration, moderation, reading flags and the command line are not modelled.
