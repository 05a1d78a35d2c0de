// What whole histories of ingestion mean: repetition, order, removal, and edits.
module IngestRuns {
  import opened Common
  import opened Feed
  import opened Ingest
  import opened IngestView
  import Text

  // ---- repetition ----

  lemma {:induction false} RecordAllRecords(w: World, rows: seq<Row>, source: Source, payload: seq<byte>, items: seq<Item>, now: int, item: Item)
    requires item in items && ItemKey(item) != ""
    ensures Recorded(w, RecordAll(w, rows, source, payload, items, now), source.id, item)
  {
    var n := |items| - 1;
    var before := RecordAll(w, rows, source, payload, items[..n], now);
    var after := RecordAll(w, rows, source, payload, items, now);
    assert before <= after;
    assert forall r :: r in before ==> r in after;
    if item == items[n] {
      if !Recorded(w, before, source.id, item) {
        assert after[|before|] == NewRow(w, before, source, payload, item, now);
      }
    } else {
      assert item in items[..n];
      RecordAllRecords(w, rows, source, payload, items[..n], now, item);
    }
  }

  lemma {:induction false} RecordAllStays(w: World, rows: seq<Row>, source: Source, payload: seq<byte>, items: seq<Item>, now: int)
    requires forall item <- items :: ItemKey(item) != "" ==> Recorded(w, rows, source.id, item)
    ensures RecordAll(w, rows, source, payload, items, now) == rows
  {
    if items != [] {
      RecordAllStays(w, rows, source, payload, items[..|items| - 1], now);
    }
  }

  // Converging leaves what is held for k as it is.
  ghost predicate Untouched(before: Db, after: Db, k: string) {
    && (k in after.logical <==> k in before.logical) && (k in after.search <==> k in before.search)
    && (k in before.logical ==> after.logical[k] == before.logical[k])
    && (k in before.search ==> after.search[k] == before.search[k])
  }

  lemma ConvergeSettled(db: Db, keys: set<string>, now: int)
    requires Agrees(db)
    ensures Converge(db, keys, now) == db && Moved(db, keys) == {}
  {
    hide Converge, Moved, AgreesAt;
    var after := Converge(db, keys, now);
    forall k: string ensures Untouched(db, after, k) && k !in Moved(db, keys) {
      assert AgreesAt(db, k);
      ConvergeSettledAt(db, keys, now, k);
    }
    ConvergeCachesOnly(db, keys, now);
    NothingTouched(db, after);
  }

  lemma ConvergeCachesOnly(db: Db, keys: set<string>, now: int)
    ensures Converge(db, keys, now) == db.(logical := Converge(db, keys, now).logical, search := Converge(db, keys, now).search)
  {}

  lemma NothingTouched(before: Db, after: Db)
    requires forall k: string {:trigger Untouched(before, after, k)} :: Untouched(before, after, k)
    ensures after.logical == before.logical && after.search == before.search
  {
    forall k: string
      ensures (k in after.logical <==> k in before.logical) && (k in after.search <==> k in before.search)
      ensures k in before.logical && k in after.logical ==> after.logical[k] == before.logical[k]
      ensures k in before.search && k in after.search ==> after.search[k] == before.search[k]
    {
      assert Untouched(before, after, k);
    }
  }

  lemma ConvergeSettledAt(db: Db, keys: set<string>, now: int, k: string)
    requires AgreesAt(db, k)
    ensures Untouched(db, Converge(db, keys, now), k) && k !in Moved(db, keys)
  {}

  // Reading the same document again, however much later, changes nothing at all and says so.
  lemma ReingestIsNoop(w: World, db: Db, source: Source, body: string, items: seq<Item>, now: int, later: int)
    requires Inv(w, db) && IngestStep(w, db, source, body, items, now).1.Ok?
    ensures var once := IngestStep(w, db, source, body, items, now).0;
            IngestStep(w, once, source, body, items, later) == (once, Ok(Summary(false, 0, 0)))
  {
    IngestKeepsInv(w, db, source, body, items, now);
    var once := IngestStep(w, db, source, body, items, now).0;
    forall item | item in items && ItemKey(item) != ""
      ensures Recorded(w, once.rows, source.id, item)
    {
      RecordAllRecords(w, db.rows, source, w.sha(body), items, now, item);
    }
    RecordAllStays(w, once.rows, source, w.sha(body), items, later);
    ConvergeSettled(once, Touched(items), later);
  }

  // ---- edits are never undone ----

  predicate NoRemoval(ops: seq<Op>) {
    forall op <- ops :: !op.Remove?
  }

  lemma {:induction false} RowsOnlyGrow(w: World, db: Db, ops: seq<Op>)
    requires NoRemoval(ops)
    ensures db.rows <= Run(w, db, ops).rows
  {
    if ops != [] {
      RowsOnlyGrow(w, db, ops[..|ops| - 1]);
    }
  }

  lemma MoreRowsNoWorse(before: seq<Row>, after: seq<Row>, k: string)
    requires Ordered(before) && Ordered(after) && before <= after && k in KeysOf(before)
    ensures k in KeysOf(after) && AtLeast(Winner(after, k), Winner(before, k))
  {
    var w := Winner(before, k);
    assert w in after;
    WinnerIsWinner(after, k);
  }

  // However late or often older versions arrive, what an item shows is never replaced by
  // something that ranks below it.
  lemma WinnerNeverRegresses(w: World, db: Db, ops: seq<Op>, k: string)
    requires Inv(w, db) && NoRemoval(ops) && k in db.logical
    ensures var later := Run(w, db, ops);
            && k in later.logical
            && k in KeysOf(later.rows) && k in KeysOf(db.rows)
            && AtLeast(Winner(later.rows, k), Winner(db.rows, k))
  {
    assert AgreesAt(db, k);
    RunKeepsInv(w, db, ops);
    RowsOnlyGrow(w, db, ops);
    var later := Run(w, db, ops);
    assert AgreesAt(later, k);
    MoreRowsNoWorse(db.rows, later.rows, k);
  }

  lemma {:induction false} RunKeepsInv(w: World, db: Db, ops: seq<Op>)
    requires Inv(w, db)
    ensures Inv(w, Run(w, db, ops))
  {
    if ops != [] {
      RunKeepsInv(w, db, ops[..|ops| - 1]);
      StepKeepsInv(w, Run(w, db, ops[..|ops| - 1]), ops[|ops| - 1]);
    }
  }

  // ---- what the content hash covers ----

  predicate ZeroFree(s: string) { '\0' !in s }

  predicate ZeroFreeItem(item: Item) {
    && (forall p <- TextParts(item) :: ZeroFree(p))
    && (forall e <- item.enclosures :: ZeroFree(e.url) && ZeroFree(e.kind))
  }

  lemma HasZero(parts: seq<string>, x: string)
    requires ZeroFree(x)
    ensures '\0' in Terminated(parts) + x <==> parts != []
    ensures parts == [] ==> Terminated(parts) + x == x
  {
    if parts != [] {
      assert (Terminated(parts) + x)[|parts[0]|] == '\0';
    }
  }

  lemma {:induction false} TerminatedInjective(a: seq<string>, x: string, b: seq<string>, y: string)
    requires forall p <- a + b :: ZeroFree(p)
    requires ZeroFree(x) && ZeroFree(y)
    requires Terminated(a) + x == Terminated(b) + y
    ensures a == b && x == y
  {
    var s := Terminated(a) + x;
    if a == [] || b == [] {
      HasZero(a, x);
      HasZero(b, y);
    } else {
      assert a[0] in a + b && b[0] in a + b;
      var resta, restb := Terminated(a[1..]) + x, Terminated(b[1..]) + y;
      assert s == a[0] + ['\0'] + resta;
      assert s == b[0] + ['\0'] + restb;
      Text.FindAfter(a[0], '\0', resta);
      Text.FindAfter(b[0], '\0', restb);
      forall p | p in a[1..] + b[1..] ensures ZeroFree(p) { assert p in a + b; }
      TerminatedInjective(a[1..], x, b[1..], y);
      assert a == [a[0]] + a[1..] && b == [b[0]] + b[1..];
    }
  }

  lemma {:induction false} EnclosurePartsInjective(a: seq<Enclosure>, b: seq<Enclosure>)
    requires EnclosureParts(a) == EnclosureParts(b)
    ensures a == b
  {
    if a != [] && b != [] {
      var p, q := EnclosureParts(a), EnclosureParts(b);
      assert p[0] == a[0].url && p[1] == a[0].kind && p[2] == Text.Itoa(a[0].length);
      assert q[0] == b[0].url && q[1] == b[0].kind && q[2] == Text.Itoa(b[0].length);
      Text.ItoaInjective(a[0].length, b[0].length);
      assert p[3..] == EnclosureParts(a[1..]) && q[3..] == EnclosureParts(b[1..]);
      EnclosurePartsInjective(a[1..], b[1..]);
      assert a == [a[0]] + a[1..] && b == [b[0]] + b[1..];
    }
  }

  lemma {:induction false} EnclosurePartsZeroFree(list: seq<Enclosure>)
    requires forall e <- list :: ZeroFree(e.url) && ZeroFree(e.kind)
    ensures forall p <- EnclosureParts(list) :: ZeroFree(p)
  {
    if list != [] {
      EnclosurePartsZeroFree(list[1..]);
    }
  }

  // Everything the hash is meant to cover.
  predicate SameCovered(a: Item, b: Item) {
    && a.title == b.title && a.html == b.html && a.markdown == b.markdown && a.link == b.link
    && a.inReplyTo == b.inReplyTo && a.author == b.author && a.enclosures == b.enclosures
    && (if a.updated.Some? then a.updated else a.published) == (if b.updated.Some? then b.updated else b.published)
  }

  lemma CoveredParts(a: Item, b: Item)
    ensures SameCovered(a, b) <==>
      TextParts(a) == TextParts(b) && a.enclosures == b.enclosures && EffectiveUpdated(a) == EffectiveUpdated(b)
  {
    var p, q := TextParts(a), TextParts(b);
    if p == q {
      assert p[0] == q[0] && p[1] == q[1] && p[2] == q[2] && p[3] == q[3] && p[4] == q[4] && p[5] == q[5];
    }
  }

  function Zeros(s: string): nat { multiset(s)['\0'] }

  lemma ZerosAppend(a: string, b: string)
    ensures Zeros(a + b) == Zeros(a) + Zeros(b) && (Zeros(a) == 0 <==> ZeroFree(a))
  {}

  // One zero for each field, and more exactly when a field contains one.
  lemma {:induction false} ZerosTerminated(parts: seq<string>, x: string)
    requires ZeroFree(x)
    ensures Zeros(Terminated(parts) + x) >= |parts|
    ensures Zeros(Terminated(parts) + x) == |parts| <==> forall p <- parts :: ZeroFree(p)
  {
    if parts == [] {
      assert Terminated(parts) + x == x;
    } else {
      var p, more := parts[0], Terminated(parts[1..]) + x;
      assert Terminated(parts) + x == p + "\0" + more;
      ZerosAppend(p + "\0", more);
      ZerosAppend(p, "\0");
      ZerosTerminated(parts[1..], x);
      assert forall q :: q in parts <==> q == p || q in parts[1..];
    }
  }

  // An item without zero characters shares its hash with nothing else that has at least as many
  // enclosures, whatever that contains.
  lemma HashCoversMore(w: World, a: Item, b: Item)
    requires w.Injective() && ZeroFreeItem(a) && |a.enclosures| <= |b.enclosures|
    ensures ContentHash(w, a) == ContentHash(w, b) <==> SameCovered(a, b)
  {
    CoveredParts(a, b);
    if ContentHash(w, a) == ContentHash(w, b) {
      EnclosurePartsZeroFree(a.enclosures);
      var p, q := TextParts(a) + EnclosureParts(a.enclosures), TextParts(b) + EnclosureParts(b.enclosures);
      ZerosTerminated(p, w.stamp(EffectiveUpdated(a)));
      ZerosTerminated(q, w.stamp(EffectiveUpdated(b)));
      TerminatedInjective(p, w.stamp(EffectiveUpdated(a)), q, w.stamp(EffectiveUpdated(b)));
      assert p[..6] == TextParts(a) && q[..6] == TextParts(b);
      assert p[6..] == EnclosureParts(a.enclosures) && q[6..] == EnclosureParts(b.enclosures);
      EnclosurePartsInjective(a.enclosures, b.enclosures);
    }
  }

  lemma HashCovers(w: World, a: Item, b: Item)
    requires w.Injective() && ZeroFreeItem(a) && ZeroFreeItem(b)
    ensures ContentHash(w, a) == ContentHash(w, b) <==> SameCovered(a, b)
  {
    if |a.enclosures| <= |b.enclosures| { HashCoversMore(w, a, b); } else { HashCoversMore(w, b, a); }
  }

  lemma {:induction false} TerminatedAppend(a: seq<string>, b: seq<string>)
    ensures Terminated(a + b) == Terminated(a) + Terminated(b)
  {
    if a == [] {
      assert a + b == b;
    } else {
      assert (a + b)[1..] == a[1..] + b;
      TerminatedAppend(a[1..], b);
    }
  }

  // A zero character inside a field cannot be told from a field boundary.
  lemma ZeroSplits(before: seq<string>, x: string, y: string, after: seq<string>)
    ensures Terminated(before + [x + "\0" + y] + after) == Terminated(before + [x, y] + after)
  {
    TerminatedAppend(before + [x + "\0" + y], after);
    TerminatedAppend(before, [x + "\0" + y]);
    TerminatedAppend(before + [x, y], after);
    TerminatedAppend(before, [x, y]);
    TerminatedAppend([x], [y]);
    assert [x, y] == [x] + [y];
    assert Terminated([x]) == x + "\0" && Terminated([y]) == y + "\0";
    assert Terminated([x + "\0" + y]) == x + "\0" + y + "\0";
  }

  // ---- which items their hash identifies ----

  // The same item with other text columns.
  function Retold(item: Item, parts: seq<string>): (r: Item)
    requires |parts| == 6
    ensures TextParts(r) == parts && r.enclosures == item.enclosures && EffectiveUpdated(r) == EffectiveUpdated(item)
    ensures r.guid == item.guid
  {
    item.(title := parts[0], html := parts[1], markdown := parts[2], link := parts[3], inReplyTo := parts[4], author := parts[5])
  }

  // What stands behind a zero can as well be the start of the next field.
  lemma MovesRight(before: seq<string>, x: string, y: string, next: string, after: seq<string>)
    ensures Terminated(before + [x + "\0" + y, next] + after) == Terminated(before + [x, y + "\0" + next] + after)
  {
    hide Terminated;
    ZeroSplits(before, x, y, [next] + after);
    ZeroSplits(before + [x], y, next, after);
    assert before + [x + "\0" + y, next] + after == before + [x + "\0" + y] + ([next] + after);
    assert before + [x, y] + ([next] + after) == (before + [x]) + [y, next] + after;
    assert before + [x, y + "\0" + next] + after == (before + [x]) + [y + "\0" + next] + after;
  }

  // The text columns with the boundary at a zero of column i moved into a neighbour.
  function Shifted(parts: seq<string>, i: nat, x: string, y: string): (r: seq<string>)
    requires |parts| == 6 && i < 6
    ensures |r| == 6
  {
    if i < 5 then parts[..i] + [x, y + "\0" + parts[i + 1]] + parts[i + 2..]
    else parts[..4] + [parts[4] + "\0" + x, y]
  }

  lemma ShiftedHashesAlike(parts: seq<string>, i: nat, x: string, y: string)
    requires |parts| == 6 && i < 6 && parts[i] == x + "\0" + y
    ensures Terminated(Shifted(parts, i, x, y)) == Terminated(parts) && Shifted(parts, i, x, y) != parts
  {
    hide Terminated;
    var moved := Shifted(parts, i, x, y);
    if i < 5 {
      MovesRight(parts[..i], x, y, parts[i + 1], parts[i + 2..]);
      assert parts == parts[..i] + [x + "\0" + y, parts[i + 1]] + parts[i + 2..];
      assert moved[i] == x;
    } else {
      MovesRight(parts[..4], parts[4], x, y, []);
      assert parts == parts[..4] + [parts[4], x + "\0" + y] + [];
      assert moved == parts[..4] + [parts[4] + "\0" + x, y] + [];
      assert moved[5] == y;
    }
  }

  lemma ZeroMovesBoundary(w: World, a: Item, i: nat) returns (b: Item)
    requires i < 6 && !ZeroFree(TextParts(a)[i])
    ensures ContentHash(w, a) == ContentHash(w, b) && TextParts(a) != TextParts(b) && b.guid == a.guid
  {
    hide Terminated, TextParts, Shifted;
    var parts := TextParts(a);
    var p := parts[i];
    var at := Text.Find(p, '\0');
    assert p[..|p|] == p;
    var x, y := p[..at], p[at + 1..];
    assert p == x + "\0" + y;
    var moved := Shifted(parts, i, x, y);
    ShiftedHashesAlike(parts, i, x, y);
    b := Retold(a, moved);
    TerminatedAppend(parts, EnclosureParts(a.enclosures));
    TerminatedAppend(moved, EnclosureParts(a.enclosures));
    assert Preimage(w, a) == Preimage(w, b);
  }

  // The first enclosure hashes like three more fields' worth of author.
  lemma EnclosureMovesBoundary(w: World, a: Item) returns (b: Item)
    requires a.enclosures != []
    ensures ContentHash(w, a) == ContentHash(w, b) && a.enclosures != b.enclosures && b.guid == a.guid
  {
    var e, more := a.enclosures[0], EnclosureParts(a.enclosures[1..]);
    var url, kind, length := e.url, e.kind, Text.Itoa(e.length);
    var head := TextParts(a)[..5];
    b := a.(author := a.author + "\0" + url + "\0" + kind + "\0" + length, enclosures := a.enclosures[1..]);
    assert TextParts(a) == head + [a.author] && TextParts(b) == head + [b.author];
    assert TextParts(b) + more == head + [a.author + "\0" + url + "\0" + kind + "\0" + length] + more;
    ZeroSplits(head, a.author + "\0" + url + "\0" + kind, length, more);
    ZeroSplits(head, a.author + "\0" + url, kind, [length] + more);
    ZeroSplits(head, a.author, url, [kind, length] + more);
    assert head + [a.author + "\0" + url + "\0" + kind, length] + more == head + [a.author + "\0" + url + "\0" + kind] + ([length] + more);
    assert head + [a.author + "\0" + url, kind] + ([length] + more) == head + [a.author + "\0" + url] + ([kind, length] + more);
    assert head + [a.author, url] + ([kind, length] + more) == TextParts(a) + ([url, kind, length] + more);
    assert Terminated(TextParts(a) + EnclosureParts(a.enclosures)) == Terminated(TextParts(b) + EnclosureParts(b.enclosures));
  }

  // The hash of an item tells everything it covers if and only if the item contains no zero
  // character and has no enclosure.
  lemma HashIdentifiesIff(w: World, a: Item)
    requires w.Injective()
    ensures (forall b: Item :: ContentHash(w, b) == ContentHash(w, a) ==> SameCovered(a, b))
       <==> ZeroFreeItem(a) && a.enclosures == []
  {
    if ZeroFreeItem(a) && a.enclosures == [] {
      forall b: Item | ContentHash(w, b) == ContentHash(w, a) ensures SameCovered(a, b) { HashCoversMore(w, a, b); }
    } else if a.enclosures != [] {
      var b := EnclosureMovesBoundary(w, a);
      assert !SameCovered(a, b);
    } else {
      var p :| p in TextParts(a) && !ZeroFree(p);
      var i :| 0 <= i < 6 && TextParts(a)[i] == p;
      var b := ZeroMovesBoundary(w, a, i);
      assert !SameCovered(a, b);
    }
  }

  // Two items that differ in fidelity, yet hash alike whatever the hash function and
  // their date are.
  lemma ZeroBreaksHash(w: World, date: Option<int>)
    ensures var a := Item("g", true, "l", "", "h\0m", "", "", date, None, "", "", None, None, [], []);
            var b := Item("g", true, "", "", "h", "m", "\0", date, None, "l", "", None, None, [], []);
            ContentHash(w, a) == ContentHash(w, b) && FidelityOf(a) != FidelityOf(b) && ItemKey(a) == ItemKey(b)
  {
    assert "h" + "\0" + "m" == "h\0m" && "" + "\0" + "" == "\0";
    ZeroSplits([""], "h", "m", ["", "l", "", ""]);
    ZeroSplits(["", "h", "m", "", "l"], "", "", []);
    assert ["", "h\0m", "", "l", "", ""] + [] == [""] + ["h" + "\0" + "m"] + ["", "l", "", ""];
    assert ["", "h", "m", "", "l", "\0"] + [] == ["", "h", "m", "", "l"] + ["" + "\0" + ""] + [];
    assert [""] + ["h", "m"] + ["", "l", "", ""] == ["", "h", "m", "", "l"] + ["", ""] + [];
  }
}
