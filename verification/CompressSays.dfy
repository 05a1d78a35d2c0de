// Which responses are packed, and what the client is told, spelled out.
module CompressSays {
  import opened Common
  import opened Compress
  import Text

  // Text of some kind, going by the lower-case name of a media type.
  predicate Textual(kind: string) {
    || "text/" <= kind || "application/json" <= kind || "application/xml" <= kind || "image/svg" <= kind
    || (|kind| >= 4 && kind[|kind| - 4..] == "+xml")
    || (|kind| >= 5 && kind[|kind| - 5..] == "+json")
  }

  lemma KindTextual(mediaType: string, kind: string)
    requires Text.TrimSpace(Text.Lower(match Text.Cut(mediaType, ';') case Some(cut) => cut.0 case None => mediaType)) == kind
    ensures Compressible(mediaType) == Textual(kind)
  {
    hide Text.TrimSpace, Text.Lower, Text.Cut;
  }

  lemma LowerSpaced(before: string, kind: string, after: string)
    requires Text.Blank(before) && Text.Blank(after) && Text.Trimmed(kind)
    ensures Text.TrimSpace(Text.Lower(before + kind + after)) == Text.Lower(kind)
  {
    assert Text.Lower(before + kind + after) == before + Text.Lower(kind) + after by {
      assert forall i :: 0 <= i < |before| ==> before[i] in before;
      assert forall i :: 0 <= i < |after| ==> after[i] in after;
    }
    assert Text.Trimmed(Text.Lower(kind));
    hide Text.TrimSpace, Text.Lower;
    Text.TrimSpaceUnique(before, Text.Lower(kind), after);
  }

  // Whatever its case, the space around it and the parameters behind it.
  lemma TextualTypes(before: string, kind: string, after: string, params: string)
    requires Text.Blank(before) && Text.Blank(after) && Text.Trimmed(kind) && ';' !in kind
    ensures Compressible(before + kind + after) == Textual(Text.Lower(kind))
    ensures Compressible(before + kind + after + ";" + params) == Textual(Text.Lower(kind))
  {
    var bare := before + kind + after;
    assert ';' !in bare by {
      assert !Text.IsSpace(';');
      assert forall c <- bare :: c in before || c in kind || c in after;
    }
    LowerSpaced(before, kind, after);
    Text.CutAt(bare, ';', params);
    Text.FindNone(bare, ';');
    assert Text.Cut(bare, ';') == None;
    hide Compressible, Textual;
    hide Text.TrimSpace, Text.Lower, Text.Cut, Text.Find;
    KindTextual(bare, Text.Lower(kind));
    KindTextual(bare + ";" + params, Text.Lower(kind));
  }

  // The headers a packed response goes out with.
  ghost predicate PackedFrom(before: Header, sent: Header) {
    && "Content-Length" !in sent
    && "Content-Encoding" in sent && sent["Content-Encoding"] == ["gzip"]
    && "Vary" in sent && sent["Vary"] == (if "Vary" in before then before["Vary"] else []) + ["Accept-Encoding"]
    && forall n: string :: n != "Content-Length" && n != "Content-Encoding" && n != "Vary" ==>
         (n in sent <==> n in before) && (n in sent ==> sent[n] == before[n])
  }

  predicate WorthPacking(h: Header, size: nat) {
    && size >= 900
    && !("Content-Encoding" in h && h["Content-Encoding"] != [] && h["Content-Encoding"][0] != "")
    && Compressible(if "Content-Type" in h && h["Content-Type"] != [] then h["Content-Type"][0] else "")
  }

  lemma WorthTells(h: Header, size: nat)
    ensures Worth(h, size) == WorthPacking(h, size)
  {
    hide Compressible;
  }

  lemma PackedHeaderTells(h: Header)
    ensures PackedFrom(h, PackedHeader(h))
  {}

  // A handler that says no status, or one with a body, gets exactly its bytes to the client, packed
  // if and only if they are worth it; and then, and only then, the headers are changed.
  lemma ServedTells(header: Header, head: Head, chunks: seq<Bytes>)
    requires head.status.Some? ==> head.status.value != 204 && head.status.value != 304
    ensures var log := Served(header, head, chunks).log;
            var final := SetAll(SetAll(header, head.before), head.after);
            && log != [] && log[0].Status?
            && log[0].code == (if head.status.Some? && head.status.value != 0 then head.status.value else 200)
            && Body(log) == Join(chunks)
            && (PackedEnd in log <==> WorthPacking(final, |Join(chunks)|))
            && (PackedEnd in log ==> PackedFrom(final, log[0].header))
            && (PackedEnd !in log ==> log[0].header == final)
  {
    EveryHandlerServed(header, head, chunks);
    var final := SetAll(SetAll(header, head.before), head.after);
    WorthTells(final, |Join(chunks)|);
    PackedHeaderTells(final);
    hide Worth, WorthPacking, PackedHeader, PackedFrom, SetAll, Served, Join, Body;
  }

  // One without a body goes out at once, with the headers set before it.
  lemma BodilessTells(header: Header, head: Head)
    requires head.status == Some(204) || head.status == Some(304)
    ensures Served(header, head, []).log == [Status(head.status.value, SetAll(header, head.before))]
  {
    hide SetAll;
    var s := Headed(header, head);
    assert WriteAll(s, []) == s;
    assert s.log == [Status(head.status.value, SetAll(header, head.before))];
  }
}
