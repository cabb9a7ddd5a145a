/** Extracting the certificates of a PEM bundle. */
module PemBundle {
  import opened Basics

  datatype Markers = Markers(begin: string, end: string)

  const CERTIFICATE := Markers("-----BEGIN CERTIFICATE-----", "-----END CERTIFICATE-----")

  predicate OccursAt(data: string, marker: string, i: nat) {
    i + |marker| <= |data| && forall k :: 0 <= k < |marker| ==> marker[k] == data[i + k]
  }

  /** What extraction needs of its markers: neither is empty, a line feed is not the start of a begin marker,
      and the end marker does not occur in the begin marker except perhaps as its tail. */
  ghost predicate Proper(m: Markers) {
    && m.begin != "" && m.begin[0] != '\n' && m.end != ""
    && forall d: nat :: d + |m.end| < |m.begin| ==> !OccursAt(m.begin, m.end, d)
  }

  lemma CertificateMarkersAreProper()
    ensures Proper(CERTIFICATE)
  {
    var m := CERTIFICATE;
    assert |m.begin| == 27 && |m.end| == 25;
    assert m.begin[5] == 'B' && m.end[4] == '-' && m.end[5] == 'E';
    forall d: nat | d + |m.end| < |m.begin| ensures !OccursAt(m.begin, m.end, d) {
      assert d == 0 ==> m.begin[d + 5] != m.end[5];
      assert d == 1 ==> m.begin[d + 4] != m.end[4];
    }
  }

  /** `data.find(marker, start)`. */
  function Find(data: string, marker: string, start: nat): (r: Option<nat>)
    ensures r.Some? ==> start <= r.value && r.value + |marker| <= |data|
    decreases |data| - start
  {
    if OccursAt(data, marker, start) then Some(start)
    else if start >= |data| then None
    else Find(data, marker, start + 1)
  }

  /** `Find` gives the first occurrence, and nothing only when there is none. */
  lemma {:induction false} FindMeaning(data: string, marker: string, start: nat)
    ensures match Find(data, marker, start)
      case Some(i) => OccursAt(data, marker, i) && forall j: nat :: start <= j < i ==> !OccursAt(data, marker, j)
      case None => forall j: nat :: start <= j ==> !OccursAt(data, marker, j)
    decreases |data| - start
  {
    if !OccursAt(data, marker, start) && start < |data| {
      FindMeaning(data, marker, start + 1);
    }
  }

  lemma FindIsFirst(data: string, marker: string, start: nat, i: nat)
    requires start <= i && OccursAt(data, marker, i)
    requires forall j: nat :: start <= j < i ==> !OccursAt(data, marker, j)
    ensures Find(data, marker, start) == Some(i)
  {
    FindMeaning(data, marker, start);
  }

  /** Where the first certificate at or after `start` begins and ends. */
  function NextSpan(m: Markers, data: string, start: nat): (r: Option<(nat, nat)>)
    ensures r.Some? ==> start <= r.value.0 <= r.value.1 <= |data|
    ensures r.Some? && m.end != "" ==> r.value.0 < r.value.1
  {
    match Find(data, m.begin, start)
    case None => None
    case Some(begin) =>
      match Find(data, m.end, begin)
      case None => None
      case Some(end) => Some((begin, end + |m.end|))
  }

  function Extract(m: Markers, data: string, start: nat): seq<string>
    requires m.end != ""
    decreases |data| - start
  {
    match NextSpan(m, data, start)
    case None => []
    case Some((begin, end)) => [data[begin..end] + "\n"] + Extract(m, data, end)
  }

  lemma ExtractStep(m: Markers, data: string, start: nat, begin: nat, end: nat)
    requires m.end != "" && NextSpan(m, data, start) == Some((begin, end))
    ensures Extract(m, data, start) == [data[begin..end] + "\n"] + Extract(m, data, end)
  {
  }

  lemma AppendFirst<T>(xs: seq<T>, x: T, ys: seq<T>)
    ensures xs + ([x] + ys) == (xs + [x]) + ys
  {
  }

  /** What the client extracts from a bundle. */
  function Certificates(data: string): seq<string> {
    CertificateMarkersAreProper();
    Extract(CERTIFICATE, data, 0)
  }

  method ExtractCertificates(data: string) returns (certificates: seq<string>)
    ensures certificates == Certificates(data)
  {
    CertificateMarkersAreProper();
    certificates := Scan(CERTIFICATE, data);
  }

  method Scan(m: Markers, data: string) returns (found: seq<string>)
    requires m.end != ""
    ensures found == Extract(m, data, 0)
  {
    found := [];
    var start := 0;
    ghost var rest := Extract(m, data, 0);
    while true
      invariant start <= |data| && rest == Extract(m, data, start)
      invariant Extract(m, data, 0) == found + rest
      decreases |data| - start
    {
      var begin, end := FindSpan(m, data, start);
      if begin.None? || end.None? {
        break;
      }
      var stop := end.value + |m.end|;
      var certificate := data[begin.value..stop] + "\n";
      rest := Extract(m, data, stop);
      AppendFirst(found, certificate, rest);
      found := found + [certificate];
      start := stop;
    }
  }

  method FindSpan(m: Markers, data: string, start: nat) returns (begin: Option<nat>, end: Option<nat>)
    requires m.end != ""
    ensures if begin.None? || end.None? then Extract(m, data, start) == []
            else var stop := end.value + |m.end|;
              && start <= begin.value < stop <= |data|
              && Extract(m, data, start) == [data[begin.value..stop] + "\n"] + Extract(m, data, stop)
  {
    end := None;
    begin := Find(data, m.begin, start);
    if begin.Some? {
      end := Find(data, m.end, begin.value);
    }
    if begin.Some? && end.Some? {
      ExtractStep(m, data, start, begin.value, end.value + |m.end|);
    }
  }

  // ---------------------------------------------------------------- blocks

  /** A block: it starts with the begin marker and ends, but for a line feed, with the first end marker. */
  predicate Block(m: Markers, b: string) {
    && |b| > |m.end|
    && OccursAt(b, m.begin, 0)
    && Find(b, m.end, 0) == Some(|b| - 1 - |m.end|)
    && b[|b| - 1] == '\n'
  }

  /** Inside an occurrence of `b` in `data`, the same markers occur as in `b`. */
  lemma OccursWithin(data: string, b: string, p: nat, marker: string, i: nat)
    requires OccursAt(data, b, p) && i + |marker| <= |b|
    ensures OccursAt(data, marker, p + i) <==> OccursAt(b, marker, i)
  {
    var part := b[i..i + |marker|];
    assert forall k :: 0 <= k < |part| ==> part[k] == data[p + (i + k)];
  }

  /** The begin marker of a span does not reach past its end marker. */
  lemma BeginEndsInside(m: Markers, data: string, begin: nat, at: nat)
    requires Proper(m) && OccursAt(data, m.begin, begin) && OccursAt(data, m.end, begin + at)
    ensures |m.begin| <= at + |m.end|
  {
    if at + |m.end| < |m.begin| {
      OccursWithin(data, m.begin, begin, m.end, at);
    }
  }

  /** A text without its last character, followed by a line feed, has the same markers before it. */
  lemma SpanIsBlock(m: Markers, data: string, start: nat)
    requires Proper(m) && NextSpan(m, data, start).Some?
    ensures var (begin, end) := NextSpan(m, data, start).value; Block(m, data[begin..end] + "\n")
  {
    var (begin, end) := NextSpan(m, data, start).value;
    FindMeaning(data, m.begin, start);
    FindMeaning(data, m.end, begin);
    var span, at := data[begin..end], end - begin - |m.end|;
    assert OccursAt(data, span, begin) && OccursAt(span + "\n", span, 0);
    BeginEndsInside(m, data, begin, at);
    ShorterTextSameMarkers(data, span, begin, m.begin, 0);
    ShorterTextSameMarkers(data, span, begin, m.end, at);
    forall i: nat | i < at ensures !OccursAt(span + "\n", m.end, i) {
      ShorterTextSameMarkers(data, span, begin, m.end, i);
    }
    FindIsFirst(span + "\n", m.end, 0, at);
  }

  lemma ShorterTextSameMarkers(data: string, span: string, begin: nat, marker: string, i: nat)
    requires OccursAt(data, span, begin) && OccursAt(span + "\n", span, 0) && i + |marker| <= |span|
    ensures OccursAt(data, marker, begin + i) <==> OccursAt(span + "\n", marker, i)
  {
    OccursWithin(data, span, begin, marker, i);
    OccursWithin(span + "\n", span, 0, marker, i);
  }

  /** Every extracted certificate is a block. */
  lemma {:induction false} ExtractedAreBlocks(m: Markers, data: string, start: nat)
    requires Proper(m)
    ensures forall b :: b in Extract(m, data, start) ==> Block(m, b)
    decreases |data| - start
  {
    if NextSpan(m, data, start).Some? {
      SpanIsBlock(m, data, start);
      ExtractedAreBlocks(m, data, NextSpan(m, data, start).value.1);
    }
  }

  // ---------------------------------------------------------------- extracting from blocks

  function Concat(blocks: seq<string>): string {
    if blocks == [] then "" else blocks[0] + Concat(blocks[1..])
  }

  /** From position `p` on, the text is made of the blocks. */
  predicate Spelled(data: string, p: nat, blocks: seq<string>)
    decreases |blocks|
  {
    if blocks == [] then p == |data|
    else OccursAt(data, blocks[0], p) && Spelled(data, p + |blocks[0]|, blocks[1..])
  }

  lemma AppendText(before: string, b: string, after: string)
    ensures (before + b) + after == before + (b + after)
    ensures OccursAt(before + (b + after), b, |before|)
  {
  }

  lemma {:induction false} ConcatIsSpelled(before: string, blocks: seq<string>)
    ensures Spelled(before + Concat(blocks), |before|, blocks)
    decreases |blocks|
  {
    if blocks != [] {
      ConcatIsSpelled(before + blocks[0], blocks[1..]);
      AppendText(before, blocks[0], Concat(blocks[1..]));
    }
  }

  /** At `p` or just behind a line feed before it. */
  predicate Near(data: string, start: nat, p: nat) {
    start == p || (start + 1 == p <= |data| && data[start] == '\n')
  }

  /** A search that starts near a block finds that block first. */
  lemma BlockIsNextSpan(m: Markers, data: string, start: nat, p: nat, b: string)
    requires Proper(m) && Block(m, b) && OccursAt(data, b, p) && Near(data, start, p)
    ensures NextSpan(m, data, start) == Some((p, p + |b| - 1))
  {
    var at := |b| - 1 - |m.end|;
    OccursWithin(data, b, p, m.begin, 0);
    assert start < p ==> m.begin[0] != data[start + 0];
    FindIsFirst(data, m.begin, start, p);
    FindMeaning(b, m.end, 0);
    OccursWithin(data, b, p, m.end, at);
    forall j: nat | p <= j < p + at ensures !OccursAt(data, m.end, j) {
      OccursWithin(data, b, p, m.end, j - p);
    }
    FindIsFirst(data, m.end, p, p + at);
  }

  lemma NothingAtTheEnd(m: Markers, data: string, start: nat)
    requires Proper(m) && Near(data, start, |data|)
    ensures NextSpan(m, data, start) == None
  {
    forall i: nat | start <= i ensures !OccursAt(data, m.begin, i) {
      assert i < |data| ==> m.begin[0] != data[i + 0];
    }
    FindMeaning(data, m.begin, start);
  }

  lemma CutBlock(data: string, b: string, p: nat)
    requires OccursAt(data, b, p) && b != "" && b[|b| - 1] == '\n'
    ensures data[p..p + |b| - 1] + "\n" == b && data[p + |b| - 1] == '\n'
  {
    assert b[|b| - 1] == data[p + (|b| - 1)];
    assert data[p..p + |b| - 1] == b[..|b| - 1];
  }

  lemma ExtractOneBlock(m: Markers, data: string, start: nat, p: nat, b: string)
    requires Proper(m) && Block(m, b) && OccursAt(data, b, p) && Near(data, start, p)
    ensures Near(data, p + |b| - 1, p + |b|)
    ensures Extract(m, data, start) == [b] + Extract(m, data, p + |b| - 1)
  {
    BlockIsNextSpan(m, data, start, p, b);
    ExtractStep(m, data, start, p, p + |b| - 1);
    CutBlock(data, b, p);
  }

  /** Extracting from a text made of blocks gives those blocks. */
  lemma {:induction false} ExtractSpelled(m: Markers, data: string, start: nat, p: nat, blocks: seq<string>)
    requires Proper(m) && Spelled(data, p, blocks) && Near(data, start, p)
    requires forall b {:trigger Block(m, b)} :: b in blocks ==> Block(m, b)
    ensures Extract(m, data, start) == blocks
    decreases |blocks|
  {
    if blocks == [] {
      NothingAtTheEnd(m, data, start);
    } else {
      var b := blocks[0];
      assert Block(m, b);
      ExtractOneBlock(m, data, start, p, b);
      ExtractSpelled(m, data, p + |b| - 1, p + |b|, blocks[1..]);
      assert blocks == [b] + blocks[1..];
    }
  }

  /** A list of texts is what extraction finds in its concatenation exactly when every text is a block. */
  lemma FixedExactlyOnBlocks(blocks: seq<string>)
    ensures Certificates(Concat(blocks)) == blocks <==> forall b :: b in blocks ==> Block(CERTIFICATE, b)
  {
    CertificateMarkersAreProper();
    ExtractedAreBlocks(CERTIFICATE, Concat(blocks), 0);
    if forall b :: b in blocks ==> Block(CERTIFICATE, b) {
      ConcatIsSpelled("", blocks);
      assert "" + Concat(blocks) == Concat(blocks);
      ExtractSpelled(CERTIFICATE, Concat(blocks), 0, 0, blocks);
    }
  }

  /** For every text, extracting from the concatenation of what was extracted gives it again. */
  lemma ExtractionIsRetraction(data: string)
    ensures Certificates(Concat(Certificates(data))) == Certificates(data)
  {
    CertificateMarkersAreProper();
    ExtractedAreBlocks(CERTIFICATE, data, 0);
    FixedExactlyOnBlocks(Certificates(data));
  }

  // ---------------------------------------------------------------- completeness

  type Span = (nat, nat)

  predicate Inside(data: string, spans: seq<Span>) {
    forall span :: span in spans ==> span.0 <= span.1 <= |data|
  }

  /** From `start` on, no end marker follows a begin marker. */
  ghost predicate NoneFrom(m: Markers, data: string, start: nat) {
    forall i: nat, j: nat :: start <= i <= j ==> !(OccursAt(data, m.begin, i) && OccursAt(data, m.end, j))
  }

  /** The first begin marker at or after `start` is at `begin`, and the first end marker from there stops at `end`. */
  ghost predicate FirstSpan(m: Markers, data: string, start: nat, begin: nat, end: nat) {
    && start <= begin && begin + |m.end| <= end <= |data|
    && OccursAt(data, m.begin, begin) && OccursAt(data, m.end, end - |m.end|)
    && (forall i: nat :: start <= i < begin ==> !OccursAt(data, m.begin, i))
    && (forall j: nat :: begin <= j < end - |m.end| ==> !OccursAt(data, m.end, j))
  }

  /** The spans are the certificates of the text from `start` on: each is the first after the one before, with any
      text in between that has no begin marker, and after the last there is none that is complete. */
  ghost predicate Layout(m: Markers, data: string, start: nat, spans: seq<Span>)
    decreases |spans|
  {
    if spans == [] then NoneFrom(m, data, start)
    else FirstSpan(m, data, start, spans[0].0, spans[0].1) && Layout(m, data, spans[0].1, spans[1..])
  }

  /** The texts of the spans, each with a line feed. */
  function Cut(data: string, spans: seq<Span>): seq<string>
    requires Inside(data, spans)
  {
    if spans == [] then [] else [data[spans[0].0..spans[0].1] + "\n"] + Cut(data, spans[1..])
  }

  lemma NextSpanIff(m: Markers, data: string, start: nat)
    ensures match NextSpan(m, data, start)
      case None => NoneFrom(m, data, start)
      case Some((begin, end)) => FirstSpan(m, data, start, begin, end)
  {
    FindMeaning(data, m.begin, start);
    if Find(data, m.begin, start).Some? {
      FindMeaning(data, m.end, Find(data, m.begin, start).value);
    }
  }

  /** No text from `start` on has two first spans, or one and none. */
  lemma FirstSpanIsOnly(m: Markers, data: string, start: nat, b: nat, e: nat, b': nat, e': nat)
    requires FirstSpan(m, data, start, b, e)
    ensures !NoneFrom(m, data, start)
    ensures FirstSpan(m, data, start, b', e') ==> b == b' && e == e'
  {
    assert OccursAt(data, m.begin, b) && OccursAt(data, m.end, e - |m.end|);
  }

  lemma {:induction false} LayoutInRange(m: Markers, data: string, start: nat, spans: seq<Span>)
    requires Layout(m, data, start, spans)
    ensures Inside(data, spans)
    decreases |spans|
  {
    if spans != [] {
      LayoutInRange(m, data, spans[0].1, spans[1..]);
    }
  }

  /** Extraction from a text gives exactly the certificates of its layout, in order. */
  lemma {:induction false} ExtractFollowsLayout(m: Markers, data: string, start: nat, spans: seq<Span>)
    requires m.end != "" && Layout(m, data, start, spans)
    ensures Inside(data, spans)
    ensures Extract(m, data, start) == Cut(data, spans)
    decreases |spans|
  {
    LayoutInRange(m, data, start, spans);
    NextSpanIff(m, data, start);
    if spans != [] {
      FirstSpanIsOnly(m, data, start, spans[0].0, spans[0].1, spans[0].0, spans[0].1);
      var (begin, end) := NextSpan(m, data, start).value;
      FirstSpanIsOnly(m, data, start, spans[0].0, spans[0].1, begin, end);
      ExtractFollowsLayout(m, data, spans[0].1, spans[1..]);
    } else if NextSpan(m, data, start).Some? {
      var (begin, end) := NextSpan(m, data, start).value;
      FirstSpanIsOnly(m, data, start, begin, end, begin, end);
    }
  }

  /** Every text has a layout. */
  lemma {:induction false} LayoutOf(m: Markers, data: string, start: nat) returns (spans: seq<Span>)
    requires m.end != ""
    ensures Layout(m, data, start, spans)
    decreases |data| - start
  {
    NextSpanIff(m, data, start);
    match NextSpan(m, data, start)
    case None => spans := [];
    case Some((begin, end)) =>
      var rest := LayoutOf(m, data, end);
      spans := [(begin, end)] + rest;
      assert spans[1..] == rest;
  }

  /** Every bundle has a layout, and its certificates are those of any layout it has: none is skipped, whatever
      stands before, between and after them. */
  lemma CertificatesFollowLayout(data: string)
    ensures exists spans: seq<Span> :: Layout(CERTIFICATE, data, 0, spans)
    ensures forall spans: seq<Span> :: Layout(CERTIFICATE, data, 0, spans) ==>
      Inside(data, spans) && Certificates(data) == Cut(data, spans)
  {
    CertificateMarkersAreProper();
    var spans := LayoutOf(CERTIFICATE, data, 0);
    forall spans: seq<Span> | Layout(CERTIFICATE, data, 0, spans)
      ensures Inside(data, spans) && Certificates(data) == Cut(data, spans)
    {
      ExtractFollowsLayout(CERTIFICATE, data, 0, spans);
    }
  }

  /** A bundle gives no certificate exactly when no end marker follows a begin marker in it. */
  lemma NoCertificateIff(data: string)
    ensures Certificates(data) == [] <==>
      forall i: nat, j: nat :: i <= j ==> !(OccursAt(data, CERTIFICATE.begin, i) && OccursAt(data, CERTIFICATE.end, j))
  {
    CertificateMarkersAreProper();
    NextSpanIff(CERTIFICATE, data, 0);
    if NextSpan(CERTIFICATE, data, 0).Some? {
      var (begin, end) := NextSpan(CERTIFICATE, data, 0).value;
      FirstSpanIsOnly(CERTIFICATE, data, 0, begin, end, begin, end);
    }
  }
}
