/**
 Reading segment bytes that may be damaged: a tolerant scan that accounts for every byte,
 and the recovery of a torn tail when a segment is opened.
 */
module Scanner {
  import opened Values
  import opened Lines
  import opened Log

  const MAX_TOKEN := 16777216

  datatype Decoded = Undecodable | UnknownOp | Good(line: Line)

  datatype Codec = Codec(enc: Line -> string, dec: string -> Decoded, utf8: string -> bool)

  ghost predicate ValidCodec(c: Codec) {
    forall l :: '\n' !in c.enc(l) && c.enc(l) != "" && c.utf8(c.enc(l)) && c.dec(c.enc(l)) == Good(l)
  }

  datatype Reason = TornTail | Oversized | BadJson | WrongOp | GluedLines

  /** A stretch of bytes: a record, possibly found behind garbage on its line, or a damaged region. */
  datatype Span =
    | Found(off: nat, len: nat, line: Line, glued: bool)
    | Damage(off: nat, len: nat, reason: Reason)

  // ----- what a scan should report -----------------------------------------------------------------------

  /** The last opening brace before `upto` from which the line decodes; zero if there is none. */
  function GluedStart(line: string, upto: nat, c: Codec): (start: nat)
    requires upto <= |line|
    ensures start < upto || start == 0
    ensures start > 0 ==> line[start] == '{' && c.dec(line[start..]).Good?
    ensures forall k :: start < k < upto && line[k] == '{' ==> !c.dec(line[k..]).Good?
  {
    if upto <= 1 then 0
    else if line[upto - 1] == '{' && c.dec(line[upto - 1..]).Good? then upto - 1
    else GluedStart(line, upto - 1, c)
  }

  /** What one terminated line holds. */
  function LineSpans(line: string, off: nat, c: Codec): seq<Span> {
    var len := |line| + 1;
    if len > MAX_TOKEN then [Damage(off, len, Oversized)]
    else if line == "" || !c.utf8(line) then [Damage(off, len, BadJson)]
    else
      match c.dec(line)
      case Good(l) => [Found(off, len, l, false)]
      case UnknownOp => [Damage(off, len, WrongOp)]
      case Undecodable =>
        var start := GluedStart(line, |line|, c);
        if start == 0 then [Damage(off, len, BadJson)]
        else [Damage(off, start, GluedLines), Found(off + start, len - start, c.dec(line[start..]).line, true)]
  }

  /** What a whole file holds, line by line. */
  function Spans(s: string, off: nat, c: Codec): seq<Span>
    decreases |s|
  {
    var i := LineEnd(s);
    if s == "" then []
    else if i == |s| then [Damage(off, i, TornTail)]
    else LineSpans(s[..i], off, c) + Spans(s[i + 1..], off + i + 1, c)
  }

  lemma SpansStep(s: string, i: nat, off: nat, c: Codec)
    requires i == LineEnd(s)
    ensures s == "" ==> Spans(s, off, c) == []
    ensures s != "" && i == |s| ==> Spans(s, off, c) == [Damage(off, i, TornTail)]
    ensures i < |s| ==> Spans(s, off, c) == LineSpans(s[..i], off, c) + Spans(s[i + 1..], off + i + 1, c)
  {
    hide LineSpans, LineEnd;
  }

  // ----- every byte is accounted for, once, in order ----------------------------------------------------

  ghost predicate Tiles(spans: seq<Span>, from: nat, to: nat) {
    if spans == [] then from == to
    else spans[0].off == from && spans[0].len > 0 && Tiles(spans[1..], from + spans[0].len, to)
  }

  lemma {:induction false} TilesConcat(a: seq<Span>, b: seq<Span>, from: nat, mid: nat, to: nat)
    requires Tiles(a, from, mid) && Tiles(b, mid, to)
    ensures Tiles(a + b, from, to)
  {
    if a == [] {
      assert a + b == b;
    } else {
      assert (a + b)[1..] == a[1..] + b;
      TilesConcat(a[1..], b, from + a[0].len, mid, to);
    }
  }

  lemma LineTiles(line: string, off: nat, c: Codec)
    ensures Tiles(LineSpans(line, off, c), off, off + |line| + 1)
  {
    var spans := LineSpans(line, off, c);
    if |spans| == 2 {
      assert spans[1..] == [spans[1]] && spans[1..][1..] == [];
    } else {
      assert spans[1..] == [];
    }
  }

  /** For every byte string, records and damaged regions tile the scanned bytes in ascending order. */
  lemma {:induction false} ScanTiles(s: string, off: nat, c: Codec)
    ensures Tiles(Spans(s, off, c), off, off + |s|)
    decreases |s|
  {
    hide *;
    var i := LineEnd(s);
    SpansStep(s, i, off, c);
    if i < |s| {
      LineTiles(s[..i], off, c);
      ScanTiles(s[i + 1..], off + i + 1, c);
      TilesConcat(LineSpans(s[..i], off, c), Spans(s[i + 1..], off + i + 1, c), off, off + i + 1, off + |s|);
    } else {
      TornTiles(off, |s|);
    }
  }

  lemma TornTiles(off: nat, len: nat)
    ensures Tiles([], off, off)
    ensures len > 0 ==> Tiles([Damage(off, len, TornTail)], off, off + len)
  {
    assert [Damage(off, len, TornTail)][1..] == [];
  }

  /** A reported record is really in the bytes it claims. */
  ghost predicate Proven(s: string, base: nat, e: Span, c: Codec) {
    e.Found? ==>
      && base <= e.off && e.off + e.len <= base + |s| && e.len > 0
      && c.dec(s[e.off - base..e.off - base + e.len - 1]) == Good(e.line)
      && s[e.off - base + e.len - 1] == '\n'
  }

  lemma LineProven(line: string, more: string, off: nat, c: Codec)
    ensures AllProven(line + "\n" + more, off, LineSpans(line, off, c), c)
  {
    var s, spans := line + "\n" + more, LineSpans(line, off, c);
    forall i | 0 <= i < |spans|
      ensures Proven(s, off, spans[i], c)
    {
      if spans[i].Found? {
        var start := spans[i].off - off;
        assert s[start..|line|] == line[start..];
        assert line[0..] == line;
      }
    }
  }

  lemma ProvenBehind(line: string, more: string, off: nat, e: Span, c: Codec)
    requires Proven(more, off + |line| + 1, e, c)
    ensures Proven(line + "\n" + more, off, e, c)
  {
    if e.Found? {
      var s, at := line + "\n" + more, e.off - (off + |line| + 1);
      assert s[e.off - off..e.off - off + e.len - 1] == more[at..at + e.len - 1];
    }
  }

  ghost predicate AllProven(s: string, base: nat, spans: seq<Span>, c: Codec) {
    forall i :: 0 <= i < |spans| ==> Proven(s, base, spans[i], c)
  }

  lemma ProvenConcat(line: string, more: string, off: nat, a: seq<Span>, b: seq<Span>, c: Codec)
    requires AllProven(line + "\n" + more, off, a, c) && AllProven(more, off + |line| + 1, b, c)
    ensures AllProven(line + "\n" + more, off, a + b, c)
  {
    hide Proven;
    forall i | 0 <= i < |b|
      ensures Proven(line + "\n" + more, off, b[i], c)
    {
      ProvenBehind(line, more, off, b[i], c);
    }
  }

  lemma {:induction false} ScanProves(s: string, off: nat, c: Codec)
    ensures AllProven(s, off, Spans(s, off, c), c)
    decreases |s|
  {
    hide *;
    var k := LineEnd(s);
    SpansStep(s, k, off, c);
    if k < |s| {
      var line, more := s[..k], s[k + 1..];
      AtNewline(s, k);
      LineProven(line, more, off, c);
      ScanProves(more, off + k + 1, c);
      ProvenConcat(line, more, off, LineSpans(line, off, c), Spans(more, off + k + 1, c), c);
    } else {
      NoClaim(s, off, c);
    }
  }

  lemma NoClaim(s: string, off: nat, c: Codec)
    ensures AllProven(s, off, [], c) && AllProven(s, off, [Damage(off, |s|, TornTail)], c)
  {
  }

  lemma AtNewline(s: string, k: nat)
    requires k < |s| && s[k] == '\n'
    ensures s == s[..k] + "\n" + s[k + 1..]
  {
  }

  // ----- an undamaged log reads back exactly ------------------------------------------------------------

  /** The records of a log where they were appended. */
  function Placed(ls: seq<Line>, off: nat, c: Codec): seq<Span> {
    if ls == [] then []
    else [Found(off, |c.enc(ls[0])| + 1, ls[0], false)] + Placed(ls[1..], off + |c.enc(ls[0])| + 1, c)
  }

  function Torn(tail: string, off: nat): seq<Span> {
    if tail == "" then [] else [Damage(off, |tail|, TornTail)]
  }

  ghost predicate Readable(ls: seq<Line>, c: Codec) {
    forall i :: 0 <= i < |ls| ==> |c.enc(ls[i])| + 1 <= MAX_TOKEN
  }

  lemma LineReads(line: string, more: string, l: Line, off: nat, c: Codec)
    requires '\n' !in line && line != "" && c.utf8(line) && c.dec(line) == Good(l) && |line| + 1 <= MAX_TOKEN
    ensures Spans(line + "\n" + more, off, c) == [Found(off, |line| + 1, l, false)] + Spans(more, off + |line| + 1, c)
  {
    hide *;
    LineEndIs(line, more);
    SpansStep(line + "\n" + more, |line|, off, c);
    GoodLine(line, l, off, c);
  }

  lemma GoodLine(line: string, l: Line, off: nat, c: Codec)
    requires line != "" && c.utf8(line) && c.dec(line) == Good(l) && |line| + 1 <= MAX_TOKEN
    ensures LineSpans(line, off, c) == [Found(off, |line| + 1, l, false)]
  {
  }

  lemma TailReads(tail: string, off: nat, c: Codec)
    requires '\n' !in tail
    ensures Spans(Body([], c.enc) + tail, off, c) == Torn(tail, off + |Body([], c.enc)|)
  {
    LineEndIs(tail, "");
    assert Body([], c.enc) + tail == tail;
  }

  lemma ReadStep(ls: seq<Line>, tail: string, off: nat, c: Codec)
    requires ValidCodec(c) && ls != [] && |c.enc(ls[0])| + 1 <= MAX_TOKEN
    ensures
      var len := |c.enc(ls[0])| + 1;
      Spans(Body(ls, c.enc) + tail, off, c) == [Found(off, len, ls[0], false)] + Spans(Body(ls[1..], c.enc) + tail, off + len, c)
  {
    hide *;
    BodyHead(ls, c.enc);
    Associate(c.enc(ls[0]) + "\n", Body(ls[1..], c.enc), tail);
    CodecReads(ls[0], c);
    LineReads(c.enc(ls[0]), Body(ls[1..], c.enc) + tail, ls[0], off, c);
  }

  lemma BodyLength(ls: seq<Line>, c: Codec)
    requires ls != []
    ensures |Body(ls, c.enc)| == |c.enc(ls[0])| + 1 + |Body(ls[1..], c.enc)|
  {
  }

  lemma {:induction false} BodyReads(ls: seq<Line>, tail: string, off: nat, c: Codec)
    requires ValidCodec(c) && Readable(ls, c) && '\n' !in tail
    ensures Spans(Body(ls, c.enc) + tail, off, c) == Placed(ls, off, c) + Torn(tail, off + |Body(ls, c.enc)|)
  {
    hide ValidCodec, Spans, Body, Torn;
    if ls == [] {
      TailReads(tail, off, c);
      assert Placed(ls, off, c) + Torn(tail, off + |Body(ls, c.enc)|) == Torn(tail, off + |Body(ls, c.enc)|);
    } else {
      var len := |c.enc(ls[0])| + 1;
      ReadableRest(ls, c);
      BodyReads(ls[1..], tail, off + len, c);
      ReadStep(ls, tail, off, c);
      BodyLength(ls, c);
      hide Readable;
      var first, rest, torn := [Found(off, len, ls[0], false)], Placed(ls[1..], off + len, c), Torn(tail, off + |Body(ls, c.enc)|);
      assert (first + rest) + torn == first + (rest + torn);
    }
  }

  lemma ReadableRest(ls: seq<Line>, c: Codec)
    requires Readable(ls, c) && ls != []
    ensures Readable(ls[1..], c) && |c.enc(ls[0])| + 1 <= MAX_TOKEN
  {
    assert forall i :: 0 <= i < |ls[1..]| ==> ls[1..][i] == ls[i + 1];
  }

  lemma CodecReads(l: Line, c: Codec)
    requires ValidCodec(c)
    ensures '\n' !in c.enc(l) && c.enc(l) != "" && c.utf8(c.enc(l)) && c.dec(c.enc(l)) == Good(l)
  {
  }

  lemma PrefixFits(ls: seq<Line>, m: nat, c: Codec)
    requires ValidCodec(c) && Readable(ls, c) && m <= |ls|
    ensures OneLine(ls, c.enc) && Readable(ls[..m], c)
  {
  }

  /** Any byte prefix of an appended log scans to exactly its whole records, and at most one torn tail. */
  lemma PrefixScans(ls: seq<Line>, n: nat, c: Codec)
    requires ValidCodec(c) && Readable(ls, c) && n <= |Body(ls, c.enc)|
    ensures
      var m := WholeIn(ls, n, c.enc);
      var valid := |Body(ls[..m], c.enc)|;
      valid <= n && Spans(Body(ls, c.enc)[..n], 0, c) == Placed(ls[..m], 0, c) + Torn(Body(ls, c.enc)[valid..n], valid)
  {
    var m := WholeIn(ls, n, c.enc);
    PrefixFits(ls, m, c);
    CutBody(ls, n, c.enc);
    hide ValidCodec, Body, Spans, Placed, Readable, WholeIn, Torn;
    BodyReads(ls[..m], Body(ls, c.enc)[|Body(ls[..m], c.enc)|..n], 0, c);
  }

  // ----- the tolerant scan -------------------------------------------------------------------------------

  /** The records among some spans. */
  function Entries(spans: seq<Span>): seq<Span> {
    if spans == [] then []
    else Entries(spans[..|spans| - 1]) + if spans[|spans| - 1].Found? then [spans[|spans| - 1]] else []
  }

  /** The damaged regions among some spans. */
  function Regions(spans: seq<Span>): seq<Span> {
    if spans == [] then []
    else Regions(spans[..|spans| - 1]) + if spans[|spans| - 1].Damage? then [spans[|spans| - 1]] else []
  }

  /** Looks for a complete record behind garbage, from the end of the line. */
  method FindGlued(line: string, c: Codec) returns (start: nat)
    ensures start == GluedStart(line, |line|, c)
  {
    start := |line|;
    while start > 1
      invariant start <= |line| && GluedStart(line, |line|, c) == GluedStart(line, start, c)
    {
      start := start - 1;
      if line[start] == '{' && c.dec(line[start..]).Good? {
        return;
      }
    }
    start := 0;
  }

  /** Scans one terminated line. */
  method ScanLine(line: string, off: nat, c: Codec) returns (spans: seq<Span>)
    ensures spans == LineSpans(line, off, c)
  {
    var len := |line| + 1;
    if len > MAX_TOKEN {
      return [Damage(off, len, Oversized)];
    }
    if |line| == 0 || !c.utf8(line) {
      return [Damage(off, len, BadJson)];
    }
    match c.dec(line)
    case Good(l) => return [Found(off, len, l, false)];
    case UnknownOp => return [Damage(off, len, WrongOp)];
    case Undecodable =>
      var start := FindGlued(line, c);
      if start > 0 {
        return [Damage(off, start, GluedLines), Found(off + start, len - start, c.dec(line[start..]).line, true)];
      }
      return [Damage(off, len, BadJson)];
  }

  /** The records and the damaged regions of a scan, all of them and nothing else, each in its order. */
  ghost predicate Parted(spans: seq<Span>, found: seq<Span>, bad: seq<Span>) {
    && |found| + |bad| == |spans|
    && (forall x :: x in found <==> x in spans && x.Found?)
    && (forall x :: x in bad <==> x in spans && x.Damage?)
  }

  lemma {:induction false} SpansPart(spans: seq<Span>)
    ensures Parted(spans, Entries(spans), Regions(spans))
  {
    if spans != [] {
      var n := |spans| - 1;
      SpansPart(spans[..n]);
      assert spans == spans[..n] + [spans[n]];
    }
  }

  /** Scans the first `limit` bytes of a file without stopping at damage. */
  method ScanTolerant(file: string, limit: nat, c: Codec) returns (found: seq<Span>, bad: seq<Span>)
    requires limit <= |file|
    ensures found == Entries(Spans(file[..limit], 0, c)) && bad == Regions(Spans(file[..limit], 0, c))
    ensures Parted(Spans(file[..limit], 0, c), found, bad)
  {
    hide *;
    var s := file[..limit];
    var off, spans := 0, [];
    assert s[0..] == s;
    assert [] + Spans(s, 0, c) == Spans(s, 0, c);
    while off < |s|
      invariant off <= |s| && Spans(s, 0, c) == spans + Spans(s[off..], off, c)
    {
      var end := IndexNewline(s, off);
      ScanStep(s, off, end, spans, c);
      if end < |s| {
        var more := ScanLine(s[off..end], off, c);
        off, spans := end + 1, spans + more;
      } else {
        off, spans := end, spans + [Damage(off, end - off, TornTail)];
      }
    }
    NoMoreSpans(s, off, spans, c);
    found, bad := Entries(spans), Regions(spans);
    SpansPart(spans);
  }

  lemma NoMoreSpans(s: string, off: nat, spans: seq<Span>, c: Codec)
    requires off == |s|
    ensures spans + Spans(s[off..], off, c) == spans
  {
  }

  /** One line of the scan. */
  lemma ScanStep(s: string, off: nat, end: nat, done: seq<Span>, c: Codec)
    requires off < |s| && off <= end <= |s| && end - off == LineEnd(s[off..])
    ensures end < |s| ==>
      done + Spans(s[off..], off, c) == done + LineSpans(s[off..end], off, c) + Spans(s[end + 1..], end + 1, c)
    ensures end == |s| ==> done + Spans(s[off..], off, c) == done + [Damage(off, end - off, TornTail)] + Spans(s[end..], end, c)
  {
    hide *;
    SpansStep(s[off..], end - off, off, c);
    if end < |s| {
      SuffixTwice(s, off, end - off + 1);
      assert s[off..][..end - off] == s[off..end];
      Associate(done, LineSpans(s[off..end], off, c), Spans(s[end + 1..], end + 1, c));
    } else {
      NoMoreSpans(s, end, done + [Damage(off, end - off, TornTail)], c);
    }
  }

  // ----- opening a segment with a torn tail ---------------------------------------------------------------

  /** The length of the longest prefix that ends with a newline. */
  function LastLineEnd(s: string): (n: nat)
    ensures n <= |s| && (n > 0 ==> s[n - 1] == '\n') && '\n' !in s[n..]
  {
    if s == "" then 0 else if s[|s| - 1] == '\n' then |s| else LastLineEnd(s[..|s| - 1])
  }

  lemma LastLineEndIs(s: string, n: nat)
    requires n <= |s| && (n > 0 ==> s[n - 1] == '\n') && '\n' !in s[n..]
    ensures LastLineEnd(s) == n
  {
    var m := LastLineEnd(s);
    hide LastLineEnd;
    forall k | n <= k < |s|
      ensures s[k] != '\n'
    {
      assert s[k] == s[n..][k - n];
    }
    forall k | m <= k < |s|
      ensures s[k] != '\n'
    {
      assert s[k] == s[m..][k - m];
    }
  }

  /** Looks for the last newline from the end, in growing chunks, and cuts the file behind it. */
  method RecoverPartialLine(s: string) returns (kept: string)
    ensures kept == s[..LastLineEnd(s)]
  {
    var size := |s|;
    if size == 0 {
      return "";
    }
    if s[size - 1] == '\n' {
      LastLineEndIs(s, size);
      return s;
    }
    var chunk, offset := 512, size;
    while offset > 0
      invariant 0 <= offset <= size && '\n' !in s[offset..]
    {
      offset := if offset < chunk then 0 else offset - chunk;
      var b := s[offset..size];
      var i := |b|;
      while i > 0
        invariant 0 <= i <= |b| && '\n' !in s[offset + i..]
      {
        if b[i - 1] == '\n' {
          LastLineEndIs(s, offset + i);
          return s[..offset + i];
        }
        assert s[offset + i - 1..] == [b[i - 1]] + s[offset + i..];
        i := i - 1;
      }
    }
    assert s[0..] == s;
    LastLineEndIs(s, 0);
    kept := "";
  }

  lemma {:induction false} BodyEnds(ls: seq<Line>, c: Codec)
    ensures Body(ls, c.enc) == "" || Body(ls, c.enc)[|Body(ls, c.enc)| - 1] == '\n'
  {
    if ls != [] {
      BodyEnds(ls[1..], c);
    }
  }

  /** From any byte prefix of an appended log, recovery keeps exactly the whole lines. */
  lemma RecoveryKeepsWholeLines(ls: seq<Line>, n: nat, c: Codec)
    requires ValidCodec(c) && Readable(ls, c) && n <= |Body(ls, c.enc)|
    ensures
      var cut := Body(ls, c.enc)[..n];
      cut[..LastLineEnd(cut)] == Body(ls[..WholeIn(ls, n, c.enc)], c.enc)
  {
    var m := WholeIn(ls, n, c.enc);
    PrefixFits(ls, m, c);
    CutBody(ls, n, c.enc);
    BodyEnds(ls[..m], c);
    hide ValidCodec, Readable, WholeIn, OneLine, Body;
    var cut, whole := Body(ls, c.enc)[..n], Body(ls[..m], c.enc);
    var tail := Body(ls, c.enc)[|whole|..n];
    assert cut == whole + tail && cut[|whole|..] == tail;
    LastLineEndIs(cut, |whole|);
  }
}
