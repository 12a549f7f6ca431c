/**
 The coordinator journal: a header and one line per decision. The decision table in
 memory is the fold of the records in the file, and any torn tail parses away.
 */
module Journal {
  import opened Values
  import opened Lines
  import opened Log

  const MAX_RECORD := 16777216

  /** The participants of a transaction, with the length and digest of each run. */
  datatype Part = Part(col: string, n: nat, digest: string)

  datatype Bind = Bind(lsn: nat, lead: string, digest: string)

  datatype Rec =
    | CommitRec(tx: TxId, key: string, parts: seq<Part>, bind: Option<Bind>)
    | AbortRec(tx: TxId, key: string, why: string)
    | RetireRec(tx: TxId, key: string, outcome: Outcome)

  function OutcomeOf(r: Rec): Outcome {
    match r
    case CommitRec(_, _, _, _) => Commit
    case AbortRec(_, _, _) => Abort
    case RetireRec(_, _, o) => o
  }

  /** What is known of one transaction. */
  datatype Known = Known(key: string, outcome: Outcome, parts: Option<seq<Part>>, bind: Option<Bind>, retired: bool)

  datatype Table = Table(byTx: map<TxId, Known>, byKey: map<string, TxId>, byLsn: map<nat, TxId>, maxSeq: nat)

  const EMPTY := Table(map[], map[], map[], 0)

  // ----- folding records into the table ---------------------------------------------------------------

  predicate SameDecision(d: Known, r: Rec) {
    d.outcome == OutcomeOf(r) && d.key == r.key
  }

  /** A second COMMIT must repeat the first, and an LSN belongs to one transaction. */
  predicate CommitFits(t: Table, d: Known, r: Rec)
    requires r.CommitRec?
  {
    && (d.parts.Some? ==> d.parts.value == r.parts)
    && (r.bind.Some? ==>
          && (d.bind.Some? ==> d.bind == r.bind)
          && (r.bind.value.lsn in t.byLsn ==> t.byLsn[r.bind.value.lsn] == r.tx))
  }

  function Merged(d: Known, r: Rec): Known {
    match r
    case CommitRec(_, _, parts, bind) =>
      d.(parts := if d.parts.Some? then d.parts else Some(parts), bind := if bind.Some? then bind else d.bind)
    case AbortRec(_, _, _) => d
    case RetireRec(_, _, _) => d.(retired := true)
  }

  /** A key points at its latest transaction, except that it never leaves a committed one. */
  function KeyAfter(t: Table, r: Rec): map<string, TxId> {
    if r.key == "" then t.byKey
    else if r.key in t.byKey && t.byKey[r.key] in t.byTx && t.byTx[t.byKey[r.key]].outcome.Commit? && t.byKey[r.key] != r.tx
    then t.byKey
    else t.byKey[r.key := r.tx]
  }

  /** One record folded in; none when it contradicts what is recorded. */
  function Apply(t: Table, r: Rec): Option<Table> {
    var d := if r.tx in t.byTx then t.byTx[r.tx] else Known(r.key, OutcomeOf(r), None, None, false);
    if !SameDecision(d, r) || (r.CommitRec? && !CommitFits(t, d, r)) then None
    else
      Some(Table(t.byTx[r.tx := Merged(d, r)],
                 KeyAfter(t, r),
                 if r.CommitRec? && r.bind.Some? then t.byLsn[r.bind.value.lsn := r.tx] else t.byLsn,
                 if r.tx.seqNo > t.maxSeq then r.tx.seqNo else t.maxSeq))
  }

  function TableOf(rs: seq<Rec>): Option<Table> {
    if rs == [] then Some(EMPTY)
    else
      var front := TableOf(rs[..|rs| - 1]);
      if front.None? then None else Apply(front.value, rs[|rs| - 1])
  }

  lemma {:induction false} TablePrefix(rs: seq<Rec>, n: nat)
    requires TableOf(rs).Some? && n <= |rs|
    ensures TableOf(rs[..n]).Some?
  {
    if n < |rs| {
      TablePrefix(rs[..|rs| - 1], n);
      assert rs[..|rs| - 1][..n] == rs[..n];
    } else {
      assert rs[..n] == rs;
    }
  }

  /** Once recorded, an outcome, its key, its participants and its binding never change, and a retirement stays. */
  ghost predicate Extends(t: Table, t': Table) {
    && (forall tx :: tx in t.byTx ==>
          && tx in t'.byTx
          && t'.byTx[tx].outcome == t.byTx[tx].outcome && t'.byTx[tx].key == t.byTx[tx].key
          && (t.byTx[tx].parts.Some? ==> t'.byTx[tx].parts == t.byTx[tx].parts)
          && (t.byTx[tx].bind.Some? ==> t'.byTx[tx].bind == t.byTx[tx].bind)
          && (t.byTx[tx].retired ==> t'.byTx[tx].retired))
    && (forall l :: l in t.byLsn ==> l in t'.byLsn && t'.byLsn[l] == t.byLsn[l])
    && t.maxSeq <= t'.maxSeq
  }

  lemma ApplyExtends(t: Table, r: Rec)
    requires Apply(t, r).Some?
    ensures Extends(t, Apply(t, r).value)
  {
  }

  lemma {:induction false} OutcomesNeverChange(rs: seq<Rec>, n: nat)
    requires TableOf(rs).Some? && n <= |rs|
    ensures TableOf(rs[..n]).Some? && Extends(TableOf(rs[..n]).value, TableOf(rs).value)
  {
    TablePrefix(rs, n);
    if n < |rs| {
      TablePrefix(rs, |rs| - 1);
      OutcomesNeverChange(rs[..|rs| - 1], n);
      assert rs[..|rs| - 1][..n] == rs[..n];
      ApplyExtends(TableOf(rs[..|rs| - 1]).value, rs[|rs| - 1]);
    } else {
      assert rs[..n] == rs;
    }
  }

  /** What the table says of one transaction is what its records say, and nothing without a record is in it. */
  ghost predicate Says(rs: seq<Rec>, t: Table, tx: TxId) {
    && (tx in t.byTx <==> exists i :: 0 <= i < |rs| && rs[i].tx == tx)
    && (tx in t.byTx ==>
          var d := t.byTx[tx];
          && (d.retired <==> exists i :: 0 <= i < |rs| && rs[i].tx == tx && rs[i].RetireRec?)
          && (d.parts.Some? <==> exists i :: 0 <= i < |rs| && rs[i].tx == tx && rs[i].CommitRec?)
          && forall i :: 0 <= i < |rs| && rs[i].tx == tx ==>
               && d.outcome == OutcomeOf(rs[i]) && d.key == rs[i].key
               && (rs[i].CommitRec? ==> d.parts == Some(rs[i].parts) && (rs[i].bind.Some? ==> d.bind == rs[i].bind)))
  }

  lemma SaysNext(rs: seq<Rec>, t: Table, r: Rec, tx: TxId)
    requires Says(rs, t, tx) && Apply(t, r).Some?
    ensures Says(rs + [r], Apply(t, r).value, tx)
  {
    var t', all := Apply(t, r).value, rs + [r];
    assert all[|rs|] == r;
    assert forall i :: 0 <= i < |rs| ==> all[i] == rs[i];
    if r.tx != tx {
      assert tx in t'.byTx <==> tx in t.byTx;
      assert tx in t.byTx ==> t'.byTx[tx] == t.byTx[tx];
    }
  }

  /** The table is exactly what the records say, transaction by transaction, and so is its index by LSN. */
  lemma {:induction false} TableMeans(rs: seq<Rec>, tx: TxId, lsn: nat)
    requires TableOf(rs).Some?
    ensures Says(rs, TableOf(rs).value, tx)
    ensures
      var t := TableOf(rs).value;
      lsn in t.byLsn && t.byLsn[lsn] == tx <==>
        BindsIn(rs, tx, lsn)
  {
    if rs != [] {
      var n := |rs| - 1;
      TablePrefix(rs, n);
      TableMeans(rs[..n], tx, lsn);
      assert rs == rs[..n] + [rs[n]];
      SaysNext(rs[..n], TableOf(rs[..n]).value, rs[n], tx);
      LsnNext(rs[..n], TableOf(rs[..n]).value, rs[n], tx, lsn);
    }
  }

  ghost predicate BindsIn(rs: seq<Rec>, tx: TxId, lsn: nat) {
    exists i :: 0 <= i < |rs| && rs[i].tx == tx && rs[i].CommitRec? && rs[i].bind.Some? && rs[i].bind.value.lsn == lsn
  }

  lemma LsnNext(rs: seq<Rec>, t: Table, r: Rec, tx: TxId, lsn: nat)
    requires Apply(t, r).Some? && (lsn in t.byLsn && t.byLsn[lsn] == tx <==> BindsIn(rs, tx, lsn))
    ensures
      var t' := Apply(t, r).value;
      lsn in t'.byLsn && t'.byLsn[lsn] == tx <==> BindsIn(rs + [r], tx, lsn)
  {
    var all := rs + [r];
    assert all[|rs|] == r;
    assert forall i :: 0 <= i < |rs| ==> all[i] == rs[i];
    if BindsIn(rs, tx, lsn) {
      var i :| 0 <= i < |rs| && rs[i].tx == tx && rs[i].CommitRec? && rs[i].bind.Some? && rs[i].bind.value.lsn == lsn;
      assert all[i].tx == tx;
    }
  }

  // ----- keys ------------------------------------------------------------------------------------------------

  ghost predicate KeyCommitted(t: Table, key: string) {
    exists tx :: tx in t.byTx && t.byTx[tx].key == key && t.byTx[tx].outcome.Commit?
  }

  ghost predicate KeyRecorded(t: Table, key: string) {
    exists tx :: tx in t.byTx && t.byTx[tx].key == key
  }

  /** A key points at a transaction that carries it, and at a committed one if there is any. */
  ghost predicate KeysOk(t: Table) {
    && (forall key :: key in t.byKey ==> t.byKey[key] in t.byTx && t.byTx[t.byKey[key]].key == key)
    && (forall tx :: tx in t.byTx && t.byTx[tx].key != "" ==> t.byTx[tx].key in t.byKey)
    && (forall tx :: tx in t.byTx && t.byTx[tx].key != "" && t.byTx[tx].outcome.Commit? ==>
          t.byTx[t.byKey[t.byTx[tx].key]].outcome.Commit?)
  }

  lemma ApplyKeys(t: Table, r: Rec)
    requires KeysOk(t) && Apply(t, r).Some?
    ensures KeysOk(Apply(t, r).value)
  {
  }

  lemma {:induction false} KeysHold(rs: seq<Rec>)
    requires TableOf(rs).Some?
    ensures KeysOk(TableOf(rs).value)
  {
    if rs != [] {
      TablePrefix(rs, |rs| - 1);
      KeysHold(rs[..|rs| - 1]);
      ApplyKeys(TableOf(rs[..|rs| - 1]).value, rs[|rs| - 1]);
    }
  }

  // ----- the highest sequence number ------------------------------------------------------------------------

  ghost predicate OfEpoch(rs: seq<Rec>, epoch: string) {
    forall i :: 0 <= i < |rs| ==> rs[i].tx.epoch == epoch
  }

  /** Every recorded transaction is at or below the high-water mark, and the mark is a recorded one. */
  lemma {:induction false} HighWater(rs: seq<Rec>, epoch: string)
    requires TableOf(rs).Some? && OfEpoch(rs, epoch)
    ensures forall tx :: tx in TableOf(rs).value.byTx ==> tx.epoch == epoch && tx.seqNo <= TableOf(rs).value.maxSeq
    ensures TableOf(rs).value.maxSeq > 0 ==> TxId(epoch, TableOf(rs).value.maxSeq) in TableOf(rs).value.byTx
  {
    if rs != [] {
      TablePrefix(rs, |rs| - 1);
      HighWater(rs[..|rs| - 1], epoch);
      assert rs[|rs| - 1].tx.epoch == epoch;
    }
  }

  // ----- lines ------------------------------------------------------------------------------------------------

  datatype Header = Header(epoch: string, gen: nat)

  /** How headers and records are written as one line each; decoding a record checks its checksum, form and epoch. */
  datatype Codec = Codec(
    enc: Rec -> string, dec: (string, string) -> Option<Rec>,
    encHeader: Header -> string, decHeader: string -> Option<Header>)

  const HEADER_PREFIX := "{\"magic\":\"SCRIVA-XTX\""

  predicate AllZero(s: string) {
    |s| > 0 && forall i :: 0 <= i < |s| ==> s[i] == '\0'
  }

  ghost predicate ValidCodec(c: Codec) {
    && (forall r :: '\n' !in c.enc(r) && |c.enc(r)| > 0 && !AllZero(c.enc(r)))
    && (forall r :: c.dec(c.enc(r), r.tx.epoch) == Some(r))
    && (forall line, epoch :: c.dec(line, epoch).Some? ==> c.dec(line, epoch).value.tx.epoch == epoch)
    && (forall h :: '\n' !in c.encHeader(h) && HEADER_PREFIX < c.encHeader(h) && c.decHeader(c.encHeader(h)) == Some(h))
  }

  ghost predicate Short(rs: seq<Rec>, c: Codec) {
    forall i :: 0 <= i < |rs| ==> |c.enc(rs[i])| <= MAX_RECORD
  }

  function Image(h: Header, rs: seq<Rec>, c: Codec): string {
    c.encHeader(h) + "\n" + Body(rs, c.enc)
  }

  // ----- parsing -----------------------------------------------------------------------------------------------

  datatype Parsed = Parsed(records: seq<Rec>, rest: string) | Corrupt

  /** Whole lines are records; what follows the last newline, or a zero-filled last line, is a torn tail. */
  function ParseLines(s: string, epoch: string, c: Codec): Parsed
    decreases |s|
  {
    var i := LineEnd(s);
    if i == |s| then Parsed([], s)
    else if i + 1 == |s| && AllZero(s[..i]) then Parsed([], s)
    else if i > MAX_RECORD || c.dec(s[..i], epoch).None? then Corrupt
    else
      match ParseLines(s[i + 1..], epoch, c)
      case Corrupt => Corrupt
      case Parsed(rs, rest) => Parsed([c.dec(s[..i], epoch).value] + rs, rest)
  }

  lemma CodecLine(c: Codec, r: Rec)
    requires ValidCodec(c)
    ensures c.dec(c.enc(r), r.tx.epoch) == Some(r) && !AllZero(c.enc(r)) && '\n' !in c.enc(r)
  {
  }

  /** One whole line in front of parsed ones. */
  lemma LineParses(line: string, more: string, r: Rec, rs: seq<Rec>, rest: string, epoch: string, c: Codec)
    requires '\n' !in line && |line| <= MAX_RECORD && !AllZero(line) && c.dec(line, epoch) == Some(r)
    requires ParseLines(more, epoch, c) == Parsed(rs, rest)
    ensures ParseLines(line + "\n" + more, epoch, c) == Parsed([r] + rs, rest)
  {
    hide LineEnd, AllZero;
    LineEndIs(line, more);
  }

  lemma TailParses(tail: string, epoch: string, c: Codec)
    requires '\n' !in tail
    ensures ParseLines(Body([], c.enc) + tail, epoch, c) == Parsed([], tail)
  {
    LineEndIs(tail, "");
    assert Body([], c.enc) + tail == tail;
  }

  /** Written records, followed by anything short of a whole line, parse back to exactly the records. */
  lemma {:induction false} BodyParses(rs: seq<Rec>, tail: string, epoch: string, c: Codec)
    requires ValidCodec(c) && OfEpoch(rs, epoch) && Short(rs, c) && '\n' !in tail
    ensures ParseLines(Body(rs, c.enc) + tail, epoch, c) == Parsed(rs, tail)
  {
    hide *;
    if rs == [] {
      TailParses(tail, epoch, c);
    } else {
      RestFits(rs, epoch, c);
      BodyParses(rs[1..], tail, epoch, c);
      BodyStep(rs, tail, epoch, c);
    }
  }

  lemma BodyStep(rs: seq<Rec>, tail: string, epoch: string, c: Codec)
    requires ValidCodec(c) && rs != [] && rs[0].tx.epoch == epoch && |c.enc(rs[0])| <= MAX_RECORD
    requires ParseLines(Body(rs[1..], c.enc) + tail, epoch, c) == Parsed(rs[1..], tail)
    ensures ParseLines(Body(rs, c.enc) + tail, epoch, c) == Parsed(rs, tail)
  {
    hide *;
    var line, more := c.enc(rs[0]), Body(rs[1..], c.enc) + tail;
    BodyHead(rs, c.enc);
    Associate(line + "\n", Body(rs[1..], c.enc), tail);
    CodecLine(c, rs[0]);
    LineParses(line, more, rs[0], rs[1..], tail, epoch, c);
    assert rs == [rs[0]] + rs[1..];
  }

  lemma RestFits(rs: seq<Rec>, epoch: string, c: Codec)
    requires OfEpoch(rs, epoch) && Short(rs, c) && rs != []
    ensures OfEpoch(rs[1..], epoch) && Short(rs[1..], c) && rs[0].tx.epoch == epoch && |c.enc(rs[0])| <= MAX_RECORD
  {
    forall i | 0 <= i < |rs[1..]|
      ensures rs[1..][i].tx.epoch == epoch && |c.enc(rs[1..][i])| <= MAX_RECORD
    {
      assert rs[1..][i] == rs[i + 1];
    }
  }

  datatype Opened = Bad | TornCreate | Journal(header: Header, records: seq<Rec>, table: Table, validLen: nat, torn: bool)

  predicate TornHeader(s: string) {
    AllZero(s) || (if |s| > |HEADER_PREFIX| then HEADER_PREFIX <= s else s <= HEADER_PREFIX)
  }

  /** What follows the header line. */
  function ParseBody(h: Header, s: string, total: nat, c: Codec): (r: Opened)
    ensures !r.TornCreate?
  {
    match ParseLines(s, h.epoch, c)
    case Corrupt => Bad
    case Parsed(rs, rest) =>
      if TableOf(rs).None? || |rest| > total then Bad
      else Opened.Journal(h, rs, TableOf(rs).value, total - |rest|, rest != "")
  }

  /** The meaning of a whole journal file. */
  function Parse(s: string, c: Codec): Opened {
    var i := LineEnd(s);
    if s == "" || (i == |s| && TornHeader(s)) then TornCreate
    else if i == |s| || c.decHeader(s[..i]).None? then Bad
    else ParseBody(c.decHeader(s[..i]).value, s[i + 1..], |s|, c)
  }

  lemma HeadParses(h: Header, s: string, c: Codec)
    requires ValidCodec(c)
    ensures
      var head := c.encHeader(h) + "\n";
      Parse(head + s, c) == ParseBody(h, s, |head| + |s|, c)
  {
    assert c.decHeader(c.encHeader(h)) == Some(h);
    LineEndIs(c.encHeader(h), s);
    hide ValidCodec, ParseBody, TornHeader, LineEnd;
  }

  /** A file of whole records, with anything short of a line behind it, opens with exactly those records. */
  lemma ImageParses(h: Header, rs: seq<Rec>, tail: string, c: Codec)
    requires ValidCodec(c) && OfEpoch(rs, h.epoch) && Short(rs, c) && TableOf(rs).Some? && '\n' !in tail
    ensures Parse(Image(h, rs, c) + tail, c) ==
      Opened.Journal(h, rs, TableOf(rs).value, |Image(h, rs, c)|, tail != "")
  {
    hide *;
    var head, body := c.encHeader(h) + "\n", Body(rs, c.enc);
    ImageIs(h, rs, c);
    HeadParses(h, body + tail, c);
    BodyParses(rs, tail, h.epoch, c);
    Associate(head, body, tail);
    BodyOpens(h, body + tail, |head| + |body + tail|, rs, tail, c);
  }

  lemma ImageIs(h: Header, rs: seq<Rec>, c: Codec)
    ensures Image(h, rs, c) == (c.encHeader(h) + "\n") + Body(rs, c.enc)
  {
  }

  lemma BodyOpens(h: Header, s: string, total: nat, rs: seq<Rec>, rest: string, c: Codec)
    requires ParseLines(s, h.epoch, c) == Parsed(rs, rest) && TableOf(rs).Some? && |rest| <= total
    ensures ParseBody(h, s, total, c) == Opened.Journal(h, rs, TableOf(rs).value, total - |rest|, rest != "")
  {
    hide TableOf, ParseLines;
  }

  lemma CutImage(head: string, body: string, whole: string, tail: string, n: nat)
    requires |head| <= n <= |head| + |body| && body[..n - |head|] == whole + tail
    ensures (head + body)[..n] == head + whole + tail
  {
  }

  /** Every cut of a journal file that still holds the header line parses to exactly the records wholly inside it. */
  lemma EveryCutParses(h: Header, rs: seq<Rec>, n: nat, c: Codec)
    requires ValidCodec(c) && OfEpoch(rs, h.epoch) && Short(rs, c) && TableOf(rs).Some?
    requires |c.encHeader(h)| + 1 <= n <= |Image(h, rs, c)|
    ensures
      var m := WholeIn(rs, n - |c.encHeader(h)| - 1, c.enc);
      var valid := |Image(h, rs[..m], c)|;
      TableOf(rs[..m]).Some? &&
      Parse(Image(h, rs, c)[..n], c) == Opened.Journal(h, rs[..m], TableOf(rs[..m]).value, valid, valid < n)
  {
    var head := c.encHeader(h) + "\n";
    var k := n - |head|;
    var m := WholeIn(rs, k, c.enc);
    assert OneLine(rs, c.enc);
    CutBody(rs, k, c.enc);
    var tail := Body(rs, c.enc)[|Body(rs[..m], c.enc)|..k];
    TablePrefix(rs, m);
    assert OfEpoch(rs[..m], h.epoch) && Short(rs[..m], c);
    hide ValidCodec, Body, TableOf, Parse, WholeIn;
    CutImage(head, Body(rs, c.enc), Body(rs[..m], c.enc), tail, n);
    ImageParses(h, rs[..m], tail, c);
  }

  /** A cut inside the header line is a creation that never finished. */
  lemma CutHeaderIsTornCreate(h: Header, rs: seq<Rec>, n: nat, c: Codec)
    requires ValidCodec(c) && n <= |c.encHeader(h)|
    ensures n <= |Image(h, rs, c)| && Parse(Image(h, rs, c)[..n], c) == TornCreate
  {
    var head := c.encHeader(h);
    var s := Image(h, rs, c)[..n];
    assert s == head[..n];
    LineEndIs(s, "");
    assert HEADER_PREFIX < head;
  }

  /**
   A file is taken for an unfinished creation exactly if it has no line end and is all zeros or agrees with the header
   as far as both go; anything else without a header is refused.
   */
  lemma TornCreateExactlyWhen(s: string, c: Codec)
    ensures Parse(s, c) == TornCreate <==>
      '\n' !in s && ((forall i :: 0 <= i < |s| ==> s[i] == '\0') ||
                    (forall i :: 0 <= i < |s| && i < |HEADER_PREFIX| ==> s[i] == HEADER_PREFIX[i]))
    ensures '\n' !in s && Parse(s, c) != TornCreate ==> Parse(s, c) == Bad
  {
    AgreesTold(s, HEADER_PREFIX);
    hide ParseBody, TableOf;
    if '\n' !in s {
      LineEndIs(s, "");
      assert s + "" == s;
    } else {
      assert LineEnd(s) < |s|;
    }
  }

  lemma AgreesTold(s: string, p: string)
    ensures (if |s| > |p| then p <= s else s <= p) <==> forall i :: 0 <= i < |s| && i < |p| ==> s[i] == p[i]
  {
    if forall i :: 0 <= i < |s| && i < |p| ==> s[i] == p[i] {
      assert |s| > |p| ==> s[..|p|] == p;
      assert |s| <= |p| ==> s == p[..|s|];
    }
  }

  function Prepend(rs: seq<Rec>, p: Parsed): Parsed {
    match p
    case Corrupt => Corrupt
    case Parsed(more, rest) => Parsed(rs + more, rest)
  }

  /** One step of parsing, with the line already delimited. */
  lemma ParseStep(s: string, i: nat, epoch: string, c: Codec)
    requires i == LineEnd(s)
    ensures i == |s| || (i + 1 == |s| && AllZero(s[..i])) ==> ParseLines(s, epoch, c) == Parsed([], s)
    ensures i < |s| && !(i + 1 == |s| && AllZero(s[..i])) ==>
      if i > MAX_RECORD || c.dec(s[..i], epoch).None? then ParseLines(s, epoch, c) == Corrupt
      else ParseLines(s, epoch, c) == Prepend([c.dec(s[..i], epoch).value], ParseLines(s[i + 1..], epoch, c))
  {
  }

  ghost predicate Unusable(p: Parsed) {
    p.Corrupt? || TableOf(p.records).None?
  }

  datatype Piece = Torn | Broken | Whole(rec: Rec, next: nat)

  /** Reads one line. */
  method ReadLine(s: string, from: nat, epoch: string, c: Codec) returns (l: Piece)
    requires from <= |s|
    ensures l.Torn? ==> ParseLines(s[from..], epoch, c) == Parsed([], s[from..])
    ensures l.Broken? ==> ParseLines(s[from..], epoch, c) == Corrupt
    ensures l.Whole? ==> from < l.next <= |s|
    ensures l.Whole? ==> ParseLines(s[from..], epoch, c) == Prepend([l.rec], ParseLines(s[l.next..], epoch, c))
  {
    hide *;
    var next := IndexNewline(s, from);
    var rest, n := s[from..], next - from;
    ParseStep(rest, n, epoch, c);
    if next == |s| || (next + 1 == |s| && AllZero(rest[..n])) {
      return Torn;
    }
    if n > MAX_RECORD || c.dec(rest[..n], epoch).None? {
      return Broken;
    }
    SuffixTwice(s, from, n + 1);
    l := Whole(c.dec(rest[..n], epoch).value, next + 1);
  }

  lemma PrependEnd(rs: seq<Rec>, rest: string)
    ensures Prepend(rs, Parsed([], rest)) == Parsed(rs, rest) && Prepend(rs, Corrupt) == Corrupt
  {
    assert rs + [] == rs;
  }

  lemma TableNext(rs: seq<Rec>, r: Rec)
    requires TableOf(rs).Some?
    ensures TableOf(rs + [r]) == Apply(TableOf(rs).value, r)
  {
    assert (rs + [r])[..|rs|] == rs;
  }

  /** Reads the record lines one by one. */
  method ReadRecords(s: string, epoch: string, c: Codec) returns (ok: bool, records: seq<Rec>, table: Table, used: nat)
    ensures !ok ==> Unusable(ParseLines(s, epoch, c))
    ensures ok ==> used <= |s| && ParseLines(s, epoch, c) == Parsed(records, s[used..]) && TableOf(records) == Some(table)
  {
    ok, records, table, used := true, [], EMPTY, 0;
    ghost var all := ParseLines(s, epoch, c);
    assert s[0..] == s;
    PrependNothing(all);
    hide ParseLines, Apply, Prepend;
    while true
      invariant used <= |s| && TableOf(records) == Some(table)
      invariant all == Prepend(records, ParseLines(s[used..], epoch, c))
      decreases |s| - used
    {
      var l := ReadLine(s, used, epoch, c);
      PrependEnd(records, s[used..]);
      match l
      case Torn => return;
      case Broken => return false, records, table, used;
      case Whole(rec, next) =>
        ghost var later := ParseLines(s[next..], epoch, c);
        PrependTwice(records, rec, later);
        TableNext(records, rec);
        var added := Apply(table, rec);
        if added.None? {
          ConflictIsBad(records, rec, later);
          return false, records, table, used;
        }
        table, records, used := added.value, records + [rec], next;
    }
  }

  lemma PrependNothing(p: Parsed)
    ensures Prepend([], p) == p
  {
    if p.Parsed? {
      assert [] + p.records == p.records;
    }
  }

  /** Reads a journal file. */
  method ParseJournal(data: string, c: Codec) returns (r: Opened)
    ensures r == Parse(data, c)
  {
    hide ParseLines, TableOf, TornHeader;
    var nl := IndexNewline(data, 0);
    assert data[0..] == data;
    if |data| == 0 || (nl == |data| && TornHeader(data)) {
      return TornCreate;
    }
    if nl == |data| || c.decHeader(data[..nl]).None? {
      return Bad;
    }
    var h := c.decHeader(data[..nl]).value;
    var ok, records, table, used := ReadRecords(data[nl + 1..], h.epoch, c);
    if !ok {
      return Bad;
    }
    var validLen := nl + 1 + used;
    r := Opened.Journal(h, records, table, validLen, validLen < |data|);
  }

  lemma PrependTwice(rs: seq<Rec>, r: Rec, p: Parsed)
    ensures Prepend(rs, Prepend([r], p)) == Prepend(rs + [r], p)
  {
    if p.Parsed? {
      assert rs + ([r] + p.records) == (rs + [r]) + p.records;
    }
  }

  /** A contradiction in the middle makes the whole file unusable. */
  lemma ConflictIsBad(rs: seq<Rec>, r: Rec, p: Parsed)
    requires TableOf(rs + [r]).None?
    ensures Unusable(Prepend(rs + [r], p))
  {
    if p.Parsed? {
      assert ((rs + [r]) + p.records)[..|rs| + 1] == rs + [r];
      TableStaysNone((rs + [r]) + p.records, |rs| + 1);
    }
  }

  lemma {:induction false} TableStaysNone(rs: seq<Rec>, n: nat)
    requires n <= |rs| && TableOf(rs[..n]).None?
    ensures TableOf(rs).None?
  {
    if n < |rs| {
      assert rs[..|rs| - 1][..n] == rs[..n];
      TableStaysNone(rs[..|rs| - 1], n);
    } else {
      assert rs[..n] == rs;
    }
  }

  // ----- collecting retired transactions --------------------------------------------------------------

  function Kept(rs: seq<Rec>, drop: set<TxId>): seq<Rec> {
    if rs == [] then []
    else Kept(rs[..|rs| - 1], drop) + if rs[|rs| - 1].tx in drop then [] else [rs[|rs| - 1]]
  }

  /** `t'` is `t` without the dropped transactions. */
  ghost predicate Without(t: Table, t': Table, drop: set<TxId>) {
    && (forall tx :: tx in t'.byTx <==> tx in t.byTx && tx !in drop)
    && (forall tx :: tx in t'.byTx ==> t'.byTx[tx] == t.byTx[tx])
    && (forall l :: l in t'.byLsn <==> l in t.byLsn && t.byLsn[l] !in drop)
    && (forall l :: l in t'.byLsn ==> t'.byLsn[l] == t.byLsn[l])
    && t'.maxSeq <= t.maxSeq
  }

  lemma ApplyWithout(t: Table, t': Table, r: Rec, drop: set<TxId>)
    requires Without(t, t', drop) && Apply(t, r).Some?
    ensures r.tx in drop ==> Without(Apply(t, r).value, t', drop)
    ensures r.tx !in drop ==> Apply(t', r).Some? && Without(Apply(t, r).value, Apply(t', r).value, drop)
  {
  }

  /** Dropping whole transactions leaves a consistent journal that says the same of every other one. */
  lemma {:induction false} KeptTable(rs: seq<Rec>, drop: set<TxId>)
    requires TableOf(rs).Some?
    ensures TableOf(Kept(rs, drop)).Some? && Without(TableOf(rs).value, TableOf(Kept(rs, drop)).value, drop)
  {
    if rs != [] {
      var n := |rs| - 1;
      TablePrefix(rs, n);
      KeptTable(rs[..n], drop);
      var kept := Kept(rs[..n], drop);
      ApplyWithout(TableOf(rs[..n]).value, TableOf(kept).value, rs[n], drop);
      if rs[n].tx in drop {
        assert kept + [] == kept;
      } else {
        assert (kept + [rs[n]])[..|kept|] == kept;
      }
    }
  }

  lemma {:induction false} KeptFits(rs: seq<Rec>, drop: set<TxId>, epoch: string, c: Codec)
    requires OfEpoch(rs, epoch) && Short(rs, c)
    ensures OfEpoch(Kept(rs, drop), epoch) && Short(Kept(rs, drop), c)
  {
    if rs != [] {
      KeptFits(rs[..|rs| - 1], drop, epoch, c);
    }
  }

  /** The record with the highest sequence number is never dropped, so the mark survives. */
  lemma KeptMark(rs: seq<Rec>, drop: set<TxId>, epoch: string, c: Codec)
    requires TableOf(rs).Some? && OfEpoch(rs, epoch) && Short(rs, c) && TxId(epoch, TableOf(rs).value.maxSeq) !in drop
    ensures TableOf(Kept(rs, drop)).Some? && TableOf(Kept(rs, drop)).value.maxSeq == TableOf(rs).value.maxSeq
  {
    KeptTable(rs, drop);
    KeptFits(rs, drop, epoch, c);
    HighWater(rs, epoch);
    HighWater(Kept(rs, drop), epoch);
  }

  // ----- the journal object -----------------------------------------------------------------------------

  datatype Status = StCommitted | StAborted | StPending | StExpired | StUnknown

  /** What one append met: bytes written, whether a failed write could be cut back, whether the sync was confirmed. */
  datatype Io = Io(written: nat, rolledBack: bool, synced: bool)

  datatype Swap = Unchanged | Renamed(durable: bool)

  datatype Result = Ok | Refused | Durability | OutcomeUnknown

  /** What a file says still covers everything the table in memory says. */
  ghost predicate Covers(file: string, h: Header, t: Table, c: Codec) {
    var p := Parse(file, c);
    p.Journal? && p.header.epoch == h.epoch && p.table.maxSeq >= t.maxSeq
  }

  class XTxJournal {
    const codec: Codec
    var file: string
    var header: Header
    var size: nat
    var nextSeq: nat
    var table: Table
    var records: seq<Rec>
    var pending: map<TxId, string>
    var poisoned: bool

    /** The table is the fold of the records; unless poisoned, the file holds exactly those records. */
    ghost predicate Valid()
      reads this
    {
      && ValidCodec(codec) && OfEpoch(records, header.epoch) && Short(records, codec)
      && TableOf(records) == Some(table) && nextSeq > table.maxSeq
      && (if poisoned then Covers(file, header, table, codec)
          else file == Image(header, records, codec) && size == |file|)
    }

    /** Opens a file that parses as a journal; a torn tail is cut off. */
    constructor Open(file: string, codec: Codec, h: Header, rs: seq<Rec>, tail: string)
      requires ValidCodec(codec) && OfEpoch(rs, h.epoch) && Short(rs, codec) && TableOf(rs).Some?
      requires file == Image(h, rs, codec) + tail && '\n' !in tail
      ensures Valid() && !poisoned && header == h && records == rs && table == TableOf(rs).value && pending == map[]
      ensures nextSeq == table.maxSeq + 1 && this.codec == codec
    {
      ImageParses(h, rs, tail, codec);
      var p := Parse(file, codec);
      this.codec := codec;
      this.file := file[..p.validLen];
      header, size, table, records := p.header, p.validLen, p.table, p.records;
      nextSeq, pending, poisoned := p.table.maxSeq + 1, map[], false;
    }

    /** The table always is what the file means. */
    lemma TableIsParse()
      requires Valid() && !poisoned
      ensures Parse(file, codec) == Opened.Journal(header, records, table, |file|, false)
    {
      ImageParses(header, records, "", codec);
      assert file + "" == file;
    }

    method AllocateTxId(key: string) returns (tx: Option<TxId>)
      requires Valid()
      modifies this`nextSeq, this`pending
      ensures Valid() && (tx.None? <==> poisoned)
      ensures tx.Some? ==> tx.value == TxId(header.epoch, old(nextSeq)) && nextSeq == old(nextSeq) + 1
      ensures tx.Some? ==> tx.value !in table.byTx && pending == old(pending)[tx.value := key]
      ensures tx.None? ==> nextSeq == old(nextSeq) && pending == old(pending)
    {
      if poisoned {
        return None;
      }
      tx := Some(TxId(header.epoch, nextSeq));
      HighWater(records, header.epoch);
      nextSeq := nextSeq + 1;
      pending := pending[tx.value := key];
    }

    /** Appends a record, syncs it and installs it. */
    method AppendDecision(r: Rec, io: Io) returns (res: Result)
      requires Valid() && !poisoned && r.tx.epoch == header.epoch && r.tx.seqNo < nextSeq && |codec.enc(r)| <= MAX_RECORD
      requires Apply(table, r).Some? && io.written <= |codec.enc(r)| + 1
      modifies this`file, this`size, this`table, this`records, this`poisoned
      ensures Valid()
      ensures res.Ok? <==> io.written == |codec.enc(r)| + 1 && io.synced
      ensures res.Ok? ==> !poisoned && records == old(records) + [r] && table == Apply(old(table), r).value
      ensures !res.Ok? ==> records == old(records) && table == old(table) && (res.Durability? || res.OutcomeUnknown?)
      ensures res.Durability? && io.rolledBack ==> !poisoned && file == old(file)
      ensures res.OutcomeUnknown? ==> poisoned && Parse(file, codec).Journal? && Parse(file, codec).records == records + [r]
      ensures res.OutcomeUnknown? <==> io.written == |codec.enc(r)| + 1 && !io.synced
      ensures res.Durability? ==> (poisoned <==> !io.rolledBack)
    {
      hide ValidCodec, OfEpoch, Short, TableOf, Apply, Image, Parse;
      var line := codec.enc(r) + "\n";
      AppendRecord(records, r, header, codec);
      ApplySeq(table, r);
      if io.written < |line| {
        CutBack(file, line[..io.written]);
        CutLine(header, records, r, io.written, codec);
        file := file + line[..io.written];
        if io.rolledBack {
          file := file[..size];
        } else {
          poisoned := true;
        }
        return Durability;
      }
      file, size := file + line, size + |line|;
      ImageParses(header, records + [r], "", codec);
      CutBack(file, "");
      if !io.synced {
        poisoned := true;
        return OutcomeUnknown;
      }
      table, records := Apply(table, r).value, records + [r];
      res := Ok;
    }

    method Commit(tx: TxId, key: string, parts: seq<Part>, bind: Option<Bind>, io: Io) returns (res: Result)
      requires Valid() && tx.epoch == header.epoch && tx.seqNo < nextSeq && tx !in table.byTx
      requires |codec.enc(CommitRec(tx, key, parts, bind))| <= MAX_RECORD && io.written <= |codec.enc(CommitRec(tx, key, parts, bind))| + 1
      modifies this`file, this`size, this`table, this`records, this`poisoned, this`pending
      ensures Valid()
      ensures res.Refused? <==> old(poisoned) || (bind.Some? && bind.value.lsn in old(table).byLsn)
      ensures !res.Refused? ==>
        var whole := io.written == |codec.enc(CommitRec(tx, key, parts, bind))| + 1;
        && (res.Ok? <==> whole && io.synced) && (res.OutcomeUnknown? <==> whole && !io.synced) && (res.Durability? <==> !whole)
        && (poisoned <==> res.OutcomeUnknown? || (res.Durability? && !io.rolledBack))
      ensures res.Ok? ==> records == old(records) + [CommitRec(tx, key, parts, bind)] && Extends(old(table), table)
      ensures res.Ok? ==> tx in table.byTx && table.byTx[tx] == Known(key, Log.Commit, Some(parts), bind, false)
      ensures res.Ok? && bind.Some? ==> bind.value.lsn in table.byLsn && table.byLsn[bind.value.lsn] == tx
      ensures res.Ok? && key != "" ==> KeyCommitted(table, key)
      ensures !res.Ok? ==> table == old(table) && records == old(records)
      ensures res.Refused? || res.OutcomeUnknown? ==> pending == old(pending)
      ensures res.Ok? || res.Durability? ==> pending == old(pending) - {tx}
      ensures res.Refused? ==> file == old(file) && poisoned == old(poisoned)
    {
      if poisoned || (bind.Some? && bind.value.lsn in table.byLsn) {
        return Refused;
      }
      var r := CommitRec(tx, key, parts, bind);
      ApplyExtends(table, r);
      res := AppendDecision(r, io);
      if !res.OutcomeUnknown? {
        pending := pending - {tx};
      }
      assert res.Ok? ==> table.byTx[tx].key == key;
    }

    /** Recording an abort; refused for a committed transaction, idempotent for an aborted one. */
    method Abort(tx: TxId, key: string, why: string, io: Io) returns (res: Result)
      requires Valid() && tx.seqNo < nextSeq
      requires |codec.enc(AbortRec(tx, key, why))| <= MAX_RECORD && io.written <= |codec.enc(AbortRec(tx, key, why))| + 1
      modifies this`file, this`size, this`table, this`records, this`poisoned
      ensures Valid() && Extends(old(table), table)
      ensures res.Ok? ==> tx in table.byTx && !table.byTx[tx].outcome.Commit?
      ensures !res.Ok? ==> table == old(table) && records == old(records)
      ensures res.Refused? <==>
        old(poisoned) || tx.epoch != header.epoch || (tx in old(table.byTx) && old(table.byTx)[tx].outcome.Commit?)
      ensures !res.Refused? && tx in old(table.byTx) ==> res.Ok? && table == old(table) && records == old(records)
      ensures !res.Refused? && tx !in old(table.byTx) ==>
        var whole := io.written == |codec.enc(AbortRec(tx, key, why))| + 1;
        && (res.Ok? <==> whole && io.synced) && (res.OutcomeUnknown? <==> whole && !io.synced) && (res.Durability? <==> !whole)
        && (poisoned <==> res.OutcomeUnknown? || (res.Durability? && !io.rolledBack))
        && (res.Ok? ==> records == old(records) + [AbortRec(tx, key, why)] && table == Apply(old(table), AbortRec(tx, key, why)).value)
    {
      if poisoned || tx.epoch != header.epoch {
        return Refused;
      }
      if tx in table.byTx {
        return if table.byTx[tx].outcome.Commit? then Refused else Ok;
      }
      ApplyExtends(table, AbortRec(tx, key, why));
      res := AppendDecision(AbortRec(tx, key, why), io);
    }

    method Retire(tx: TxId, io: Io) returns (res: Result)
      requires Valid()
      requires tx in table.byTx ==>
        var r := RetireRec(tx, table.byTx[tx].key, table.byTx[tx].outcome);
        |codec.enc(r)| <= MAX_RECORD && io.written <= |codec.enc(r)| + 1
      modifies this`file, this`size, this`table, this`records, this`poisoned
      ensures Valid() && Extends(old(table), table)
      ensures res.Ok? ==> tx in table.byTx && table.byTx[tx].retired && !poisoned && table.maxSeq == old(table.maxSeq)
      ensures res.Refused? <==> old(poisoned) || tx !in old(table.byTx)
      ensures !res.Refused? && old(table.byTx)[tx].retired ==> res.Ok? && table == old(table) && records == old(records)
      ensures !res.Refused? && !old(table.byTx)[tx].retired ==>
        var r := RetireRec(tx, old(table).byTx[tx].key, old(table).byTx[tx].outcome);
        var whole := io.written == |codec.enc(r)| + 1;
        && (res.Ok? <==> whole && io.synced) && (res.OutcomeUnknown? <==> whole && !io.synced) && (res.Durability? <==> !whole)
        && (poisoned <==> res.OutcomeUnknown? || (res.Durability? && !io.rolledBack))
        && (res.Ok? ==> records == old(records) + [r])
      ensures !res.Ok? ==> table == old(table) && records == old(records)
    {
      if poisoned || tx !in table.byTx {
        return Refused;
      }
      if table.byTx[tx].retired {
        return Ok;
      }
      HighWater(records, header.epoch);
      var r := RetireRec(tx, table.byTx[tx].key, table.byTx[tx].outcome);
      ApplyExtends(table, r);
      res := AppendDecision(r, io);
    }

    /** The retired transactions among those chosen, except the one with the highest number. */
    method Collectable(chosen: set<TxId>) returns (dropped: set<TxId>)
      requires Valid()
      ensures forall tx :: tx in dropped <==>
        tx in chosen && tx in table.byTx && table.byTx[tx].retired && tx != TxId(header.epoch, table.maxSeq)
      ensures forall tx :: tx in dropped ==> tx.epoch == header.epoch && tx.seqNo < table.maxSeq
    {
      HighWater(records, header.epoch);
      hide ValidCodec, OfEpoch, Short, TableOf, Covers, Image;
      var mark := TxId(header.epoch, table.maxSeq);
      dropped := set tx | tx in table.byTx && table.byTx[tx].retired && tx != mark && tx in chosen;
    }

    /** Replaces the file by one without the dropped transactions. */
    method Rewrite(dropped: set<TxId>, swap: Swap) returns (res: Result)
      requires Valid() && !poisoned && TxId(header.epoch, table.maxSeq) !in dropped
      modifies this`file, this`size, this`table, this`records, this`poisoned, this`header
      ensures Valid() && table.maxSeq == old(table.maxSeq) && header.epoch == old(header.epoch)
      ensures res.Ok? ==> Without(old(table), table, dropped) && !poisoned
      ensures !res.Ok? ==> table == old(table) && records == old(records) && header == old(header) && res.Durability?
      ensures res.Ok? <==> swap == Renamed(true)
      ensures res.Ok? ==> header.gen == old(header.gen) + 1
      ensures poisoned <==> swap == Renamed(false)
      ensures swap.Unchanged? ==> file == old(file)
    {
      hide ValidCodec, OfEpoch, Short, TableOf, Image, Parse, Kept, Without;
      KeptTable(records, dropped);
      KeptMark(records, dropped, header.epoch, codec);
      KeptFits(records, dropped, header.epoch, codec);
      if swap.Unchanged? {
        return Durability;
      }
      var h := header.(gen := header.gen + 1);
      var kept := Kept(records, dropped);
      ImageParses(h, kept, "", codec);
      CutBack(Image(h, kept, codec), "");
      file := Image(h, kept, codec);
      if !swap.durable {
        poisoned := true;
        return Durability;
      }
      header, size, records, table := h, |file|, kept, TableOf(kept).value;
      res := Ok;
    }

    /** Rewrites the journal without the retired transactions chosen, except the one with the highest number. */
    method Checkpoint(chosen: set<TxId>, swap: Swap) returns (dropped: set<TxId>, res: Result)
      requires Valid()
      modifies this`file, this`size, this`table, this`records, this`poisoned, this`header
      ensures Valid() && table.maxSeq == old(table.maxSeq) && nextSeq == old(nextSeq) && header.epoch == old(header.epoch)
      ensures res.Ok? ==> Without(old(table), table, dropped) && !poisoned
      ensures res.Ok? ==> forall tx :: tx in dropped <==>
        tx in chosen && tx in old(table.byTx) && old(table.byTx)[tx].retired && tx != TxId(old(header.epoch), old(table.maxSeq))
      ensures !res.Ok? ==> table == old(table) && records == old(records) && dropped == {}
      ensures res.Refused? <==> old(poisoned)
      ensures !old(poisoned) ==>
        var some := exists tx :: tx in chosen && tx in old(table.byTx) && old(table.byTx)[tx].retired
                                 && tx != TxId(old(header.epoch), old(table.maxSeq));
        && (res.Ok? <==> !some || swap == Renamed(true)) && (res.Durability? <==> some && swap != Renamed(true))
        && (poisoned <==> some && swap == Renamed(false))
      ensures forall tx :: tx in dropped ==> tx.epoch == header.epoch && tx.seqNo < table.maxSeq
      ensures forall tx :: tx in dropped ==> StatusAt(tx) == if tx in pending then StPending else StExpired
    {
      if poisoned {
        return {}, Refused;
      }
      dropped := Collectable(chosen);
      hide ValidCodec, OfEpoch, Short, TableOf, Image, Parse, Covers;
      if dropped == {} {
        return {}, Ok;
      }
      res := Rewrite(dropped, swap);
      if !res.Ok? {
        dropped := {};
      }
    }

    function StatusAt(tx: TxId): Status
      reads this
    {
      if tx in table.byTx then if table.byTx[tx].outcome.Commit? then StCommitted else StAborted
      else if tx in pending then StPending
      else if tx.epoch == header.epoch && tx.seqNo < nextSeq then StExpired
      else StUnknown
    }

    /** What is known of a transaction id. */
    method StatusOf(tx: TxId) returns (st: Status)
      requires Valid()
      ensures st.StCommitted? <==> tx in table.byTx && table.byTx[tx].outcome.Commit?
      ensures st.StAborted? <==> tx in table.byTx && !table.byTx[tx].outcome.Commit?
      ensures tx !in table.byTx && tx !in pending ==> (st.StExpired? <==> tx.epoch == header.epoch && tx.seqNo < nextSeq)
      ensures st.StPending? <==> tx !in table.byTx && tx in pending
      ensures st == StatusAt(tx)
    {
      if tx in table.byTx {
        return if table.byTx[tx].outcome.Commit? then StCommitted else StAborted;
      }
      if tx in pending {
        return StPending;
      }
      st := if tx.epoch == header.epoch && tx.seqNo < nextSeq then StExpired else StUnknown;
    }

    /**
     A key is committed exactly when some COMMIT carrying it is installed, aborted when only other records carry it,
     and pending when no record does but a transaction under way carries it. The transaction told of carries the key.
     */
    method StatusByKey(key: string) returns (st: Status, tx: Option<TxId>)
      requires Valid()
      ensures st.StCommitted? <==> key != "" && KeyCommitted(table, key)
      ensures st.StAborted? <==> key != "" && !KeyCommitted(table, key) && KeyRecorded(table, key)
      ensures st.StPending? <==> key != "" && !KeyRecorded(table, key) && key in pending.Values
      ensures st.StUnknown? <==> key == "" || (!KeyRecorded(table, key) && key !in pending.Values)
      ensures tx.Some? <==> !st.StUnknown?
      ensures st.StCommitted? || st.StAborted? ==>
        tx.value in table.byTx && table.byTx[tx.value].key == key && (table.byTx[tx.value].outcome.Commit? <==> st.StCommitted?)
      ensures st.StPending? ==> tx.value in pending && pending[tx.value] == key
    {
      KeysHold(records);
      if key == "" {
        return StUnknown, None;
      }
      if key in table.byKey {
        var holder := table.byKey[key];
        return if table.byTx[holder].outcome.Commit? then StCommitted else StAborted, Some(holder);
      }
      if u :| u in pending && pending[u] == key {
        return StPending, Some(u);
      }
      st, tx := StUnknown, None;
    }

    /** Raises the counter above a number found in a segment. */
    method ObserveSeq(seqNo: nat)
      requires Valid()
      modifies this`nextSeq
      ensures Valid() && nextSeq == if seqNo >= old(nextSeq) then seqNo + 1 else old(nextSeq)
    {
      if seqNo >= nextSeq {
        nextSeq := seqNo + 1;
      }
    }
  }

  /** Whoever opens the rewritten file finds a collected transaction neither recorded nor above the mark, and nothing pending: it is expired. */
  lemma CollectedExpires(rs: seq<Rec>, drop: set<TxId>, h: Header, tx: TxId, c: Codec)
    requires ValidCodec(c) && OfEpoch(rs, h.epoch) && Short(rs, c) && TableOf(rs).Some? && TxId(h.epoch, TableOf(rs).value.maxSeq) !in drop
    requires tx in drop && tx in TableOf(rs).value.byTx
    ensures
      var p := Parse(Image(h, Kept(rs, drop), c), c);
      p.Journal? && tx !in p.table.byTx && tx.epoch == p.header.epoch && tx.seqNo < p.table.maxSeq + 1
  {
    KeptTable(rs, drop);
    KeptMark(rs, drop, h.epoch, c);
    KeptFits(rs, drop, h.epoch, c);
    HighWater(rs, h.epoch);
    hide ValidCodec, OfEpoch, Short, TableOf, Kept, Image, Parse;
    ImageParses(h, Kept(rs, drop), "", c);
    assert Image(h, Kept(rs, drop), c) + "" == Image(h, Kept(rs, drop), c);
  }

  predicate Fits(r: Rec, c: Codec) {
    |c.enc(r)| <= MAX_RECORD
  }

  function AllGood(r: Rec, c: Codec): Io {
    Io(|c.enc(r)| + 1, true, true)
  }

  lemma AbortApplied(t: Table, tx: TxId)
    requires tx !in t.byTx
    ensures
      var t' := Apply(t, AbortRec(tx, "", ""));
      && t'.Some? && t'.value.byTx == t.byTx[tx := Known("", Abort, None, None, false)]
      && t'.value.maxSeq >= tx.seqNo
  {
  }

  /** Allocates and aborts a transaction. */
  method AbortNew(j: XTxJournal) returns (tx: TxId)
    requires j.Valid() && !j.poisoned && Fits(AbortRec(TxId(j.header.epoch, j.nextSeq), "", ""), j.codec)
    modifies j
    ensures j.Valid() && !j.poisoned && j.header == old(j.header) && j.nextSeq == old(j.nextSeq) + 1
    ensures tx == TxId(j.header.epoch, old(j.nextSeq)) && tx !in old(j.table.byTx) && j.table.maxSeq >= tx.seqNo
    ensures j.table.byTx == old(j.table.byTx)[tx := Known("", Abort, None, None, false)]
    ensures tx in j.pending && forall u :: u in old(j.pending) ==> u in j.pending
  {
    hide ValidCodec, OfEpoch, Short, TableOf, Image, Parse, Covers, Apply;
    var given := j.AllocateTxId("");
    tx := given.value;
    AbortApplied(j.table, tx);
    var _ := j.Abort(tx, "", "", AllGood(AbortRec(tx, "", ""), j.codec));
  }

  /**
   The failing run: two transactions are allocated and aborted, the first is retired and collected. It reports
   PENDING until the file is opened again, then EXPIRED.
   */
  method CollectedStaysPending(j: XTxJournal) returns (tx: TxId, st: Status, again: XTxJournal)
    requires j.Valid() && !j.poisoned
    requires
      var a, b := TxId(j.header.epoch, j.nextSeq), TxId(j.header.epoch, j.nextSeq + 1);
      Fits(AbortRec(a, "", ""), j.codec) && Fits(AbortRec(b, "", ""), j.codec) && Fits(RetireRec(a, "", Abort), j.codec)
    modifies j
    ensures j.Valid() && tx !in j.table.byTx && st == j.StatusAt(tx) == StPending
    ensures fresh(again) && again.Valid() && again.table == j.table && again.StatusAt(tx) == StExpired
  {
    hide ValidCodec, OfEpoch, Short, TableOf, Image, Parse, Covers, Without, Extends;
    tx := AbortNew(j);
    var later := AbortNew(j);
    var _ := j.Retire(tx, AllGood(RetireRec(tx, "", Abort), j.codec));
    var dropped, _ := j.Checkpoint({tx}, Renamed(true));
    assert tx in dropped;
    st := j.StatusOf(tx);
    again := Reopened(j);
  }

  /** The same file opened again. */
  method Reopened(j: XTxJournal) returns (again: XTxJournal)
    requires j.Valid() && !j.poisoned
    ensures fresh(again) && again.Valid() && again.header == j.header && again.table == j.table
    ensures again.pending == map[] && again.nextSeq == j.table.maxSeq + 1
  {
    assert j.file + "" == j.file;
    again := new XTxJournal.Open(j.file, j.codec, j.header, j.records, "");
  }

  lemma AppendRecord(rs: seq<Rec>, r: Rec, h: Header, c: Codec)
    requires ValidCodec(c) && OfEpoch(rs, h.epoch) && Short(rs, c) && TableOf(rs).Some? && Apply(TableOf(rs).value, r).Some?
    requires r.tx.epoch == h.epoch && |c.enc(r)| <= MAX_RECORD
    ensures OfEpoch(rs + [r], h.epoch) && Short(rs + [r], c)
    ensures TableOf(rs + [r]) == Apply(TableOf(rs).value, r)
    ensures Image(h, rs + [r], c) == Image(h, rs, c) + (c.enc(r) + "\n")
  {
    assert (rs + [r])[..|rs|] == rs;
    BodyAppend(rs, r, c.enc);
    hide ValidCodec, Apply, Body;
    Associate(c.encHeader(h) + "\n", Body(rs, c.enc), c.enc(r) + "\n");
  }

  lemma ApplySeq(t: Table, r: Rec)
    requires Apply(t, r).Some?
    ensures Apply(t, r).value.maxSeq == if r.tx.seqNo > t.maxSeq then r.tx.seqNo else t.maxSeq
  {
  }

  lemma CutBack(a: string, b: string)
    ensures (a + b)[..|a|] == a && a + "" == a
  {
  }

  /** A line that was not written whole leaves a file that still opens with the records before it. */
  lemma CutLine(h: Header, rs: seq<Rec>, r: Rec, n: nat, c: Codec)
    requires ValidCodec(c) && OfEpoch(rs, h.epoch) && Short(rs, c) && TableOf(rs).Some? && n <= |c.enc(r)|
    ensures Covers(Image(h, rs, c) + (c.enc(r) + "\n")[..n], h, TableOf(rs).value, c)
  {
    assert (c.enc(r) + "\n")[..n] == c.enc(r)[..n];
    assert '\n' !in c.enc(r);
    ImageParses(h, rs, c.enc(r)[..n], c);
  }

  /** Whatever was recorded, an id allocated after reopening any file the journal can leave behind is a new one. */
  lemma ReopenNeverReissues(rs: seq<Rec>, file: string, h: Header, tx: TxId, c: Codec)
    requires OfEpoch(rs, h.epoch) && TableOf(rs).Some? && Covers(file, h, TableOf(rs).value, c) && tx in TableOf(rs).value.byTx
    ensures tx != TxId(Parse(file, c).header.epoch, Parse(file, c).table.maxSeq + 1)
    ensures tx.epoch == Parse(file, c).header.epoch && tx.seqNo < Parse(file, c).table.maxSeq + 1
  {
    HighWater(rs, h.epoch);
  }
}

/** Transaction ids as text: sixteen hex digits of epoch, a dash, sixteen hex digits of sequence number. */
module TxIdText {
  import opened Values

  const WIDTH := 16

  predicate LowerHex(s: string) {
    forall i :: 0 <= i < |s| ==> '0' <= s[i] <= '9' || 'a' <= s[i] <= 'f'
  }

  function Digit(d: nat): char
    requires d < 16
  {
    if d < 10 then '0' + d as char else 'a' + (d - 10) as char
  }

  function DigitValue(ch: char): (d: nat)
    requires '0' <= ch <= '9' || 'a' <= ch <= 'f'
    ensures d < 16 && Digit(d) == ch
  {
    if ch <= '9' then (ch - '0') as nat else (ch - 'a') as nat + 10
  }

  function Pow16(n: nat): nat {
    if n == 0 then 1 else 16 * Pow16(n - 1)
  }

  function Digits(n: nat, width: nat): (s: string)
    ensures |s| == width && LowerHex(s)
  {
    if width == 0 then "" else Digits(n / 16, width - 1) + [Digit(n % 16)]
  }

  function Number(s: string): (n: nat)
    requires LowerHex(s)
  {
    if s == "" then 0 else 16 * Number(s[..|s| - 1]) + DigitValue(s[|s| - 1])
  }

  lemma {:induction false} NumberOfDigits(n: nat, width: nat)
    requires n < Pow16(width)
    ensures Number(Digits(n, width)) == n
  {
    if width > 0 {
      var front := Digits(n / 16, width - 1);
      NumberOfDigits(n / 16, width - 1);
      assert Digits(n, width)[..width - 1] == front;
    }
  }

  lemma {:induction false} DigitsOfNumber(s: string)
    requires LowerHex(s)
    ensures Digits(Number(s), |s|) == s && Number(s) < Pow16(|s|)
  {
    if s != "" {
      var front, last := s[..|s| - 1], s[|s| - 1];
      DigitsOfNumber(front);
      var d := DigitValue(last);
      assert Number(s) / 16 == Number(front) && Number(s) % 16 == d;
      assert s == front + [last];
    }
  }

  function Format(epoch: string, seqNo: nat): string {
    epoch + "-" + Digits(seqNo, WIDTH)
  }

  function Parse(tx: string): Option<(string, nat)> {
    if |tx| != 2 * WIDTH + 1 || tx[WIDTH] != '-' then None
    else if !LowerHex(tx[..WIDTH]) || !LowerHex(tx[WIDTH + 1..]) then None
    else Some((tx[..WIDTH], Number(tx[WIDTH + 1..])))
  }

  /** Every 64-bit sequence number survives being written and read. */
  lemma FormatParses(epoch: string, seqNo: nat)
    requires |epoch| == WIDTH && LowerHex(epoch) && seqNo < Pow16(WIDTH)
    ensures Parse(Format(epoch, seqNo)) == Some((epoch, seqNo))
  {
    var tx := Format(epoch, seqNo);
    NumberOfDigits(seqNo, WIDTH);
    assert tx[..WIDTH] == epoch && tx[WIDTH + 1..] == Digits(seqNo, WIDTH);
  }

  /** An accepted text is exactly what its parts would be written as: no two texts name one transaction. */
  lemma ParseFormats(tx: string)
    requires Parse(tx).Some?
    ensures Format(Parse(tx).value.0, Parse(tx).value.1) == tx && Parse(tx).value.1 < Pow16(WIDTH)
  {
    DigitsOfNumber(tx[WIDTH + 1..]);
    assert tx == tx[..WIDTH] + "-" + tx[WIDTH + 1..];
  }
}
