/**
 What a reader finds after a compaction pass and its swap: the segments are read in order, so
 the layouts a swap can leave are judged by the log they spell out.
 */
module CompactionResult {
  import opened Values
  import opened Log
  import opened Compaction
  import Swap = CompactionSwap

  type Segments = map<string, seq<Line>>

  /** The log spelled out by the segments of `order` that exist. */
  function Read(l: Segments, order: seq<string>): seq<Line> {
    if |order| == 0 then []
    else
      var n := |order| - 1;
      Read(l, order[..n]) + (if order[n] in l then l[order[n]] else [])
  }

  lemma {:induction false} ReadConcat(l: Segments, a: seq<string>, b: seq<string>)
    ensures Read(l, a + b) == Read(l, a) + Read(l, b)
  {
    if |b| == 0 {
      assert a + b == a;
    } else {
      ReadConcat(l, a, b[..|b| - 1]);
      assert (a + b)[..|a + b| - 1] == a + b[..|b| - 1];
    }
  }

  lemma {:induction false} ReadAgrees(l: Segments, l': Segments, order: seq<string>)
    requires forall n :: n in order ==> (n in l <==> n in l') && (n in l ==> l[n] == l'[n])
    ensures Read(l, order) == Read(l', order)
  {
    if |order| > 0 {
      ReadAgrees(l, l', order[..|order| - 1]);
    }
  }

  lemma {:induction false} ReadsAs(l: Segments, order: seq<string>, segs: seq<seq<Line>>)
    requires |order| == |segs| && forall i :: 0 <= i < |order| ==> order[i] in l && l[order[i]] == segs[i]
    ensures Read(l, order) == Flatten(segs)
  {
    if |order| > 0 {
      ReadsAs(l, order[..|order| - 1], segs[..|segs| - 1]);
    }
  }

  /** The old segments in `missed`, whose removal failed. */
  function Left(p: Swap.Pass, missed: set<string>): Segments {
    map n | n in missed && n in p.before :: p.before[n]
  }

  function Stale(p: Swap.Pass, missed: set<string>): seq<Line>
    requires |p.temps| <= |p.names|
  {
    Read(Left(p, missed), p.names[|p.temps|..])
  }

  /** After the segments of the pass come those of `later`, which it leaves alone. */
  ghost predicate Follows(later: seq<string>, p: Swap.Pass) {
    forall n :: n in later ==> n in p.before && n !in p.names
  }

  /** The new layout spells out the outputs, then whatever old segments stayed, then the rest. */
  lemma ReadNew(l: Segments, p: Swap.Pass, missed: set<string>, later: seq<string>)
    requires Swap.ValidPass(p) && Swap.NewLayout(l, p, missed) && missed <= Swap.Removals(p) && Follows(later, p)
    ensures Read(l, p.names + later) == Flatten(p.news) + Stale(p, missed) + Read(p.before, later)
  {
    Swap.PassSizes(p);
    var outs, olds := p.names[..|p.temps|], p.names[|p.temps|..];
    hide Swap.ValidPass, Swap.NewLayout, Swap.Removals, Read, Flatten, Left, Follows;
    assert p.names == outs + olds;
    ReadConcat(l, p.names, later);
    ReadConcat(l, outs, olds);
    OutputsThere(l, p, missed);
    ReadsAs(l, outs, p.news);
    OldsLeft(l, p, missed);
    ReadAgrees(l, Left(p, missed), olds);
    LaterSame(l, p, missed, later);
    ReadAgrees(l, p.before, later);
  }

  lemma OutputsThere(l: Segments, p: Swap.Pass, missed: set<string>)
    requires Swap.ValidPass(p) && Swap.NewLayout(l, p, missed)
    ensures |p.news| == |p.temps| <= |p.names|
    ensures forall i :: 0 <= i < |p.temps| ==> p.names[..|p.temps|][i] in l && l[p.names[..|p.temps|][i]] == p.news[i]
  {
  }

  lemma OldsLeft(l: Segments, p: Swap.Pass, missed: set<string>)
    requires Swap.ValidPass(p) && Swap.NewLayout(l, p, missed) && missed <= Swap.Removals(p)
    ensures forall n :: n in p.names[|p.temps|..] ==>
      (n in l <==> n in Left(p, missed)) && (n in l ==> l[n] == Left(p, missed)[n])
  {
    forall n | n in p.names[|p.temps|..]
      ensures (n in l <==> n in Left(p, missed)) && (n in l ==> l[n] == Left(p, missed)[n])
    {
      var j :| |p.temps| <= j < |p.names| && p.names[j] == n;
      assert n in Swap.Removals(p);
    }
  }

  lemma LaterSame(l: Segments, p: Swap.Pass, missed: set<string>, later: seq<string>)
    requires Swap.ValidPass(p) && Swap.NewLayout(l, p, missed) && Follows(later, p)
    ensures forall n :: n in later ==> n in l && n in p.before && l[n] == p.before[n]
  {
    forall n | n in later
      ensures n in l && l[n] == p.before[n]
    {
      assert n in p.before && n !in p.names;
      assert n !in Swap.Removals(p);
      assert forall i :: 0 <= i < |p.temps| ==> p.names[i] in p.names;
    }
  }

  lemma {:induction false} NothingLeft(l: Segments, order: seq<string>)
    requires l == map[]
    ensures Read(l, order) == []
  {
    if |order| > 0 {
      NothingLeft(l, order[..|order| - 1]);
    }
  }

  /** However a pass was interrupted, an open collection with no failed removal spells out the old log or its compaction. */
  lemma OpenReads(ss: seq<Swap.State>, es: seq<Swap.Event>, p: Swap.Pass, m: Swap.Manifest, i: nat, later: seq<string>)
    requires Swap.ValidPass(p) && Swap.IsRun(ss, es, p, m) && i < |ss| && ss[i].phase.Idle? && ss[i].missed == {}
    requires Follows(later, p)
    ensures
      var found, rest := Read(Swap.Layout(Swap.Visible(ss[i])), p.names + later), Read(p.before, later);
      found == Read(p.before, p.names) + rest || found == Flatten(p.news) + rest
  {
    hide Swap.ValidPass, Swap.IsRun, Swap.NewLayout, Swap.Layout;
    Swap.OpenLayout(ss, es, p, m, i);
    var l := Swap.Layout(Swap.Visible(ss[i]));
    if l == p.before {
      ReadConcat(p.before, p.names, later);
    } else {
      Swap.PassSizes(p);
      ReadNew(l, p, {}, later);
      NothingLeft(Left(p, {}), p.names[|p.temps|..]);
      assert Flatten(p.news) + [] == Flatten(p.news);
    }
  }

  /**
   A whole pass, with its swap, its crashes and its recoveries: when its outputs are the compaction of
   its inputs, every stamp decided and revisions rising, an open collection shows the rows it showed before.
   */
  lemma PassKeepsRows(ss: seq<Swap.State>, es: seq<Swap.Event>, p: Swap.Pass, m: Swap.Manifest, i: nat, later: seq<string>,
                      dec: Decisions, dec2: Decisions, now: int, t: int)
    requires Swap.ValidPass(p) && Swap.IsRun(ss, es, p, m) && i < |ss| && ss[i].phase.Idle? && ss[i].missed == {}
    requires Follows(later, p) && IsCompaction(Flatten(p.news), Read(p.before, p.names), dec, now)
    requires AllDecided(Read(p.before, p.names), dec) && Extends(dec, dec2) && t >= now
    requires AllRevsRise(Read(p.before, p.names + later), dec2)
    ensures
      var found := Read(Swap.Layout(Swap.Visible(ss[i])), p.names + later);
      Live(Rebuilt(found, dec2), t) == Live(Rebuilt(Read(p.before, p.names + later), dec2), t)
  {
    hide *;
    var log, rest := Read(p.before, p.names), Read(p.before, later);
    ReadConcat(p.before, p.names, later);
    OpenReads(ss, es, p, m, i, later);
    CompactionKeepsMeaning(Flatten(p.news), log, rest, dec, dec2, now, t);
  }

  /** And it keeps the lines of every transaction that is not aborted. */
  lemma PassKeepsRuns(ss: seq<Swap.State>, es: seq<Swap.Event>, p: Swap.Pass, m: Swap.Manifest, i: nat, later: seq<string>,
                      dec: Decisions, now: int, tx: TxId)
    requires Swap.ValidPass(p) && Swap.IsRun(ss, es, p, m) && i < |ss| && ss[i].phase.Idle? && ss[i].missed == {}
    requires Follows(later, p) && IsCompaction(Flatten(p.news), Read(p.before, p.names), dec, now) && !Aborted(dec, tx)
    ensures Run(Read(Swap.Layout(Swap.Visible(ss[i])), p.names + later), tx) == Run(Read(p.before, p.names + later), tx)
  {
    hide *;
    var log, rest := Read(p.before, p.names), Read(p.before, later);
    ReadConcat(p.before, p.names, later);
    OpenReads(ss, es, p, m, i, later);
    RunConcat(log, rest, tx);
    RunConcat(Flatten(p.news), rest, tx);
    CompactionKeepsRuns(Flatten(p.news), log, dec, now, tx);
  }

  // ----- failed removals --------------------------------------------------------------------------------------

  /** Old lines left in the middle are not seen: later lines cover them, or they end as the output does. */
  ghost predicate Covered(out: seq<Line>, stale: seq<Line>, rest: seq<Line>, dec: Decisions, t: int) {
    forall id: nat :: Touching(stale, dec, id) != [] && Touching(rest, dec, id) == [] ==>
      LastResidue(Touching(stale, dec, id), t) == LastResidue(Touching(out, dec, id), t)
  }

  lemma StaleAt(out: seq<Line>, stale: seq<Line>, rest: seq<Line>, dec: Decisions, id: nat, t: int)
    ensures ContentAt(Rebuilt(out + stale + rest, dec), id, t) == ContentAt(Rebuilt(out + rest, dec), id, t) <==>
      (Touching(stale, dec, id) != [] && Touching(rest, dec, id) == [] ==>
         LastResidue(Touching(stale, dec, id), t) == LastResidue(Touching(out, dec, id), t))
  {
    hide Rebuilt, ContentAt, Residue, Touching;
    TouchingConcat(out, stale, dec, id);
    TouchingConcat(out + stale, rest, dec, id);
    TouchingConcat(out, rest, dec, id);
    ContentFromLast(out + stale + rest, dec, id, t);
    ContentFromLast(out + rest, dec, id, t);
  }

  /** Failed removals change what readers see exactly if some old line left behind is not covered. */
  lemma MissedRemovalsExactlyWhen(l: Segments, p: Swap.Pass, missed: set<string>, later: seq<string>, dec: Decisions, t: int)
    requires Swap.ValidPass(p) && Swap.NewLayout(l, p, missed) && missed <= Swap.Removals(p) && Follows(later, p)
    ensures
      var out, rest := Flatten(p.news), Read(p.before, later);
      Contents(Live(Rebuilt(Read(l, p.names + later), dec), t)) == Contents(Live(Rebuilt(out + rest, dec), t)) <==>
      Covered(out, Stale(p, missed), rest, dec, t)
  {
    hide Swap.ValidPass, Swap.NewLayout, Swap.Removals, Rebuilt, ContentAt, LastResidue, Touching, Contents, Live, Read, Flatten;
    Swap.PassSizes(p);
    ReadNew(l, p, missed, later);
    var out, stale, rest := Flatten(p.news), Stale(p, missed), Read(p.before, later);
    ContentsByPoint(Rebuilt(out + stale + rest, dec), Rebuilt(out + rest, dec), t);
    forall id: nat
      ensures ContentAt(Rebuilt(out + stale + rest, dec), id, t) == ContentAt(Rebuilt(out + rest, dec), id, t) <==>
        (Touching(stale, dec, id) != [] && Touching(rest, dec, id) == [] ==>
           LastResidue(Touching(stale, dec, id), t) == LastResidue(Touching(out, dec, id), t))
    {
      StaleAt(out, stale, rest, dec, id, t);
    }
  }
}
