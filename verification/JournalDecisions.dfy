/** The journal file and the decisions of the commit protocol: what a reopened file decides is what its records say. */
module JournalDecisions {
  import opened Values
  import opened Log
  import C = Commit
  import J = Journal
  import Lines

  /** A line of the file carries a record of the protocol. */
  predicate Says(r: J.Rec, q: C.Record) {
    r.tx == q.t && r.key == q.key && (if q.CommitRec? then r.CommitRec? else r.AbortRec?)
  }

  predicate SaysAll(rs: seq<J.Rec>, qs: seq<C.Record>) {
    |rs| == |qs| && forall i :: 0 <= i < |rs| ==> Says(rs[i], qs[i])
  }

  function Decided(t: J.Table): Decisions {
    map tx | tx in t.byTx :: Decision(t.byTx[tx].outcome, t.byTx[tx].retired)
  }

  lemma DecidedStep(t: J.Table, r: J.Rec, q: C.Record)
    requires J.Apply(t, r).Some? && Says(r, q)
    ensures
      var front := Decided(t);
      Decided(J.Apply(t, r).value) ==
      if q.t in front then front else front[q.t := Decision(if q.CommitRec? then Commit else Abort, false)]
  {
    hide J.KeyAfter, J.CommitFits;
  }

  /** The table folded from the lines is the decisions folded from the records. */
  lemma {:induction false} TableDecides(rs: seq<J.Rec>, qs: seq<C.Record>)
    requires SaysAll(rs, qs) && J.TableOf(rs).Some?
    ensures Decided(J.TableOf(rs).value) == C.DecisionsOf(qs)
  {
    if rs != [] {
      var n := |rs| - 1;
      J.TablePrefix(rs, n);
      TableDecides(rs[..n], qs[..n]);
      DecidedStep(J.TableOf(rs[..n]).value, rs[n], qs[n]);
    }
  }

  /** A file cut anywhere behind its header decides what a prefix of the records decides, whole records only. */
  lemma CutDecides(h: J.Header, rs: seq<J.Rec>, qs: seq<C.Record>, n: nat, c: J.Codec)
    requires J.ValidCodec(c) && J.OfEpoch(rs, h.epoch) && J.Short(rs, c) && J.TableOf(rs).Some? && SaysAll(rs, qs)
    requires |c.encHeader(h)| + 1 <= n <= |J.Image(h, rs, c)|
    ensures
      var p, m := J.Parse(J.Image(h, rs, c)[..n], c), Lines.WholeIn(rs, n - |c.encHeader(h)| - 1, c.enc);
      p.Journal? && m <= |qs| && SaysAll(p.records, qs[..m]) && Decided(p.table) == C.DecisionsOf(qs[..m])
  {
    hide J.ValidCodec, J.Parse, J.Image, J.TableOf, Lines.WholeIn, J.Short, J.OfEpoch, Decided;
    J.EveryCutParses(h, rs, n, c);
    var m := Lines.WholeIn(rs, n - |c.encHeader(h)| - 1, c.enc);
    TableDecides(rs[..m], qs[..m]);
  }
}
