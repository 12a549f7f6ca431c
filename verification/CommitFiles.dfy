/** What one step does to the runs in one collection's files. */
module CommitFiles {
  import opened Values
  import opened Log
  import opened Compaction
  import opened Commit

  /** Only participants hold lines of `t`, and an active segment holds them in one block. */
  ghost predicate TraceOk(sealed: seq<Line>, v: seq<Line>, full: seq<Line>, t: TxId) {
    (Run(sealed + v, t) != [] ==> full != []) && Contiguous(v, t)
  }

  ghost predicate ColOk(col: Col, c: string, plan: map<TxId, Plan>) {
    && col.active.cur in col.active.versions
    && (forall v, t :: v in col.active.versions ==> TraceOk(col.sealed, v, Full(plan, t, c), t))
  }

  /** Whatever a crash leaves, the collection still holds the whole run. */
  ghost predicate RunHeld(col: Col, full: seq<Line>, t: TxId) {
    forall v :: v in col.active.versions ==> Run(col.sealed + v, t) == full
  }

  /** Up to `start` nothing of `t`; from there on the first `done` lines of its run. */
  ghost predicate PrefixAppended(col: Col, full: seq<Line>, t: TxId, start: nat, done: nat) {
    && start <= |col.active.cur| && done <= |full|
    && Run(col.sealed, t) == []
    && Run(col.active.cur[..start], t) == []
    && col.active.cur[start..] == full[..done]
  }

  // ----- runs ------------------------------------------------------------------------------

  lemma {:induction false} RunPush(v: seq<Line>, l: Line, t: TxId)
    ensures Run(v + [l], t) == if IsOf(l, t) then Run(v, t) + [l] else Run(v, t)
  {
    assert (v + [l])[..|v|] == v;
  }

  lemma {:induction false} RunOfBlock(v: seq<Line>, t: TxId)
    requires forall i :: 0 <= i < |v| ==> IsOf(v[i], t)
    ensures Run(v, t) == v
    ensures forall u :: u != t ==> Run(v, u) == []
  {
    if |v| > 0 {
      RunOfBlock(v[..|v| - 1], t);
      assert v == v[..|v| - 1] + [v[|v| - 1]];
    }
  }

  lemma {:induction false} RunOfPlain(v: seq<Line>, t: TxId)
    requires forall i :: 0 <= i < |v| ==> v[i].tx.None?
    ensures Run(v, t) == []
  {
    if |v| > 0 {
      RunOfPlain(v[..|v| - 1], t);
    }
  }

  lemma RunCut(v: seq<Line>, n: nat, t: TxId)
    requires n <= |v|
    ensures Run(v, t) == Run(v[..n], t) + Run(v[n..], t)
  {
    RunConcat(v[..n], v[n..], t);
    assert v[..n] + v[n..] == v;
  }

  lemma {:induction false} ContiguousCut(v: seq<Line>, n: nat, t: TxId)
    requires n <= |v| && Contiguous(v, t)
    ensures Contiguous(v[..n], t)
  {
    if n < |v| {
      ContiguousCut(v[..|v| - 1], n, t);
      assert v[..|v| - 1][..n] == v[..n];
    } else {
      assert v[..n] == v;
    }
  }

  /** In a contiguous segment that ends with `t`, everything from its first line on is `t`'s. */
  lemma {:induction false} TailBlock(v: seq<Line>, t: TxId)
    requires Contiguous(v, t) && v != [] && IsOf(v[|v| - 1], t)
    ensures FirstOf(v, t) < |v|
    ensures Run(v[..FirstOf(v, t)], t) == []
    ensures forall i :: FirstOf(v, t) <= i < |v| ==> IsOf(v[i], t)
  {
    var front := v[..|v| - 1];
    if Run(front, t) != [] {
      TailBlock(front, t);
      assert front[..FirstOf(front, t)] == v[..FirstOf(v, t)];
    } else {
      assert v[..FirstOf(v, t)] == front;
    }
  }

  // ----- the steps -----------------------------------------------------------------------

  lemma PushPlainOk(col: Col, c: string, plan: map<TxId, Plan>, e: Entry)
    requires ColOk(col, c, plan)
    ensures ColOk(col.(active := Push(col.active, Line(e, None))), c, plan)
  {
    var l := Line(e, None);
    var w := col.active.cur + [l];
    forall t
      ensures TraceOk(col.sealed, w, Full(plan, t, c), t)
    {
      assert TraceOk(col.sealed, col.active.cur, Full(plan, t, c), t);
      RunPush(col.active.cur, l, t);
      RunConcat(col.sealed, w, t);
      RunConcat(col.sealed, col.active.cur, t);
      assert w[..|w| - 1] == col.active.cur;
    }
  }

  lemma PushHeld(col: Col, full: seq<Line>, t: TxId, l: Line)
    requires RunHeld(col, full, t) && col.active.cur in col.active.versions && !IsOf(l, t)
    ensures RunHeld(col.(active := Push(col.active, l)), full, t)
  {
    RunPush(col.active.cur, l, t);
    RunConcat(col.sealed, col.active.cur + [l], t);
    RunConcat(col.sealed, col.active.cur, t);
  }

  lemma PushStampedOk(col: Col, c: string, plan: map<TxId, Plan>, t: TxId, start: nat, i: nat)
    requires ColOk(col, c, plan)
    requires PrefixAppended(col, Full(plan, t, c), t, start, i) && i < |Full(plan, t, c)|
    requires forall j :: 0 <= j < |Full(plan, t, c)| ==> IsOf(Full(plan, t, c)[j], t)
    ensures ColOk(col.(active := Push(col.active, Full(plan, t, c)[i])), c, plan)
  {
    var l := Full(plan, t, c)[i];
    var v, w := col.active.cur, col.active.cur + [l];
    assert w[..|w| - 1] == v;
    RunCut(v, start, t);
    assert i > 0 ==> v[|v| - 1] == v[start..][i - 1];
    forall u
      ensures TraceOk(col.sealed, w, Full(plan, u, c), u)
    {
      assert TraceOk(col.sealed, v, Full(plan, u, c), u);
      RunPush(v, l, u);
      RunConcat(col.sealed, w, u);
      RunConcat(col.sealed, v, u);
    }
  }

  lemma PushAppended(col: Col, full: seq<Line>, t: TxId, start: nat, i: nat)
    requires PrefixAppended(col, full, t, start, i) && i < |full|
    ensures PrefixAppended(col.(active := Push(col.active, full[i])), full, t, start, i + 1)
  {
    var v, w := col.active.cur, col.active.cur + [full[i]];
    assert w[..start] == v[..start];
    assert w[start..] == v[start..] + [full[i]];
  }

  lemma CutOk(col: Col, c: string, plan: map<TxId, Plan>, n: nat)
    requires ColOk(col, c, plan) && n <= |col.active.cur|
    ensures ColOk(col.(active := Cut(col.active, n)), c, plan)
  {
    var v := col.active.cur;
    forall t
      ensures TraceOk(col.sealed, v[..n], Full(plan, t, c), t)
    {
      assert TraceOk(col.sealed, v, Full(plan, t, c), t);
      RunCut(v, n, t);
      ContiguousCut(v, n, t);
      RunConcat(col.sealed, v, t);
      RunConcat(col.sealed, v[..n], t);
    }
  }

  lemma CutHeld(col: Col, full: seq<Line>, t: TxId, n: nat)
    requires RunHeld(col, full, t) && col.active.cur in col.active.versions && n <= |col.active.cur|
    requires Run(col.active.cur[n..], t) == []
    ensures RunHeld(col.(active := Cut(col.active, n)), full, t)
  {
    var v := col.active.cur;
    RunCut(v, n, t);
    RunConcat(col.sealed, v, t);
    RunConcat(col.sealed, v[..n], t);
  }

  lemma RotateOk(col: Col, c: string, plan: map<TxId, Plan>)
    requires ColOk(col, c, plan)
    ensures ColOk(Col(col.sealed + col.active.cur, File([], {[]}), false), c, plan)
  {
    var all := col.sealed + col.active.cur;
    assert all + [] == all;
    forall t
      ensures TraceOk(all, [], Full(plan, t, c), t)
    {
      assert TraceOk(col.sealed, col.active.cur, Full(plan, t, c), t);
    }
  }

  lemma RotateHeld(col: Col, full: seq<Line>, t: TxId)
    requires RunHeld(col, full, t) && col.active.cur in col.active.versions
    ensures RunHeld(Col(col.sealed + col.active.cur, File([], {[]}), false), full, t)
  {
    assert col.sealed + col.active.cur + [] == col.sealed + col.active.cur;
  }

  lemma CompactedRun(sealed: seq<Line>, n: nat, out: seq<Line>, dec: Decisions, now: int, t: TxId)
    requires n <= |sealed| && IsCompaction(out, sealed[..n], dec, now)
    ensures !Aborted(dec, t) ==> Run(out + sealed[n..], t) == Run(sealed, t)
    ensures Aborted(dec, t) ==> Run(out + sealed[n..], t) == Run(sealed[n..], t)
  {
    CompactionKeepsRuns(out, sealed[..n], dec, now, t);
    RunConcat(out, sealed[n..], t);
    RunCut(sealed, n, t);
  }

  lemma CompactOk(col: Col, c: string, plan: map<TxId, Plan>, n: nat, out: seq<Line>, dec: Decisions, now: int)
    requires ColOk(col, c, plan) && n <= |col.sealed| && IsCompaction(out, col.sealed[..n], dec, now)
    ensures ColOk(col.(sealed := out + col.sealed[n..]), c, plan)
  {
    forall v, t | v in col.active.versions
      ensures TraceOk(out + col.sealed[n..], v, Full(plan, t, c), t)
    {
      assert TraceOk(col.sealed, v, Full(plan, t, c), t);
      CompactedRun(col.sealed, n, out, dec, now, t);
      RunCut(col.sealed, n, t);
      RunConcat(out + col.sealed[n..], v, t);
      RunConcat(col.sealed, v, t);
    }
  }

  lemma CompactHeld(col: Col, full: seq<Line>, t: TxId, n: nat, out: seq<Line>, dec: Decisions, now: int)
    requires RunHeld(col, full, t) && !Aborted(dec, t)
    requires n <= |col.sealed| && IsCompaction(out, col.sealed[..n], dec, now)
    ensures RunHeld(col.(sealed := out + col.sealed[n..]), full, t)
  {
    CompactedRun(col.sealed, n, out, dec, now, t);
    forall v | v in col.active.versions
      ensures Run(out + col.sealed[n..] + v, t) == full
    {
      RunConcat(out + col.sealed[n..], v, t);
      RunConcat(col.sealed, v, t);
    }
  }
}
