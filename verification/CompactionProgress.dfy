/** A swap whose steps go through reaches the new layout, and an interrupted one can always be recovered. */
module CompactionProgress {
  import opened Values
  import opened CompactionSwap

  /** A path and where it ends. */
  ghost predicate Leads(ss: seq<State>, es: seq<Event>, p: Pass, m: Manifest, from: State, to: State)
    requires ValidPass(p)
  {
    IsPath(ss, es, p, m) && |ss| == |es| + 1 && ss[0] == from && ss[|es|] == to
  }

  lemma Further(ss: seq<State>, es: seq<Event>, p: Pass, m: Manifest, from: State, to: State, e: Event, s': State)
    returns (ss': seq<State>, es': seq<Event>)
    requires ValidPass(p) && Leads(ss, es, p, m, from, to) && Inv(to, p, m) && Next(to, e, p, m, s') && !e.Exit?
    ensures Leads(ss', es', p, m, from, s') && Inv(s', p, m)
  {
    StepKeeps(to, e, p, m, s');
    hide ValidPass, Inv, Next, RiskyExit;
    PathPush(ss, es, p, m, e, s');
    ss', es' := ss + [s'], es + [e];
  }

  lemma Start(s: State, p: Pass, m: Manifest)
    requires ValidPass(p)
    ensures Leads([s], [], p, m, s, s)
  {
  }

  // ----- the pass --------------------------------------------------------------------------------------------

  lemma PassCan(s: State, p: Pass, m: Manifest)
    requires ValidPass(p)
    ensures s.phase.Prepared? ==> Next(s, WriteManifest, p, m, Do(s, SetManifest(m), ManifestWritten))
    ensures s.phase.ManifestWritten? ==> Next(s, Fsync, p, m, Synced(s, Renaming(0)))
    ensures s.phase.Renaming? && s.phase.i < |p.temps| ==>
      Next(s, Move(s.phase.i), p, m, Do(s, Rename(p.temps[s.phase.i], p.names[s.phase.i]), Renaming(s.phase.i + 1)))
    ensures s.phase == Renaming(|p.temps|) ==> Next(s, Fsync, p, m, Synced(s, Removing(|p.temps|)))
    ensures s.phase.Removing? && s.phase.j < |p.names| ==>
      Next(s, Unlink(p.names[s.phase.j]), p, m, Do(s, Remove(p.names[s.phase.j]), Removing(s.phase.j + 1)))
    ensures s.phase.Removing? && s.phase.j < |p.names| ==>
      Next(s, UnlinkFail, p, m, s.(phase := Removing(s.phase.j + 1), missed := s.missed + {p.names[s.phase.j]}))
    ensures s.phase == Removing(|p.names|) ==> Next(s, Persist, p, m, Synced(s, Clearing))
    ensures s.phase.Clearing? ==> Next(s, Clear, p, m, Do(s, ClearManifest, Cleared))
    ensures s.phase.Cleared? ==> Next(s, Fsync, p, m, Synced(s, Idle))
  {
    hide ApplyAll;
  }

  lemma Sizes(p: Pass)
    requires ValidPass(p)
    ensures |p.temps| == |p.news| <= |p.names|
  {
  }

  lemma MovesAll(ss: seq<State>, es: seq<Event>, p: Pass, m: Manifest, from: State, to: State)
    returns (ss': seq<State>, es': seq<Event>, s': State)
    requires ValidPass(p) && Leads(ss, es, p, m, from, to) && Inv(to, p, m) && to.phase == Renaming(0) && to.missed == {}
    ensures Leads(ss', es', p, m, from, s') && Inv(s', p, m) && s'.phase == Renaming(|p.temps|) && s'.missed == {}
  {
    hide *;
    ss', es', s' := ss, es, to;
    Sizes(p);
    var i := 0;
    while i < |p.temps|
      invariant i <= |p.temps| && Leads(ss', es', p, m, from, s') && Inv(s', p, m) && s'.phase == Renaming(i) && s'.missed == {}
    {
      PassCan(s', p, m);
      var next := s'.(pending := s'.pending + [Rename(p.temps[i], p.names[i])], phase := Renaming(i + 1));
      DoIs(s', Rename(p.temps[i], p.names[i]), Renaming(i + 1));
      ss', es' := Further(ss', es', p, m, from, s', Move(i), next);
      s', i := next, i + 1;
    }
  }

  lemma DoIs(s: State, op: DirOp, phase: Phase)
    ensures Do(s, op, phase) == s.(pending := s.pending + [op], phase := phase)
    ensures Synced(s, phase) == s.(durable := Visible(s), pending := [], phase := phase)
  {
    hide ApplyAll;
  }

  /** The removals from position `k` on that a pass misses. */
  ghost function MissedFrom(p: Pass, miss: set<string>, k: nat): set<string>
    requires k <= |p.names|
  {
    set j | k <= j < |p.names| && p.names[j] in miss :: p.names[j]
  }

  lemma MissedStep(p: Pass, miss: set<string>, j: nat, missed: set<string>)
    requires j < |p.names| && missed + MissedFrom(p, miss, j) == miss
    ensures
      var next := if p.names[j] in miss then missed + {p.names[j]} else missed;
      next + MissedFrom(p, miss, j + 1) == miss
  {
    assert MissedFrom(p, miss, j) == MissedFrom(p, miss, j + 1) + if p.names[j] in miss then {p.names[j]} else {};
  }

  lemma MissedBounds(p: Pass, miss: set<string>)
    requires |p.temps| <= |p.names| && miss <= Removals(p)
    ensures MissedFrom(p, miss, |p.temps|) == miss && MissedFrom(p, miss, |p.names|) == {}
  {
    forall n | n in miss
      ensures n in MissedFrom(p, miss, |p.temps|)
    {
      assert n in Removals(p);
      var j :| |p.temps| <= j < |p.names| && p.names[j] == n;
    }
  }

  lemma RemovesAll(ss: seq<State>, es: seq<Event>, p: Pass, m: Manifest, from: State, to: State, miss: set<string>)
    returns (ss': seq<State>, es': seq<Event>, s': State)
    requires ValidPass(p) && Leads(ss, es, p, m, from, to) && Inv(to, p, m) && to.phase == Removing(|p.temps|) && to.missed == {}
    requires |p.temps| <= |p.names| && miss <= Removals(p)
    ensures Leads(ss', es', p, m, from, s') && Inv(s', p, m) && s'.phase == Removing(|p.names|) && s'.missed == miss
  {
    hide *;
    ss', es', s' := ss, es, to;
    MissedBounds(p, miss);
    var j := |p.temps|;
    while j < |p.names|
      invariant |p.temps| <= j <= |p.names| && Leads(ss', es', p, m, from, s') && Inv(s', p, m) && s'.phase == Removing(j)
      invariant s'.missed + MissedFrom(p, miss, j) == miss
    {
      PassCan(s', p, m);
      MissedStep(p, miss, j, s'.missed);
      var next := s'.(pending := s'.pending + [Remove(p.names[j])], phase := Removing(j + 1));
      var failed := s'.(phase := Removing(j + 1), missed := s'.missed + {p.names[j]});
      DoIs(s', Remove(p.names[j]), Removing(j + 1));
      if p.names[j] in miss {
        ss', es' := Further(ss', es', p, m, from, s', UnlinkFail, failed);
        s' := failed;
      } else {
        ss', es' := Further(ss', es', p, m, from, s', Unlink(p.names[j]), next);
        s' := next;
      }
      j := j + 1;
    }
  }

  lemma ClearingIsNew(s: State, p: Pass, m: Manifest)
    requires ValidPass(p) && Inv(s, p, m) && s.phase.Clearing?
    ensures s.pending == [] && NewLayout(Layout(s.durable), p, s.missed) && AllMoved(s.durable, p)
  {
  }

  lemma ClearsOnly(s: State)
    requires s.pending == []
    ensures
      var d := Visible(Do(s, ClearManifest, Cleared));
      d.files == s.durable.files && d.manifest.None? && Layout(d) == Layout(s.durable)
  {
    OneOp(s.durable, ClearManifest);
    assert [] + [ClearManifest] == [ClearManifest];
  }

  /**
   Whichever removals fail, a pass can end with exactly the new layout up to those, durable, with no manifest and no
   temp file of its own left.
   */
  lemma PassCompletes(s: State, p: Pass, m: Manifest, miss: set<string>) returns (ss: seq<State>, es: seq<Event>)
    requires ValidPass(p) && Init(s, p, m) && |p.temps| <= |p.names| && miss <= Removals(p)
    ensures IsRun(ss, es, p, m) && ss[0] == s
    ensures
      var z := ss[|es|];
      && z.phase.Idle? && z.pending == [] && z.missed == miss && z.durable.manifest.None?
      && NewLayout(Layout(z.durable), p, miss) && AllMoved(z.durable, p)
  {
    InitInv(s, p, m);
    assert s.phase.Prepared? && s.missed == {};
    hide *;
    Start(s, p, m);
    ss, es := [s], [];
    var s1 := Do(s, SetManifest(m), ManifestWritten);
    PassCan(s, p, m);
    DoIs(s, SetManifest(m), ManifestWritten);
    ss, es := Further(ss, es, p, m, s, s, WriteManifest, s1);
    var s2 := Synced(s1, Renaming(0));
    PassCan(s1, p, m);
    DoIs(s1, ClearManifest, Renaming(0));
    ss, es := Further(ss, es, p, m, s, s1, Fsync, s2);
    var s3: State;
    ss, es, s3 := MovesAll(ss, es, p, m, s, s2);
    var s4 := Synced(s3, Removing(|p.temps|));
    PassCan(s3, p, m);
    DoIs(s3, ClearManifest, Removing(|p.temps|));
    ss, es := Further(ss, es, p, m, s, s3, Fsync, s4);
    var s5: State;
    ss, es, s5 := RemovesAll(ss, es, p, m, s, s4, miss);
    ss, es := Clears(ss, es, p, m, s, s5, miss);
    RunFrom(ss, es, p, m, s);
  }

  lemma RunFrom(ss: seq<State>, es: seq<Event>, p: Pass, m: Manifest, s: State)
    requires ValidPass(p) && Init(s, p, m) && IsPath(ss, es, p, m) && |ss| == |es| + 1 && ss[0] == s
    ensures IsRun(ss, es, p, m)
  {
  }

  lemma Clears(ss: seq<State>, es: seq<Event>, p: Pass, m: Manifest, from: State, s: State, miss: set<string>)
    returns (ss': seq<State>, es': seq<Event>)
    requires ValidPass(p) && Leads(ss, es, p, m, from, s) && Inv(s, p, m) && s.phase == Removing(|p.names|) && s.missed == miss
    ensures IsPath(ss', es', p, m) && |ss'| == |es'| + 1 && ss'[0] == from
    ensures
      var z := ss'[|es'|];
      && z.phase.Idle? && z.pending == [] && z.missed == miss && z.durable.manifest.None?
      && NewLayout(Layout(z.durable), p, miss) && AllMoved(z.durable, p)
  {
    hide *;
    var s6 := Synced(s, Clearing);
    PassCan(s, p, m);
    DoIs(s, ClearManifest, Clearing);
    ss', es' := Further(ss, es, p, m, from, s, Persist, s6);
    ClearingIsNew(s6, p, m);
    ClearsOnly(s6);
    var s7 := Do(s6, ClearManifest, Cleared);
    PassCan(s6, p, m);
    DoIs(s6, ClearManifest, Cleared);
    ss', es' := Further(ss', es', p, m, from, s6, Clear, s7);
    var s8 := Synced(s7, Idle);
    PassCan(s7, p, m);
    DoIs(s7, ClearManifest, Idle);
    ss', es' := Further(ss', es', p, m, from, s7, Fsync, s8);
    SameMoved(s6.durable, s8.durable, p);
    LeadsIs(ss', es', p, m, from, s8);
  }

  lemma LeadsIs(ss: seq<State>, es: seq<Event>, p: Pass, m: Manifest, from: State, to: State)
    requires ValidPass(p) && Leads(ss, es, p, m, from, to)
    ensures IsPath(ss, es, p, m) && |ss| == |es| + 1 && ss[0] == from && ss[|es|] == to
  {
  }

  lemma SameMoved(d: Dir, d': Dir, p: Pass)
    requires d'.files == d.files && AllMoved(d, p)
    ensures AllMoved(d', p)
  {
  }

  // ----- recovery --------------------------------------------------------------------------------------------

  lemma RecoveryCan(s: State, p: Pass, m: Manifest)
    requires ValidPass(p)
    ensures s.phase.Off? ==> Next(s, Open, p, m, s.(phase := if Visible(s).manifest.Some? then RecRenaming else Idle))
    ensures s.phase.RecRenaming? ==> forall i :: 0 <= i < |p.temps| && p.temps[i] in Visible(s).files ==>
      Next(s, Move(i), p, m, Do(s, Rename(p.temps[i], p.names[i]), RecRenaming))
    ensures s.phase.RecRenaming? && AllMoved(Visible(s), p) ==> Next(s, Advance, p, m, s.(phase := RecRemoving))
    ensures s.phase.RecRemoving? ==> forall n :: n in Removals(p) ==> Next(s, Unlink(n), p, m, Do(s, Remove(n), RecRemoving))
    ensures s.phase.RecRemoving? && (forall n :: n in Removals(p) ==> n !in Visible(s).files) ==>
      Next(s, Advance, p, m, s.(phase := RecDiscarding, missed := {}))
    ensures s.phase.RecDiscarding? ==> forall n :: IsTemp(n) && n in Visible(s).files ==>
      Next(s, Discard(n), p, m, Do(s, Remove(n), RecDiscarding))
    ensures s.phase.RecDiscarding? ==> Next(s, Fsync, p, m, Synced(s, RecClearing))
    ensures s.phase.RecClearing? ==> Next(s, Clear, p, m, Do(s, ClearManifest, RecCleared))
    ensures s.phase.RecCleared? ==> Next(s, Fsync, p, m, Synced(s, Idle))
  {
    hide ApplyAll, IsTemp;
  }

  lemma VisibleAfter(s: State, op: DirOp, phase: Phase)
    ensures Visible(Do(s, op, phase)) == CompactionSwap.Apply(Visible(s), op)
  {
    ApplySnoc(s.durable, s.pending, op);
  }

  lemma RenameDrops(d: Dir, src: string, dst: string)
    requires src in d.files && src != dst
    ensures CompactionSwap.Apply(d, Rename(src, dst)).files.Keys == d.files.Keys - {src} + {dst}
  {
  }

  lemma TempNotName(p: Pass, i: nat, j: nat)
    requires ValidPass(p) && i < |p.temps| && j < |p.names|
    ensures p.temps[i] != p.names[j] && p.names[j] in p.before
  {
  }

  lemma RollsOn(ss: seq<State>, es: seq<Event>, p: Pass, m: Manifest, from: State, to: State)
    returns (ss': seq<State>, es': seq<Event>, s': State)
    requires ValidPass(p) && Leads(ss, es, p, m, from, to) && Inv(to, p, m) && to.phase.RecRenaming?
    ensures Leads(ss', es', p, m, from, s') && Inv(s', p, m) && s'.phase.RecRemoving?
  {
    hide *;
    ss', es', s' := ss, es, to;
    Sizes(p);
    var i := 0;
    while i < |p.temps|
      invariant i <= |p.temps| && Leads(ss', es', p, m, from, s') && Inv(s', p, m) && s'.phase.RecRenaming?
      invariant forall k :: 0 <= k < i ==> p.temps[k] !in Visible(s').files
    {
      if p.temps[i] in Visible(s').files {
        var next := Do(s', Rename(p.temps[i], p.names[i]), RecRenaming);
        RecoveryCan(s', p, m);
        DoIs(s', Rename(p.temps[i], p.names[i]), RecRenaming);
        VisibleAfter(s', Rename(p.temps[i], p.names[i]), RecRenaming);
        TempNotName(p, i, i);
        RenameDrops(Visible(s'), p.temps[i], p.names[i]);
        forall k | 0 <= k < i + 1
          ensures p.temps[k] !in Visible(next).files
        {
          TempNotName(p, k, i);
        }
        ss', es' := Further(ss', es', p, m, from, s', Move(i), next);
        s' := next;
      }
      i := i + 1;
    }
    MovedNow(s', p);
    RecoveryCan(s', p, m);
    ss', es' := Further(ss', es', p, m, from, s', Advance, s'.(phase := RecRemoving));
    s' := s'.(phase := RecRemoving);
  }

  lemma MovedNow(s: State, p: Pass)
    requires forall k :: 0 <= k < |p.temps| ==> p.temps[k] !in Visible(s).files
    ensures AllMoved(Visible(s), p)
  {
    hide ApplyAll;
  }

  lemma RemoveDrops(d: Dir, n: string)
    ensures CompactionSwap.Apply(d, Remove(n)).files == d.files - {n} && CompactionSwap.Apply(d, Remove(n)).manifest == d.manifest
  {
  }

  lemma UnlinksOn(ss: seq<State>, es: seq<Event>, p: Pass, m: Manifest, from: State, to: State)
    returns (ss': seq<State>, es': seq<Event>, s': State)
    requires ValidPass(p) && Leads(ss, es, p, m, from, to) && Inv(to, p, m) && to.phase.RecRemoving?
    ensures Leads(ss', es', p, m, from, s') && Inv(s', p, m) && s'.phase.RecDiscarding? && s'.missed == {}
  {
    hide *;
    ss', es', s' := ss, es, to;
    Sizes(p);
    var todo := Removals(p);
    while todo != {}
      invariant todo <= Removals(p) && Leads(ss', es', p, m, from, s') && Inv(s', p, m) && s'.phase.RecRemoving?
      invariant forall n :: n in Removals(p) - todo ==> n !in Visible(s').files
      decreases todo
    {
      var n :| n in todo;
      var next := Do(s', Remove(n), RecRemoving);
      RecoveryCan(s', p, m);
      DoIs(s', Remove(n), RecRemoving);
      VisibleAfter(s', Remove(n), RecRemoving);
      RemoveDrops(Visible(s'), n);
      ss', es' := Further(ss', es', p, m, from, s', Unlink(n), next);
      s', todo := next, todo - {n};
    }
    RecoveryCan(s', p, m);
    ss', es' := Further(ss', es', p, m, from, s', Advance, s'.(phase := RecDiscarding, missed := {}));
    s' := s'.(phase := RecDiscarding, missed := {});
  }

  lemma RecClearingIsNew(s: State, p: Pass, m: Manifest)
    requires ValidPass(p) && Inv(s, p, m) && s.phase.RecClearing?
    ensures s.pending == [] && s.missed == {} && NewLayout(Layout(s.durable), p, {}) && AllMoved(s.durable, p)
  {
  }

  lemma ClearsOn(ss: seq<State>, es: seq<Event>, p: Pass, m: Manifest, from: State, s: State)
    returns (ss': seq<State>, es': seq<Event>)
    requires ValidPass(p) && Leads(ss, es, p, m, from, s) && Inv(s, p, m) && s.phase.RecDiscarding? && s.missed == {}
    ensures IsPath(ss', es', p, m) && |ss'| == |es'| + 1 && ss'[0] == from && ss'[|es'|].phase.Idle?
    ensures ss'[|es'|].durable.manifest.None? && ss'[|es'|].pending == [] && NewLayout(Layout(ss'[|es'|].durable), p, {})
  {
    hide *;
    var s1 := Synced(s, RecClearing);
    RecoveryCan(s, p, m);
    DoIs(s, ClearManifest, RecClearing);
    ss', es' := Further(ss, es, p, m, from, s, Fsync, s1);
    RecClearingIsNew(s1, p, m);
    var s2 := Do(s1, ClearManifest, RecCleared);
    RecoveryCan(s1, p, m);
    DoIs(s1, ClearManifest, RecCleared);
    RecClearsOnly(s1);
    ss', es' := Further(ss', es', p, m, from, s1, Clear, s2);
    var s3 := Synced(s2, Idle);
    RecoveryCan(s2, p, m);
    DoIs(s2, ClearManifest, Idle);
    ss', es' := Further(ss', es', p, m, from, s2, Fsync, s3);
    LeadsIs(ss', es', p, m, from, s3);
  }

  lemma RecClearsOnly(s: State)
    requires s.pending == []
    ensures
      var d := Visible(Do(s, ClearManifest, RecCleared));
      d.manifest.None? && Layout(d) == Layout(s.durable)
  {
    OneOp(s.durable, ClearManifest);
    assert [] + [ClearManifest] == [ClearManifest];
  }

  /**
   Wherever a crash or a safe stop left the swap, opening can finish: without a manifest at once, and with one by
   rolling forward to exactly the new layout.
   */
  lemma RecoveryCompletes(ss: seq<State>, es: seq<Event>, p: Pass, m: Manifest, i: nat) returns (rs: seq<State>, re: seq<Event>)
    requires ValidPass(p) && IsRun(ss, es, p, m) && i < |ss| && ss[i].phase.Off?
    ensures IsPath(rs, re, p, m) && rs[0] == ss[i] && rs[|re|].phase.Idle?
    ensures Visible(ss[i]).manifest.Some? ==>
      rs[|re|].durable.manifest.None? && rs[|re|].pending == [] && NewLayout(Layout(rs[|re|].durable), p, {})
    ensures Visible(ss[i]).manifest.None? ==> rs[|re|] == ss[i].(phase := Idle)
  {
    RunKeeps(ss, es, p, m, i);
    hide *;
    var s := ss[i];
    Start(s, p, m);
    rs, re := [s], [];
    RecoveryCan(s, p, m);
    var s1 := s.(phase := if Visible(s).manifest.Some? then RecRenaming else Idle);
    rs, re := Further(rs, re, p, m, s, s, Open, s1);
    if Visible(s).manifest.Some? {
      var s2, s3: State;
      rs, re, s2 := RollsOn(rs, re, p, m, s, s1);
      rs, re, s3 := UnlinksOn(rs, re, p, m, s, s2);
      rs, re := ClearsOn(rs, re, p, m, s, s3);
    } else {
      LeadsIs(rs, re, p, m, s, s1);
    }
  }
}
