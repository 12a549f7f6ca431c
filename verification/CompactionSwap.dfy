/**
 The manifest-guarded swap that ends a compaction pass, and the roll-forward that
 finishes it after a crash.

 A directory is what has been synced plus the operations issued since; a crash
 keeps any subset of those, each one whole.
 */
module CompactionSwap {
  import opened Values
  import opened Log
  import opened Compaction

  type Content = seq<Line>

  /** What one pass wants to do: temp files to final names, and old segments to remove. */
  datatype Manifest = Manifest(renames: map<string, string>, removals: set<string>)

  datatype Dir = Dir(files: map<string, Content>, manifest: Option<Manifest>)

  const TEMP_PREFIX := ".compact_"

  predicate IsTemp(name: string) {
    TEMP_PREFIX <= name
  }

  /** The segment files an open would enumerate. */
  function Layout(d: Dir): map<string, Content> {
    map n | n in d.files && !IsTemp(n) :: d.files[n]
  }

  // ----- one pass ----------------------------------------------------------------------------------

  /** `old` is the layout before the pass; output `news[i]` sits in `temps[i]` and replaces `names[i]`. */
  datatype Pass = Pass(before: map<string, Content>, names: seq<string>, temps: seq<string>, news: seq<Content>)

  ghost predicate ValidPass(p: Pass) {
    && |p.temps| == |p.news| <= |p.names|
    && (forall i, j :: 0 <= i < j < |p.names| ==> p.names[i] != p.names[j])
    && (forall i, j :: 0 <= i < j < |p.temps| ==> p.temps[i] != p.temps[j])
    && (forall i :: 0 <= i < |p.names| ==> p.names[i] in p.before)
    && (forall i :: 0 <= i < |p.temps| ==> IsTemp(p.temps[i]))
    && (forall n :: n in p.before ==> !IsTemp(n))
  }

  function Removals(p: Pass): set<string>
    requires |p.temps| <= |p.names|
  {
    set j | |p.temps| <= j < |p.names| :: p.names[j]
  }

  ghost predicate ManifestOf(m: Manifest, p: Pass)
    requires |p.temps| <= |p.names|
  {
    && m.renames.Keys == (set i | 0 <= i < |p.temps| :: p.temps[i])
    && (forall i :: 0 <= i < |p.temps| ==> p.temps[i] in m.renames && m.renames[p.temps[i]] == p.names[i])
    && m.removals == Removals(p)
  }

  /** The new layout, with the old segments in `missed` still there. */
  ghost predicate NewLayout(l: map<string, Content>, p: Pass, missed: set<string>)
    requires ValidPass(p)
  {
    && l.Keys == p.before.Keys - (Removals(p) - missed)
    && (forall i :: 0 <= i < |p.temps| ==> p.names[i] in l && l[p.names[i]] == p.news[i])
    && (forall n :: n in l && (forall i :: 0 <= i < |p.temps| ==> n != p.names[i]) ==> l[n] == p.before[n])
  }

  // ----- operations and crashes ------------------------------------------------------------------------

  datatype DirOp =
    | Create(name: string, content: Content)
    | Rename(src: string, dst: string)
    | Remove(name: string)
    | SetManifest(m: Manifest)
    | ClearManifest

  function Apply(d: Dir, op: DirOp): Dir {
    match op
    case Create(name, content) => d.(files := d.files[name := content])
    case Rename(src, dst) => if src in d.files then d.(files := (d.files - {src})[dst := d.files[src]]) else d
    case Remove(name) => d.(files := d.files - {name})
    case SetManifest(m) => d.(manifest := Some(m))
    case ClearManifest => d.(manifest := None)
  }

  function ApplyAll(d: Dir, ops: seq<DirOp>): Dir {
    if |ops| == 0 then d else Apply(ApplyAll(d, ops[..|ops| - 1]), ops[|ops| - 1])
  }

  /** The operations of `ops` that a crash kept, in order. */
  function Kept(ops: seq<DirOp>, keep: seq<bool>): seq<DirOp>
    requires |keep| == |ops|
  {
    if |ops| == 0 then []
    else
      var n := |ops| - 1;
      if keep[n] then Kept(ops[..n], keep[..n]) + [ops[n]] else Kept(ops[..n], keep[..n])
  }

  datatype Phase =
    | Prepared
    | ManifestWritten
    | Renaming(i: nat)
    | Removing(j: nat)
    | Clearing
    | Cleared
    | Abandoning
    | AbandonCleared
    | Off
    | RecRenaming
    | RecRemoving
    | RecDiscarding
    | RecClearing
    | RecCleared
    | Idle

  /** `missed` are the removals whose failure the pass ignored. */
  datatype State = State(durable: Dir, pending: seq<DirOp>, phase: Phase, missed: set<string>)

  function Visible(s: State): Dir {
    ApplyAll(s.durable, s.pending)
  }

  datatype Event =
    | WriteManifest
    | Fsync
    | FsyncFail
    | Move(i: nat)
    | MoveFail
    | Unlink(name: string)
    | UnlinkFail
    | Persist
    | Clear
    | Discard(name: string)
    | Advance
    | Open
    | Exit
    | Crash(keep: seq<bool>)

  function Do(s: State, op: DirOp, phase: Phase): State {
    s.(pending := s.pending + [op], phase := phase)
  }

  function Synced(s: State, phase: Phase): State {
    s.(durable := Visible(s), pending := [], phase := phase)
  }

  ghost predicate PassStep(s: State, e: Event, p: Pass, m: Manifest, s': State)
    requires ValidPass(p)
  {
    match (s.phase, e)
    case (Prepared, WriteManifest) => s' == Do(s, SetManifest(m), ManifestWritten)
    case (Prepared, FsyncFail) => s' == s.(phase := Abandoning)
    case (ManifestWritten, Fsync) => s' == Synced(s, Renaming(0))
    case (ManifestWritten, FsyncFail) => s' == s.(phase := Abandoning)
    case (Renaming(i), Move(k)) => k == i < |p.temps| && s' == Do(s, Rename(p.temps[i], p.names[i]), Renaming(i + 1))
    case (Renaming(i), MoveFail) => i < |p.temps| && s' == s.(phase := if i == 0 then Abandoning else Off)
    case (Renaming(i), Fsync) => i == |p.temps| && s' == Synced(s, Removing(i))
    case (Removing(j), Unlink(n)) => j < |p.names| && n == p.names[j] && s' == Do(s, Remove(n), Removing(j + 1))
    case (Removing(j), UnlinkFail) =>
      j < |p.names| && s' == s.(phase := Removing(j + 1), missed := s.missed + {p.names[j]})
    case (Removing(j), Persist) => j == |p.names| && s' == Synced(s, Clearing)
    case (Clearing, Clear) => s' == Do(s, ClearManifest, Cleared)
    case (Cleared, Fsync) => s' == Synced(s, Idle)
    case (Abandoning, Clear) => s' == Do(s, ClearManifest, AbandonCleared)
    case (AbandonCleared, Fsync) => s' == Synced(s, Idle)
    case (Idle, Discard(n)) => IsTemp(n) && s' == Do(s, Remove(n), Idle)
    case _ => false
  }

  /** Opening after a crash: roll a manifest forward, or discard temp files. */
  ghost predicate RecoveryStep(s: State, e: Event, p: Pass, s': State)
    requires ValidPass(p)
  {
    var v := Visible(s);
    match (s.phase, e)
    case (Off, Open) => s' == s.(phase := if v.manifest.Some? then RecRenaming else Idle)
    case (RecRenaming, Move(i)) => i < |p.temps| && p.temps[i] in v.files && s' == Do(s, Rename(p.temps[i], p.names[i]), RecRenaming)
    case (RecRenaming, Advance) => (forall i :: 0 <= i < |p.temps| ==> p.temps[i] !in v.files) && s' == s.(phase := RecRemoving)
    case (RecRemoving, Unlink(n)) => n in Removals(p) && s' == Do(s, Remove(n), RecRemoving)
    case (RecRemoving, Advance) => (forall n :: n in Removals(p) ==> n !in v.files) && s' == s.(phase := RecDiscarding, missed := {})
    case (RecDiscarding, Discard(n)) => IsTemp(n) && n in v.files && s' == Do(s, Remove(n), RecDiscarding)
    case (RecDiscarding, Fsync) => s' == Synced(s, RecClearing)
    case (RecClearing, Clear) => s' == Do(s, ClearManifest, RecCleared)
    case (RecCleared, Fsync) => s' == Synced(s, Idle)
    case _ => false
  }

  /** A process may stop at any time with unsynced operations pending, still visible to the next open; so may the machine. */
  ghost predicate Next(s: State, e: Event, p: Pass, m: Manifest, s': State)
    requires ValidPass(p)
  {
    match e
    case Exit => s' == s.(phase := Off)
    case Crash(keep) =>
      |keep| == |s.pending| && s' == s.(durable := ApplyAll(s.durable, Kept(s.pending, keep)), pending := [], phase := Off)
    case _ => PassStep(s, e, p, m, s') || RecoveryStep(s, e, p, s')
  }

  /** The pass has written and synced its temp files; nothing else has happened. */
  ghost predicate Init(s: State, p: Pass, m: Manifest)
    requires ValidPass(p)
  {
    && ManifestOf(m, p)
    && s.phase == Prepared && s.pending == [] && s.missed == {}
    && s.durable.manifest.None? && Untouched(s.durable, p)
  }

  // ----- what the directory can look like -----------------------------------------------------------------

  ghost predicate Untouched(d: Dir, p: Pass)
    requires ValidPass(p)
  {
    && Layout(d) == p.before
    && (forall i :: 0 <= i < |p.temps| ==> p.temps[i] in d.files && d.files[p.temps[i]] == p.news[i])
  }

  /** With a manifest: each source is still there, or its bytes are at the destination. */
  ghost predicate Guarded(d: Dir, p: Pass)
    requires ValidPass(p)
  {
    && (forall n :: n in d.files && !IsTemp(n) ==> n in p.before)
    && (forall n :: n in p.before && n !in Removals(p) ==> n in d.files)
    && (forall i :: 0 <= i < |p.temps| ==>
          if p.temps[i] in d.files then d.files[p.temps[i]] == p.news[i] && d.files[p.names[i]] == p.before[p.names[i]]
          else d.files[p.names[i]] == p.news[i])
    && (forall n :: n in p.before && n in d.files && (forall i :: 0 <= i < |p.temps| ==> n != p.names[i]) ==> d.files[n] == p.before[n])
  }

  ghost predicate AllMoved(d: Dir, p: Pass) {
    forall i :: 0 <= i < |p.temps| ==> p.temps[i] !in d.files
  }

  /** Operations that a manifest makes safe to lose or repeat. */
  ghost predicate SafeOp(op: DirOp, p: Pass)
    requires ValidPass(p)
  {
    match op
    case Rename(src, dst) => exists i :: 0 <= i < |p.temps| && src == p.temps[i] && dst == p.names[i]
    case Remove(n) => n in Removals(p) || (IsTemp(n) && forall i :: 0 <= i < |p.temps| ==> n != p.temps[i])
    case _ => false
  }

  ghost predicate TempRemoval(op: DirOp) {
    op.Remove? && IsTemp(op.name)
  }

  // ----- stopping with the manifest unsynced --------------------------------------------------------------

  /** The pass changes what segment `n` holds, or that it is there. */
  ghost predicate Alters(p: Pass, n: string)
    requires ValidPass(p)
  {
    n in Removals(p) || exists i :: 0 <= i < |p.temps| && n == p.names[i] && p.news[i] != p.before[n]
  }

  ghost predicate AltersAtMostOne(p: Pass)
    requires ValidPass(p)
  {
    forall a, b :: Alters(p, a) && Alters(p, b) ==> a == b
  }

  ghost predicate SameOutputs(p: Pass)
    requires ValidPass(p)
  {
    forall i :: 0 <= i < |p.temps| ==> p.news[i] == p.before[p.names[i]]
  }

  /**
   The moments a process must not stop at: its manifest is visible but unsynced and the swap has
   more than one effect, or the manifest's removal is unsynced and an output is still to be moved.
   */
  ghost predicate RiskyExit(s: State, p: Pass)
    requires ValidPass(p)
  {
    || ((s.phase.ManifestWritten? || s.phase.Abandoning?) && s.pending != [] && !AltersAtMostOne(p))
    || (s.phase.AbandonCleared? && (s.durable.manifest.Some? || |s.pending| > 1) && !SameOutputs(p))
  }

  // ----- the situations a pass can be in --------------------------------------------------------------------

  ghost predicate DuringSwap(s: State, p: Pass, m: Manifest)
    requires ValidPass(p)
  {
    && Guarded(s.durable, p) && s.durable.manifest == Some(m)
    && (forall k :: 0 <= k < |s.pending| ==> SafeOp(s.pending[k], p))
  }

  /** The manifest is visible, so the swap goes forward; if it is not durable, losing it does no harm. */
  ghost predicate Rolling(s: State, p: Pass, m: Manifest)
    requires ValidPass(p)
  {
    && Guarded(s.durable, p) && Visible(s).manifest == Some(m)
    && (s.durable.manifest == Some(m) || (s.durable.manifest.None? && s.missed == {} && AltersAtMostOne(p)))
    && (forall k :: 0 <= k < |s.pending| ==> SafeOp(s.pending[k], p) || s.pending[k] == SetManifest(m))
  }

  /** The new layout is durable, up to the removals that failed. */
  ghost predicate AfterSwap(s: State, p: Pass)
    requires ValidPass(p)
  {
    NewLayout(Layout(s.durable), p, s.missed) && AllMoved(s.durable, p)
  }

  /** Every output is in place already, so the temp files are not needed. */
  ghost predicate Firm(d: Dir, p: Pass)
    requires ValidPass(p)
  {
    Guarded(d, p) && forall i :: 0 <= i < |p.temps| ==> p.names[i] in d.files && d.files[p.names[i]] == p.news[i]
  }

  /** A crash could leave a manifest behind. */
  ghost predicate MayReturn(s: State) {
    s.durable.manifest.Some? || exists k :: 0 <= k < |s.pending| && s.pending[k].SetManifest?
  }

  ghost predicate OldOrNew(d: Dir, p: Pass, missed: set<string>)
    requires ValidPass(p)
  {
    Layout(d) == p.before || NewLayout(Layout(d), p, missed)
  }

  ghost predicate RestingOp(op: DirOp, m: Manifest) {
    TempRemoval(op) || op == SetManifest(m) || op == ClearManifest
  }

  /** No manifest is visible: the layout is the old or the new one, and a manifest that came back would do no harm. */
  ghost predicate Resting(s: State, p: Pass, m: Manifest)
    requires ValidPass(p)
  {
    && (s.durable.manifest.None? || s.durable.manifest == Some(m)) && Visible(s).manifest.None?
    && (forall k :: 0 <= k < |s.pending| ==> RestingOp(s.pending[k], m))
    && OldOrNew(s.durable, p, s.missed)
    && (MayReturn(s) ==> Firm(s.durable, p))
  }

  /** Removals `|temps|..j` were issued, except the missed ones. */
  ghost predicate RemovedUpTo(s: State, p: Pass, j: nat)
    requires ValidPass(p)
  {
    && |p.temps| <= j <= |p.names|
    && NewLayout(Layout(s.durable), p, Removals(p)) && AllMoved(s.durable, p)
    && s.missed <= (set k | |p.temps| <= k < j :: p.names[k])
    && NewLayout(Layout(Visible(s)), p, s.missed + (set k | j <= k < |p.names| :: p.names[k]))
  }

  /** A pass is given up with its manifest unwritten, written and perhaps not synced, or synced. */
  ghost predicate Abandons(manifest: Option<Manifest>, pending: seq<DirOp>, m: Manifest) {
    if pending == [] then manifest.None? || manifest == Some(m) else pending == [SetManifest(m)] && manifest.None?
  }

  ghost predicate Inv(s: State, p: Pass, m: Manifest)
    requires ValidPass(p)
  {
    && ManifestOf(m, p) && s.missed <= Removals(p)
    && match s.phase
       case Prepared => s.missed == {} && Untouched(s.durable, p) && s.pending == [] && s.durable.manifest.None?
       case ManifestWritten => s.missed == {} && Untouched(s.durable, p) && s.pending == [SetManifest(m)] && s.durable.manifest.None?
       case Abandoning => s.missed == {} && Untouched(s.durable, p) && Abandons(s.durable.manifest, s.pending, m)
       case AbandonCleared =>
         && s.missed == {} && Untouched(s.durable, p) && |s.pending| > 0 && s.pending[|s.pending| - 1] == ClearManifest
         && Abandons(s.durable.manifest, s.pending[..|s.pending| - 1], m)
       case Renaming(i) =>
         && s.missed == {} && DuringSwap(s, p, m) && Untouched(s.durable, p) && i <= |p.temps| && |s.pending| == i
         && (forall k :: 0 <= k < i ==> s.pending[k] == Rename(p.temps[k], p.names[k]))
       case Removing(j) => DuringSwap(s, p, m) && RemovedUpTo(s, p, j)
       case Clearing => AfterSwap(s, p) && s.pending == [] && s.durable.manifest == Some(m)
       case Cleared => AfterSwap(s, p) && s.pending == [ClearManifest] && s.durable.manifest == Some(m)
       case Off => Rolling(s, p, m) || Resting(s, p, m)
       case RecRenaming => Rolling(s, p, m)
       case RecRemoving => Rolling(s, p, m) && AllMoved(Visible(s), p)
       case RecDiscarding =>
         Rolling(s, p, m) && AllMoved(Visible(s), p) && s.missed == {} && forall n :: n in Removals(p) ==> n !in Visible(s).files
       case RecClearing => AfterSwap(s, p) && s.pending == [] && s.durable.manifest == Some(m) && s.missed == {}
       case RecCleared => AfterSwap(s, p) && s.pending == [ClearManifest] && s.durable.manifest == Some(m) && s.missed == {}
       case Idle => Resting(s, p, m)
  }

  // ----- directory lemmas -----------------------------------------------------------------------------------

  lemma NameFacts(p: Pass, i: nat)
    requires ValidPass(p) && i < |p.temps|
    ensures p.names[i] !in Removals(p) && p.names[i] in p.before && !IsTemp(p.names[i]) && IsTemp(p.temps[i])
    ensures forall k :: 0 <= k < |p.temps| && k != i ==> p.names[k] != p.names[i] && p.temps[k] != p.temps[i]
  {
    hide IsTemp;
  }

  lemma GuardedRename(d: Dir, p: Pass, i: nat)
    requires ValidPass(p) && Guarded(d, p) && i < |p.temps|
    ensures Guarded(Apply(d, Rename(p.temps[i], p.names[i])), p)
    ensures AllMoved(d, p) ==> AllMoved(Apply(d, Rename(p.temps[i], p.names[i])), p)
  {
    var d' := Apply(d, Rename(p.temps[i], p.names[i]));
    NameFacts(p, i);
    hide IsTemp;
    forall k | 0 <= k < |p.temps|
      ensures p.names[k] in d'.files
      ensures if p.temps[k] in d'.files then d'.files[p.temps[k]] == p.news[k] && d'.files[p.names[k]] == p.before[p.names[k]]
              else d'.files[p.names[k]] == p.news[k]
    {
      NameFacts(p, k);
    }
  }

  lemma GuardedRemove(d: Dir, p: Pass, n: string)
    requires ValidPass(p) && Guarded(d, p) && SafeOp(Remove(n), p)
    ensures Guarded(Apply(d, Remove(n)), p) && (AllMoved(d, p) ==> AllMoved(Apply(d, Remove(n)), p))
  {
    hide IsTemp;
    forall k | 0 <= k < |p.temps|
      ensures p.names[k] != n && p.temps[k] != n
    {
      NameFacts(p, k);
    }
  }

  lemma GuardedStep(d: Dir, op: DirOp, p: Pass)
    requires ValidPass(p) && Guarded(d, p) && SafeOp(op, p)
    ensures Guarded(Apply(d, op), p) && Apply(d, op).manifest == d.manifest
    ensures AllMoved(d, p) ==> AllMoved(Apply(d, op), p)
  {
    hide Guarded, AllMoved, ValidPass;
    PassSizes(p);
    if op.Rename? {
      var i :| 0 <= i < |p.temps| && op.src == p.temps[i] && op.dst == p.names[i];
      GuardedRename(d, p, i);
    } else {
      GuardedRemove(d, p, op.name);
    }
  }

  lemma {:induction false} GuardedAll(d: Dir, ops: seq<DirOp>, p: Pass, m: Manifest)
    requires ValidPass(p) && Guarded(d, p) && forall k :: 0 <= k < |ops| ==> SafeOp(ops[k], p) || ops[k] == SetManifest(m)
    ensures Guarded(ApplyAll(d, ops), p) && ApplyAll(d, ops).manifest in {d.manifest, Some(m)}
    ensures AllMoved(d, p) ==> AllMoved(ApplyAll(d, ops), p)
  {
    hide ValidPass, Guarded, SafeOp;
    if |ops| > 0 {
      var front, op := ops[..|ops| - 1], ops[|ops| - 1];
      GuardedAll(d, front, p, m);
      if op == SetManifest(m) {
        GuardedManifest(ApplyAll(d, front), op, p);
      } else {
        GuardedStep(ApplyAll(d, front), op, p);
      }
    }
  }

  lemma GuardedManifest(d: Dir, op: DirOp, p: Pass)
    requires ValidPass(p) && Guarded(d, p) && (op.SetManifest? || op.ClearManifest?)
    ensures Guarded(Apply(d, op), p) && (AllMoved(d, p) ==> AllMoved(Apply(d, op), p))
  {
  }

  lemma {:induction false} KeptIn(ops: seq<DirOp>, keep: seq<bool>)
    requires |keep| == |ops|
    ensures forall op :: op in Kept(ops, keep) ==> op in ops
  {
    if |ops| > 0 {
      var n := |ops| - 1;
      KeptIn(ops[..n], keep[..n]);
      assert ops == ops[..n] + [ops[n]];
    }
  }

  lemma LayoutUntouched(d: Dir, d': Dir)
    requires d'.files == d.files
    ensures Layout(d') == Layout(d)
  {
  }

  lemma UntouchedGuarded(d: Dir, p: Pass)
    requires ValidPass(p) && Untouched(d, p)
    ensures Guarded(d, p)
  {
    forall n | n in p.before
      ensures n in d.files && d.files[n] == p.before[n]
    {
      assert n in Layout(d);
    }
    forall n | n in d.files && !IsTemp(n)
      ensures n in p.before
    {
      assert n in Layout(d);
    }
  }

  /** Manifest operations touch no file. */
  lemma {:induction false} ManifestOps(d: Dir, ops: seq<DirOp>, m: Manifest)
    requires forall k :: 0 <= k < |ops| ==> ops[k] == SetManifest(m) || ops[k] == ClearManifest
    ensures ApplyAll(d, ops).files == d.files
    ensures ApplyAll(d, ops).manifest in {d.manifest, None, Some(m)}
    ensures |ops| > 0 && ops[|ops| - 1] == ClearManifest ==> ApplyAll(d, ops).manifest.None?
  {
    if |ops| > 0 {
      ManifestOps(d, ops[..|ops| - 1], m);
    }
  }

  /** Removing temp files and manifest operations change no layout. */
  lemma {:induction false} RestingOps(d: Dir, ops: seq<DirOp>, m: Manifest)
    requires forall k :: 0 <= k < |ops| ==> RestingOp(ops[k], m)
    ensures Layout(ApplyAll(d, ops)) == Layout(d) && ApplyAll(d, ops).manifest in {d.manifest, None, Some(m)}
    ensures d.manifest.None? && (forall k :: 0 <= k < |ops| ==> !ops[k].SetManifest?) ==> ApplyAll(d, ops).manifest.None?
  {
    if |ops| > 0 {
      RestingOps(d, ops[..|ops| - 1], m);
      var f := ApplyAll(d, ops[..|ops| - 1]);
      assert Layout(Apply(f, ops[|ops| - 1])) == Layout(f);
    }
  }

  lemma FirmStep(d: Dir, op: DirOp, p: Pass, m: Manifest)
    requires ValidPass(p) && Firm(d, p) && RestingOp(op, m)
    ensures Firm(Apply(d, op), p)
  {
    forall i | 0 <= i < |p.names|
      ensures !IsTemp(p.names[i])
    {
      assert p.names[i] in p.before;
    }
  }

  lemma {:induction false} FirmAll(d: Dir, ops: seq<DirOp>, p: Pass, m: Manifest)
    requires ValidPass(p) && Firm(d, p) && forall k :: 0 <= k < |ops| ==> RestingOp(ops[k], m)
    ensures Firm(ApplyAll(d, ops), p)
  {
    if |ops| > 0 {
      FirmAll(d, ops[..|ops| - 1], p, m);
      FirmStep(ApplyAll(d, ops[..|ops| - 1]), ops[|ops| - 1], p, m);
    }
  }

  lemma AfterFirm(d: Dir, p: Pass, missed: set<string>)
    requires ValidPass(p) && NewLayout(Layout(d), p, missed) && AllMoved(d, p) && missed <= Removals(p)
    ensures Firm(d, p)
  {
    AfterGuarded(d, p, missed);
  }

  lemma SameFirm(d: Dir, p: Pass)
    requires ValidPass(p) && Untouched(d, p) && SameOutputs(p)
    ensures Firm(d, p)
  {
    UntouchedGuarded(d, p);
    forall i | 0 <= i < |p.temps|
      ensures p.names[i] in d.files && d.files[p.names[i]] == p.news[i]
    {
      assert p.names[i] in Layout(d);
    }
  }

  /** A swap of one effect, interrupted anywhere, has happened or has not. */
  lemma OneEffect(d: Dir, p: Pass)
    requires ValidPass(p) && Guarded(d, p) && AltersAtMostOne(p)
    ensures OldOrNew(d, p, {})
  {
    forall n | n in p.before && !Alters(p, n)
      ensures n in d.files && d.files[n] == p.before[n]
    {
      Unaltered(d, p, n);
    }
    if n :| Alters(p, n) {
      assert forall x :: x in p.before && x != n ==> !Alters(p, x);
      OneEffectAt(d, p, n);
    } else {
      assert Layout(d) == p.before;
    }
  }

  lemma Unaltered(d: Dir, p: Pass, n: string)
    requires ValidPass(p) && Guarded(d, p) && n in p.before && !Alters(p, n)
    ensures n in d.files && d.files[n] == p.before[n] && n !in Removals(p)
  {
    if i :| 0 <= i < |p.temps| && n == p.names[i] {
      assert p.news[i] == p.before[n];
    }
  }

  lemma OneEffectAt(d: Dir, p: Pass, n: string)
    requires ValidPass(p) && Guarded(d, p) && Alters(p, n)
    requires forall x :: x in p.before && x != n ==> x in d.files && d.files[x] == p.before[x] && !Alters(p, x)
    ensures OldOrNew(d, p, {})
  {
    var l := Layout(d);
    assert n in p.before;
    if n in d.files && d.files[n] == p.before[n] {
      assert l == p.before;
    } else {
      OneEffectNew(d, p, n);
    }
  }

  lemma OneEffectNew(d: Dir, p: Pass, n: string)
    requires ValidPass(p) && Guarded(d, p) && Alters(p, n) && n in p.before
    requires forall x :: x in p.before && x != n ==> x in d.files && d.files[x] == p.before[x] && !Alters(p, x)
    requires !(n in d.files && d.files[n] == p.before[n])
    ensures NewLayout(Layout(d), p, {})
  {
    var l := Layout(d);
    forall x | x in Removals(p)
      ensures x == n && n !in d.files
    {
      assert Alters(p, x);
    }
    assert forall x :: x in l ==> x in p.before;
    assert n !in Removals(p) ==> n in d.files;
    assert l.Keys == p.before.Keys - (Removals(p) - {});
    forall i | 0 <= i < |p.temps|
      ensures p.names[i] in l && l[p.names[i]] == p.news[i]
    {
      assert p.names[i] !in Removals(p);
      if p.names[i] != n {
        assert !Alters(p, p.names[i]);
      }
    }
  }

  /** Everything moved, `missed` still there: that is the new layout up to `missed`. */
  lemma MovedLayout(d: Dir, p: Pass, missed: set<string>)
    requires ValidPass(p) && Guarded(d, p) && AllMoved(d, p) && missed <= Removals(p)
    requires forall n :: n in Removals(p) ==> (n in d.files <==> n in missed)
    ensures NewLayout(Layout(d), p, missed)
  {
    var l := Layout(d);
    assert l.Keys == p.before.Keys - (Removals(p) - missed);
    forall i | 0 <= i < |p.temps|
      ensures p.names[i] in l && l[p.names[i]] == p.news[i]
    {
      assert p.names[i] !in Removals(p);
    }
  }

  lemma AfterGuarded(d: Dir, p: Pass, missed: set<string>)
    requires ValidPass(p) && NewLayout(Layout(d), p, missed) && AllMoved(d, p) && missed <= Removals(p)
    ensures Guarded(d, p)
  {
    var l := Layout(d);
    forall n | n in d.files && !IsTemp(n)
      ensures n in p.before
    {
      assert n in l;
    }
    forall n | n in p.before && n !in Removals(p)
      ensures n in d.files
    {
      assert n in l;
    }
    forall i | 0 <= i < |p.temps|
      ensures d.files[p.names[i]] == p.news[i]
    {
      assert l[p.names[i]] == d.files[p.names[i]];
    }
    forall n | n in p.before && n in d.files && forall i :: 0 <= i < |p.temps| ==> n != p.names[i]
      ensures d.files[n] == p.before[n]
    {
      assert n in l && l[n] == d.files[n];
    }
  }

  // ----- every step keeps the invariant ------------------------------------------------------------------------

  /** After the first `k` renames exactly those temps are gone, and no old segment is. */
  lemma {:induction false} RenamesDone(d: Dir, ops: seq<DirOp>, p: Pass)
    requires ValidPass(p) && Untouched(d, p) && |ops| <= |p.temps|
    requires forall k :: 0 <= k < |ops| ==> ops[k] == Rename(p.temps[k], p.names[k])
    ensures forall i :: 0 <= i < |p.temps| ==> (p.temps[i] in ApplyAll(d, ops).files <==> i >= |ops|)
    ensures forall n :: n in Removals(p) ==> n in ApplyAll(d, ops).files
  {
    if |ops| == 0 {
      UntouchedGuarded(d, p);
      forall n | n in Removals(p)
        ensures n in d.files
      {
        assert n in Layout(d);
      }
    } else {
      var n := |ops| - 1;
      RenamesDone(d, ops[..n], p);
      assert forall i :: 0 <= i < |p.temps| ==> p.temps[i] != p.names[n];
    }
  }

  lemma RenamedAll(s: State, p: Pass, m: Manifest)
    requires ValidPass(p) && DuringSwap(s, p, m) && Untouched(s.durable, p) && |s.pending| == |p.temps|
    requires forall k :: 0 <= k < |p.temps| ==> s.pending[k] == Rename(p.temps[k], p.names[k])
    ensures Guarded(Visible(s), p) && Visible(s).manifest == Some(m)
    ensures AllMoved(Visible(s), p) && NewLayout(Layout(Visible(s)), p, Removals(p))
  {
    GuardedAll(s.durable, s.pending, p, m);
    RenamesDone(s.durable, s.pending, p);
    MovedLayout(Visible(s), p, Removals(p));
  }

  lemma PassSizes(p: Pass)
    requires ValidPass(p)
    ensures |p.temps| == |p.news| <= |p.names|
  {
  }

  lemma FinishRenaming(s: State, p: Pass, m: Manifest, s': State)
    requires ValidPass(p) && Inv(s, p, m) && s.phase == Renaming(|p.temps|) && s' == Synced(s, Removing(|p.temps|))
    ensures Inv(s', p, m)
  {
    hide Guarded, NewLayout, AllMoved, Untouched, Layout, SafeOp, ValidPass, ManifestOf;
    assert |p.temps| <= |p.names| by { PassSizes(p); }
    RenamedAll(s, p, m);
    var n := |p.temps|;
    assert ApplyAll(s'.durable, []) == s'.durable;
    assert (set k | n <= k < |p.names| :: p.names[k]) == Removals(p);
    assert s.missed + (set k | n <= k < |p.names| :: p.names[k]) == Removals(p);
    assert RemovedUpTo(s', p, n);
  }

  lemma RemoveLayout(d: Dir, p: Pass, left: set<string>, n: string)
    requires ValidPass(p) && NewLayout(Layout(d), p, left) && n in Removals(p) && left <= Removals(p)
    ensures NewLayout(Layout(Apply(d, Remove(n))), p, left - {n})
  {
    var l, l' := Layout(d), Layout(Apply(d, Remove(n)));
    assert !IsTemp(n);
    assert l' == l - {n};
    assert forall i :: 0 <= i < |p.temps| ==> p.names[i] != n;
  }

  ghost function Later(p: Pass, j: nat): set<string> {
    set k | j <= k < |p.names| :: p.names[k]
  }

  lemma LaterStep(p: Pass, j: nat)
    requires ValidPass(p) && |p.temps| <= j < |p.names|
    ensures Later(p, j) == Later(p, j + 1) + {p.names[j]} && p.names[j] !in Later(p, j + 1)
    ensures Later(p, j) <= Removals(p) && p.names[j] in Removals(p)
  {
  }

  lemma UnlinkLayout(s: State, p: Pass, j: nat)
    requires ValidPass(p) && RemovedUpTo(s, p, j) && j < |p.names|
    ensures RemovedUpTo(Do(s, Remove(p.names[j]), Removing(j + 1)), p, j + 1)
  {
    hide NewLayout, AllMoved, Layout, ValidPass, Apply;
    var s' := Do(s, Remove(p.names[j]), Removing(j + 1));
    LaterStep(p, j);
    assert s.missed + Later(p, j) <= Removals(p);
    RemoveLayout(Visible(s), p, s.missed + Later(p, j), p.names[j]);
    ApplySnoc(s.durable, s.pending, Remove(p.names[j]));
    NotYet(s.missed, p, j);
    assert s.missed + Later(p, j) - {p.names[j]} == s.missed + Later(p, j + 1);
  }

  lemma UnlinkMissed(s: State, p: Pass, j: nat)
    requires ValidPass(p) && RemovedUpTo(s, p, j) && j < |p.names|
    ensures RemovedUpTo(s.(phase := Removing(j + 1), missed := s.missed + {p.names[j]}), p, j + 1)
  {
    hide NewLayout, AllMoved, Layout, ValidPass, ApplyAll;
    LaterStep(p, j);
    assert (s.missed + {p.names[j]}) + Later(p, j + 1) == s.missed + Later(p, j);
  }

  lemma NotYet(missed: set<string>, p: Pass, j: nat)
    requires ValidPass(p) && |p.temps| <= j < |p.names| && missed <= (set k | |p.temps| <= k < j :: p.names[k])
    ensures p.names[j] !in missed
  {
  }

  lemma UnlinkKeeps(s: State, p: Pass, m: Manifest, j: nat, s': State)
    requires ValidPass(p) && Inv(s, p, m) && s.phase == Removing(j) && j < |p.names|
    requires s' == Do(s, Remove(p.names[j]), Removing(j + 1)) ||
             s' == s.(phase := Removing(j + 1), missed := s.missed + {p.names[j]})
    ensures Inv(s', p, m)
  {
    hide Guarded, RemovedUpTo, ValidPass, ManifestOf, Layout;
    PassSizes(p);
    UnlinkLayout(s, p, j);
    UnlinkMissed(s, p, j);
    assert j >= |p.temps| by { RemovedBounds(s, p, j); }
    assert p.names[j] in Removals(p);
    assert SafeOp(Remove(p.names[j]), p);
  }

  lemma RemovedBounds(s: State, p: Pass, j: nat)
    requires ValidPass(p) && RemovedUpTo(s, p, j)
    ensures |p.temps| <= j <= |p.names|
  {
  }

  lemma PersistKeeps(s: State, p: Pass, m: Manifest, s': State)
    requires ValidPass(p) && Inv(s, p, m) && s.phase == Removing(|p.names|) && s' == Synced(s, Clearing)
    ensures Inv(s', p, m)
  {
    GuardedAll(s.durable, s.pending, p, m);
    assert s.missed + Later(p, |p.names|) == s.missed;
  }

  lemma ManifestSyncKeeps(s: State, p: Pass, m: Manifest, s': State)
    requires ValidPass(p) && Inv(s, p, m)
    requires s.phase.ManifestWritten? && s' == Synced(s, Renaming(0))
    ensures Inv(s', p, m)
  {
    ManifestOps(s.durable, s.pending, m);
    LayoutUntouched(s.durable, Visible(s));
    assert s.pending[..0] == [];
    UntouchedGuarded(Visible(s), p);
  }

  lemma ClearSyncKeeps(s: State, p: Pass, m: Manifest, s': State)
    requires ValidPass(p) && Inv(s, p, m)
    requires (s.phase.Cleared? || s.phase.RecCleared? || s.phase.AbandonCleared?) && s' == Synced(s, Idle)
    ensures Inv(s', p, m)
  {
    hide ValidPass, Guarded, NewLayout, AllMoved, Layout, Firm, ManifestOf, Removals;
    ManifestOps(s.durable, s.pending, m);
    LayoutUntouched(s.durable, Visible(s));
    assert ApplyAll(s'.durable, []) == s'.durable;
  }

  lemma MoveKeeps(s: State, p: Pass, m: Manifest, i: nat, s': State)
    requires ValidPass(p) && Inv(s, p, m) && s.phase == Renaming(i) && i < |p.temps|
    requires s' == Do(s, Rename(p.temps[i], p.names[i]), Renaming(i + 1)) || s' == s.(phase := if i == 0 then Abandoning else Off)
    ensures Inv(s', p, m)
  {
    hide Guarded, Untouched, ValidPass, ManifestOf;
    StopsSwapping(s, p, m);
  }

  lemma AbandonKeeps(s: State, p: Pass, m: Manifest, s': State)
    requires ValidPass(p) && Inv(s, p, m) && s.phase.Abandoning? && s' == Do(s, ClearManifest, AbandonCleared)
    ensures Inv(s', p, m)
  {
    hide Guarded, Untouched, ValidPass, ManifestOf;
    assert s'.pending[..|s.pending|] == s.pending;
  }

  lemma DiscardKeeps(s: State, p: Pass, m: Manifest, n: string, s': State)
    requires ValidPass(p) && Inv(s, p, m) && s.phase.Idle? && IsTemp(n) && s' == Do(s, Remove(n), Idle)
    ensures Inv(s', p, m)
  {
    hide Guarded, NewLayout, ValidPass, ManifestOf, Layout, Firm;
    assert s'.pending[..|s.pending|] == s.pending;
    assert Visible(s') == Apply(Visible(s), Remove(n));
    assert MayReturn(s') ==> MayReturn(s);
  }

  lemma PassStepKeeps(s: State, e: Event, p: Pass, m: Manifest, s': State)
    requires ValidPass(p) && Inv(s, p, m) && PassStep(s, e, p, m, s')
    ensures Inv(s', p, m)
  {
    hide Guarded, Untouched, NewLayout, AllMoved, ApplyAll, RemovedUpTo;
    match s.phase
    case ManifestWritten =>
      if e.Fsync? {
        ManifestSyncKeeps(s, p, m, s');
      }
    case Renaming(i) =>
      if e.Fsync? {
        FinishRenaming(s, p, m, s');
      } else {
        MoveKeeps(s, p, m, i, s');
      }
    case Removing(j) =>
      if e.Unlink? {
        UnlinkKeeps(s, p, m, j, s');
      } else if e.UnlinkFail? {
        UnlinkKeeps(s, p, m, j, s');
      } else {
        PersistKeeps(s, p, m, s');
      }
    case Cleared => ClearSyncKeeps(s, p, m, s');
    case Abandoning => AbandonKeeps(s, p, m, s');
    case AbandonCleared => ClearSyncKeeps(s, p, m, s');
    case Idle => DiscardKeeps(s, p, m, e.name, s');
    case _ =>
  }

  lemma OpenedKeeps(s: State, p: Pass, m: Manifest, s': State)
    requires ValidPass(p) && Inv(s, p, m) && s.phase.Off?
    requires s' == s.(phase := if Visible(s).manifest.Some? then RecRenaming else Idle)
    ensures Inv(s', p, m)
  {
    hide ValidPass, Guarded, NewLayout, AllMoved, Layout, Firm, ManifestOf, Removals, ApplyAll, SafeOp;
  }

  lemma DoSafe(s: State, op: DirOp, phase: Phase, p: Pass, m: Manifest)
    requires ValidPass(p) && Rolling(s, p, m) && SafeOp(op, p)
    ensures Rolling(Do(s, op, phase), p, m)
    ensures AllMoved(Visible(s), p) ==> AllMoved(Visible(Do(s, op, phase)), p)
    ensures Visible(Do(s, op, phase)) == Apply(Visible(s), op)
  {
    hide ValidPass, Guarded, AllMoved, AltersAtMostOne;
    GuardedAll(s.durable, s.pending, p, m);
    GuardedStep(Visible(s), op, p);
    assert Do(s, op, phase).pending[..|s.pending|] == s.pending;
  }

  lemma DiscardedKeeps(s: State, p: Pass, m: Manifest, s': State)
    requires ValidPass(p) && Inv(s, p, m) && s.phase.RecDiscarding? && s' == Synced(s, RecClearing)
    ensures Inv(s', p, m)
  {
    hide ManifestOf, SafeOp, AltersAtMostOne, Guarded, AllMoved, ValidPass, NewLayout, Layout, ApplyAll, Removals;
    GuardedAll(s.durable, s.pending, p, m);
    MovedLayout(Visible(s), p, {});
  }

  lemma RecoveryStepKeeps(s: State, e: Event, p: Pass, m: Manifest, s': State)
    requires ValidPass(p) && Inv(s, p, m) && RecoveryStep(s, e, p, s')
    ensures Inv(s', p, m)
  {
    hide Guarded, NewLayout, Layout, Firm, ManifestOf, ApplyAll, AltersAtMostOne;
    match s.phase
    case Off => OpenedKeeps(s, p, m, s');
    case RecRenaming =>
      if e.Move? {
        DoSafe(s, Rename(p.temps[e.i], p.names[e.i]), RecRenaming, p, m);
      }
    case RecRemoving =>
      if e.Unlink? {
        DoSafe(s, Remove(e.name), RecRemoving, p, m);
      }
    case RecDiscarding =>
      if e.Discard? {
        DoSafe(s, Remove(e.name), RecDiscarding, p, m);
      } else {
        DiscardedKeeps(s, p, m, s');
      }
    case RecClearing =>
    case RecCleared => ClearSyncKeeps(s, p, m, s');
    case _ =>
  }

  // ----- crashes and stops -----------------------------------------------------------------------------------

  function Crashed(s: State, ops: seq<DirOp>): State {
    s.(durable := ApplyAll(s.durable, ops), pending := [], phase := Off)
  }

  lemma CrashWhenRolling(s: State, ops: seq<DirOp>, p: Pass, m: Manifest)
    requires ValidPass(p) && Rolling(s, p, m)
    requires forall k :: 0 <= k < |ops| ==> SafeOp(ops[k], p) || ops[k] == SetManifest(m)
    ensures Rolling(Crashed(s, ops), p, m) || Resting(Crashed(s, ops), p, m)
  {
    var d := ApplyAll(s.durable, ops);
    GuardedAll(s.durable, ops, p, m);
    assert ApplyAll(d, []) == d;
    hide ValidPass, Guarded, NewLayout, Layout, Firm, Visible, SafeOp, AltersAtMostOne;
    if d.manifest.None? {
      OneEffect(d, p);
    }
  }

  lemma CrashWhenResting(s: State, ops: seq<DirOp>, p: Pass, m: Manifest)
    requires ValidPass(p) && Resting(s, p, m) && forall op :: op in ops ==> op in s.pending
    ensures Rolling(Crashed(s, ops), p, m) || Resting(Crashed(s, ops), p, m)
  {
    hide ValidPass, Guarded, NewLayout, Layout, AltersAtMostOne, TempRemoval;
    var d := ApplyAll(s.durable, ops);
    assert forall k :: 0 <= k < |ops| ==> ops[k] in s.pending;
    RestingOps(s.durable, ops, m);
    assert ApplyAll(d, []) == d;
    if d.manifest.Some? {
      assert MayReturn(s);
      FirmAll(s.durable, ops, p, m);
    }
  }

  /** Stopping anywhere but at a risky moment. */
  lemma ExitKeeps(s: State, p: Pass, m: Manifest)
    requires ValidPass(p) && Inv(s, p, m) && !RiskyExit(s, p)
    ensures Inv(s.(phase := Off), p, m)
  {
    match s.phase
    case Prepared => StopsUntouched(s, p, m);
    case ManifestWritten => StopsUntouched(s, p, m);
    case Abandoning => StopsUntouched(s, p, m);
    case AbandonCleared => StopsAbandoned(s, p, m);
    case Renaming(_) => StopsSwapping(s, p, m);
    case Removing(_) => StopsSwapping(s, p, m);
    case Clearing => StopsSwapped(s, p, m);
    case RecClearing => StopsSwapped(s, p, m);
    case Cleared => StopsSwapped(s, p, m);
    case RecCleared => StopsSwapped(s, p, m);
    case _ =>
  }

  lemma StopsUntouched(s: State, p: Pass, m: Manifest)
    requires ValidPass(p) && Untouched(s.durable, p) && Abandons(s.durable.manifest, s.pending, m) && s.missed == {}
    requires s.pending != [] ==> AltersAtMostOne(p)
    ensures Rolling(s, p, m) || Resting(s, p, m)
  {
    UntouchedGuarded(s.durable, p);
    hide ValidPass, Guarded, NewLayout, Layout, AltersAtMostOne, Firm;
    assert s.pending != [] ==> s.pending[..0] == [];
  }

  lemma StopsAbandoned(s: State, p: Pass, m: Manifest)
    requires ValidPass(p) && Inv(s, p, m) && s.phase.AbandonCleared? && !RiskyExit(s, p)
    ensures Resting(s, p, m)
  {
    hide ValidPass, Guarded, NewLayout, Layout, AltersAtMostOne, Firm, SameOutputs, Inv, ApplyAll, TempRemoval, Untouched;
    AbandonedHow(s, p, m);
    if s.durable.manifest.Some? || |s.pending| > 1 {
      SameFirm(s.durable, p);
    }
    UntouchedOld(s.durable, p);
  }

  lemma UntouchedOld(d: Dir, p: Pass)
    requires ValidPass(p) && Untouched(d, p)
    ensures OldOrNew(d, p, {})
  {
  }

  lemma StopsSwapping(s: State, p: Pass, m: Manifest)
    requires ValidPass(p) && DuringSwap(s, p, m)
    ensures Rolling(s, p, m)
  {
    GuardedAll(s.durable, s.pending, p, m);
  }

  lemma StopsSwapped(s: State, p: Pass, m: Manifest)
    requires ValidPass(p) && AfterSwap(s, p) && s.durable.manifest == Some(m) && s.missed <= Removals(p)
    requires s.pending == [] || s.pending == [ClearManifest]
    ensures Rolling(s, p, m) || Resting(s, p, m)
  {
    AfterFirm(s.durable, p, s.missed);
    hide ValidPass, Guarded, NewLayout, Layout, AltersAtMostOne;
    assert s.pending != [] ==> s.pending[..0] == [];
  }

  /** A crash is possible at every moment, risky or not. */
  lemma CrashKeeps(s: State, keep: seq<bool>, p: Pass, m: Manifest)
    requires ValidPass(p) && Inv(s, p, m) && |keep| == |s.pending|
    ensures Inv(Crashed(s, Kept(s.pending, keep)), p, m)
  {
    hide Guarded, Untouched, NewLayout, AllMoved, ApplyAll, Kept, SafeOp, RestingOp, ValidPass, ManifestOf, Layout, Firm, RiskyExit;
    var ops := Kept(s.pending, keep);
    KeptIn(s.pending, keep);
    assert forall k :: 0 <= k < |ops| ==> ops[k] in s.pending;
    if Rolling(s, p, m) {
      CrashWhenRolling(s, ops, p, m);
    } else if Resting(s, p, m) {
      CrashWhenResting(s, ops, p, m);
    } else if s.phase.Renaming? || s.phase.Removing? {
      StopsSwapping(s, p, m);
    } else {
      CrashInManifestOps(s, ops, p, m);
    }
  }

  /** While only the manifest is unsynced, a crash leaves the files as they were. */
  lemma CrashInManifestOps(s: State, ops: seq<DirOp>, p: Pass, m: Manifest)
    requires ValidPass(p) && Inv(s, p, m) && forall op :: op in ops ==> op in s.pending
    requires !Rolling(s, p, m) && !Resting(s, p, m) && !s.phase.Renaming? && !s.phase.Removing?
    ensures Rolling(Crashed(s, ops), p, m) || Resting(Crashed(s, ops), p, m)
  {
    hide Guarded, NewLayout, AllMoved, ValidPass, ManifestOf, Layout;
    assert forall k :: 0 <= k < |ops| ==> ops[k] in s.pending;
    assert forall k :: 0 <= k < |ops| ==> ops[k] == SetManifest(m) || ops[k] == ClearManifest;
    var d := ApplyAll(s.durable, ops);
    ManifestOps(s.durable, ops, m);
    LayoutUntouched(s.durable, d);
    assert ApplyAll(d, []) == d;
    if s.phase.Clearing? || s.phase.Cleared? || s.phase.RecClearing? || s.phase.RecCleared? {
      SameFiles(s.durable, d, p);
      AfterFirm(d, p, s.missed);
    } else {
      SameFiles(s.durable, d, p);
      UntouchedGuarded(d, p);
    }
  }

  lemma SameFiles(d: Dir, d': Dir, p: Pass)
    requires ValidPass(p) && d'.files == d.files
    ensures Untouched(d, p) ==> Untouched(d', p)
    ensures AllMoved(d, p) ==> AllMoved(d', p)
  {
    LayoutUntouched(d, d');
  }

  lemma StepKeeps(s: State, e: Event, p: Pass, m: Manifest, s': State)
    requires ValidPass(p) && Inv(s, p, m) && Next(s, e, p, m, s') && (e.Exit? ==> !RiskyExit(s, p))
    ensures Inv(s', p, m)
  {
    hide Inv, PassStep, RecoveryStep, RiskyExit, ApplyAll, Kept, ValidPass;
    if e.Exit? {
      ExitKeeps(s, p, m);
    } else if e.Crash? {
      CrashKeeps(s, e.keep, p, m);
    } else if PassStep(s, e, p, m, s') {
      PassStepKeeps(s, e, p, m, s');
    } else {
      RecoveryStepKeeps(s, e, p, m, s');
    }
  }

  /** A stretch of a run in which no process stops at a risky moment. */
  ghost predicate IsPath(ss: seq<State>, es: seq<Event>, p: Pass, m: Manifest)
    requires ValidPass(p)
  {
    && |ss| == |es| + 1
    && (forall i :: 0 <= i < |es| ==> Next(ss[i], es[i], p, m, ss[i + 1]) && (es[i].Exit? ==> !RiskyExit(ss[i], p)))
  }

  ghost predicate IsRun(ss: seq<State>, es: seq<Event>, p: Pass, m: Manifest)
    requires ValidPass(p)
  {
    IsPath(ss, es, p, m) && Init(ss[0], p, m)
  }

  lemma {:induction false} PathKeeps(ss: seq<State>, es: seq<Event>, p: Pass, m: Manifest, i: nat)
    requires ValidPass(p) && IsPath(ss, es, p, m) && Inv(ss[0], p, m) && i < |ss|
    ensures Inv(ss[i], p, m)
  {
    hide Inv, Next, ValidPass, RiskyExit;
    if i > 0 {
      PathKeeps(ss, es, p, m, i - 1);
      StepKeeps(ss[i - 1], es[i - 1], p, m, ss[i]);
    }
  }

  lemma RunKeeps(ss: seq<State>, es: seq<Event>, p: Pass, m: Manifest, i: nat)
    requires ValidPass(p) && IsRun(ss, es, p, m) && i < |ss|
    ensures Inv(ss[i], p, m)
  {
    InitInv(ss[0], p, m);
    PathKeeps(ss, es, p, m, i);
  }

  lemma InitInv(s: State, p: Pass, m: Manifest)
    requires ValidPass(p) && Init(s, p, m)
    ensures Inv(s, p, m)
  {
  }

  // ----- the theorems ---------------------------------------------------------------------------------------------

  /**
   What a crash may leave: no manifest names a source that is gone while its destination still holds
   old bytes, and without a manifest the layout is exactly the old one or the new one up to failed removals.
   */
  ghost predicate Recoverable(d: Dir, p: Pass, m: Manifest, missed: set<string>)
    requires ValidPass(p)
  {
    && (d.manifest.Some? ==> d.manifest == Some(m) && forall k :: 0 <= k < |p.temps| ==>
          p.names[k] in d.files && (p.temps[k] in d.files || d.files[p.names[k]] == p.news[k]))
    && (d.manifest.None? ==> OldOrNew(d, p, missed))
  }

  /** At any point of a pass, of its interruptions and of any number of interrupted recoveries. */
  lemma CrashLeavesGuarded(ss: seq<State>, es: seq<Event>, p: Pass, m: Manifest, i: nat, keep: seq<bool>)
    requires ValidPass(p) && IsRun(ss, es, p, m) && i < |ss| && |keep| == |ss[i].pending|
    ensures Recoverable(ApplyAll(ss[i].durable, Kept(ss[i].pending, keep)), p, m, ss[i].missed)
  {
    hide ValidPass, IsRun, Inv, ApplyAll, Kept, Recoverable;
    RunKeeps(ss, es, p, m, i);
    CrashRecovers(ss[i], p, m, keep);
  }

  lemma CrashRecovers(s: State, p: Pass, m: Manifest, keep: seq<bool>)
    requires ValidPass(p) && Inv(s, p, m) && |keep| == |s.pending|
    ensures Recoverable(ApplyAll(s.durable, Kept(s.pending, keep)), p, m, s.missed)
  {
    hide ApplyAll, Kept, NewLayout, Layout, ValidPass, Guarded, Recoverable, Firm, ManifestOf, AltersAtMostOne, Removals;
    CrashKeeps(s, keep, p, m);
    var s' := Crashed(s, Kept(s.pending, keep));
    NothingPending(s'.durable);
    if Rolling(s', p, m) {
      GuardedRecovers(s'.durable, p, m, s.missed);
    } else {
      OldOrNewRecovers(s'.durable, p, m, s.missed);
    }
  }

  lemma GuardedRecovers(d: Dir, p: Pass, m: Manifest, missed: set<string>)
    requires ValidPass(p) && Guarded(d, p) && d.manifest == Some(m)
    ensures Recoverable(d, p, m, missed)
  {
    forall k | 0 <= k < |p.temps|
      ensures p.names[k] in d.files
    {
      NameFacts(p, k);
    }
  }

  lemma OldOrNewRecovers(d: Dir, p: Pass, m: Manifest, missed: set<string>)
    requires ValidPass(p) && OldOrNew(d, p, missed) && d.manifest.None?
    ensures Recoverable(d, p, m, missed)
  {
  }

  lemma NothingPending(d: Dir)
    ensures ApplyAll(d, []) == d
  {
  }

  /** A collection that is open for use shows exactly the old layout, or the new one up to failed removals. */
  lemma OpenLayout(ss: seq<State>, es: seq<Event>, p: Pass, m: Manifest, i: nat)
    requires ValidPass(p) && IsRun(ss, es, p, m) && i < |ss| && ss[i].phase.Idle?
    ensures Visible(ss[i]).manifest.None? && OldOrNew(Visible(ss[i]), p, ss[i].missed)
  {
    hide ValidPass, IsRun, NewLayout, Layout, Firm;
    RunKeeps(ss, es, p, m, i);
    RestingOps(ss[i].durable, ss[i].pending, m);
  }

  // ----- stopping at a risky moment ------------------------------------------------------------------------------

  /** Whatever happens from here on, a crash leaves something to recover from. */
  ghost predicate StaysRecoverable(s: State, p: Pass, m: Manifest)
    requires ValidPass(p)
  {
    forall ss: seq<State>, es: seq<Event>, keep: seq<bool> ::
      IsPath(ss, es, p, m) && ss[0] == s && |keep| == |ss[|es|].pending| ==>
        Recoverable(ApplyAll(ss[|es|].durable, Kept(ss[|es|].pending, keep)), p, m, ss[|es|].missed)
  }

  lemma Breaks(s: State, p: Pass, m: Manifest, ss: seq<State>, es: seq<Event>, keep: seq<bool>)
    requires ValidPass(p) && IsPath(ss, es, p, m) && ss[0] == s && |keep| == |ss[|es|].pending|
    requires !Recoverable(ApplyAll(ss[|es|].durable, Kept(ss[|es|].pending, keep)), p, m, ss[|es|].missed)
    ensures !StaysRecoverable(s, p, m)
  {
    hide IsPath, Recoverable, ApplyAll, Kept, ValidPass;
  }

  /** Stopping is safe exactly at the moments that are not risky. */
  lemma ExitSafeExactlyWhen(ss: seq<State>, es: seq<Event>, p: Pass, m: Manifest)
    requires ValidPass(p) && IsRun(ss, es, p, m)
    ensures
      var s := ss[|es|];
      StaysRecoverable(s.(phase := Off), p, m) <==> !RiskyExit(s, p)
  {
    hide ValidPass, RiskyExit, Inv, Recoverable, ApplyAll, Kept, Next;
    var s := ss[|es|];
    var off := s.(phase := Off);
    RunKeeps(ss, es, p, m, |es|);
    if !RiskyExit(s, p) {
      ExitKeeps(s, p, m);
      forall ts: seq<State>, fs: seq<Event>, keep: seq<bool> | IsPath(ts, fs, p, m) && ts[0] == off && |keep| == |ts[|fs|].pending|
        ensures Recoverable(ApplyAll(ts[|fs|].durable, Kept(ts[|fs|].pending, keep)), p, m, ts[|fs|].missed)
      {
        PathKeeps(ts, fs, p, m, |fs|);
        CrashRecovers(ts[|fs|], p, m, keep);
      }
    } else {
      RiskyExitBreaks(s, p, m);
    }
  }

  lemma RiskyExitBreaks(s: State, p: Pass, m: Manifest)
    requires ValidPass(p) && Inv(s, p, m) && RiskyExit(s, p)
    ensures !StaysRecoverable(s.(phase := Off), p, m)
  {
    hide StaysRecoverable, Removals;
    if s.phase.AbandonCleared? {
      var i :| 0 <= i < |p.temps| && p.news[i] != p.before[p.names[i]];
      LosesSource(s, p, m, i);
    } else {
      var a, b :| Alters(p, a) && Alters(p, b) && a != b;
      LosesManifest(s, p, m, a, b);
    }
  }

  /** A crash keeps only the last operation. */
  lemma {:induction false} KeptLast(ops: seq<DirOp>, op: DirOp, keep: seq<bool>)
    requires |keep| == |ops| && forall k :: 0 <= k < |keep| ==> !keep[k]
    ensures Kept(ops, keep) == [] && Kept(ops + [op], keep + [true]) == [op]
  {
    if |ops| > 0 {
      KeptLast(ops[..|ops| - 1], op, keep[..|ops| - 1]);
    }
    assert (ops + [op])[..|ops|] == ops && (keep + [true])[..|ops|] == keep;
  }

  /**
   The manifest's removal is unsynced: the next open discards the temp files; a crash that keeps those removals
   but not the manifest's leaves a manifest whose source is gone over old bytes.
   */
  lemma LosesSource(s: State, p: Pass, m: Manifest, i: nat)
    requires ValidPass(p) && Inv(s, p, m) && s.phase.AbandonCleared? && (s.durable.manifest.Some? || |s.pending| > 1)
    requires i < |p.temps| && p.news[i] != p.before[p.names[i]]
    ensures !StaysRecoverable(s.(phase := Off), p, m)
  {
    hide Recoverable, Untouched, StaysRecoverable, ApplyAll, Kept, Inv, IsPath;
    var off := s.(phase := Off);
    AbandonedHow(s, p, m);
    var ss, es := OpensAndDiscards(off, p, m, i);
    var keep := KeptThen(s, m, Remove(p.temps[i]));
    SourceGone(s.durable, p, m, i);
    hide ValidPass;
    Breaks(off, p, m, ss, es, keep);
  }

  /** The next open discards a temp file. */
  lemma OpensAndDiscards(off: State, p: Pass, m: Manifest, i: nat) returns (ss: seq<State>, es: seq<Event>)
    requires ValidPass(p) && off.phase.Off? && i < |p.temps| && Visible(off).manifest.None?
    ensures IsPath(ss, es, p, m) && |ss| == |es| + 1 && ss[0] == off
    ensures ss[|es|] == Do(off, Remove(p.temps[i]), Idle)
  {
    var open := off.(phase := Idle);
    var gone := Do(open, Remove(p.temps[i]), Idle);
    assert IsTemp(p.temps[i]);
    hide ValidPass, IsTemp, ApplyAll;
    assert Next(off, Open, p, m, open) && Next(open, Discard(p.temps[i]), p, m, gone);
    hide Next;
    ss, es := [off, open, gone], [Open, Discard(p.temps[i])];
  }

  lemma AbandonedHow(s: State, p: Pass, m: Manifest)
    requires ValidPass(p) && Inv(s, p, m) && s.phase.AbandonCleared?
    ensures Visible(s).manifest.None? && Untouched(s.durable, p) && s.missed == {}
    ensures s.pending == [ClearManifest] || (s.pending == [SetManifest(m), ClearManifest] && s.durable.manifest.None?)
    ensures s.pending == [ClearManifest] ==> s.durable.manifest.None? || s.durable.manifest == Some(m)
  {
    hide ValidPass, Layout, Removals, Untouched, ManifestOf, ApplyAll;
    var front := s.pending[..|s.pending| - 1];
    assert s.pending == front + [ClearManifest];
    assert Abandons(s.durable.manifest, front, m);
    ManifestOps(s.durable, s.pending, m);
  }

  lemma OneOp(d: Dir, op: DirOp)
    ensures ApplyAll(d, [op]) == Apply(d, op)
  {
    assert [op][..0] == [];
  }

  lemma KeptSnoc(ops: seq<DirOp>, keep: seq<bool>, op: DirOp, b: bool)
    requires |keep| == |ops|
    ensures Kept(ops + [op], keep + [b]) == if b then Kept(ops, keep) + [op] else Kept(ops, keep)
  {
    assert (ops + [op])[..|ops|] == ops && (keep + [b])[..|ops|] == keep;
  }

  lemma ApplySnoc(d: Dir, ops: seq<DirOp>, op: DirOp)
    ensures ApplyAll(d, ops + [op]) == Apply(ApplyAll(d, ops), op)
  {
    hide Apply;
    assert (ops + [op])[..|ops|] == ops;
  }

  /** What of a manifest and the removal of a file is left when the manifest's own removal is lost. */
  lemma KeptThen(s: State, m: Manifest, op: DirOp) returns (keep: seq<bool>)
    requires s.pending == [ClearManifest] || s.pending == [SetManifest(m), ClearManifest]
    requires s.pending == [ClearManifest] ==> s.durable.manifest == Some(m)
    ensures |keep| == |s.pending| + 1
    ensures ApplyAll(s.durable, Kept(s.pending + [op], keep)) == Apply(s.durable.(manifest := Some(m)), op)
  {
    hide Kept, ApplyAll;
    KeptLast([], SetManifest(m), []);
    if s.pending == [ClearManifest] {
      keep := [false] + [true];
      KeptLast([ClearManifest], op, [false]);
    } else {
      assert s.pending == [SetManifest(m)] + [ClearManifest] && [] + [SetManifest(m)] == [SetManifest(m)];
      assert [] + [true] == [true];
      KeptSnoc([SetManifest(m)], [true], ClearManifest, false);
      keep := [true] + [false] + [true];
      KeptSnoc(s.pending, [true] + [false], op, true);
      ApplySnoc(s.durable, [SetManifest(m)], op);
      OneOp(s.durable, SetManifest(m));
    }
    OneOp(s.durable, op);
  }

  lemma SourceGone(d: Dir, p: Pass, m: Manifest, i: nat)
    requires ValidPass(p) && Untouched(d, p) && i < |p.temps| && p.news[i] != p.before[p.names[i]]
    ensures !Recoverable(Apply(d.(manifest := Some(m)), Remove(p.temps[i])), p, m, {})
  {
    assert p.names[i] in Layout(d);
    assert p.names[i] != p.temps[i];
  }

  /** The manifest is unsynced: the next open acts on it; a crash that keeps one effect but not the manifest leaves the swap half done. */
  lemma LosesManifest(s: State, p: Pass, m: Manifest, a: string, b: string)
    requires ValidPass(p) && Inv(s, p, m) && (s.phase.ManifestWritten? || s.phase.Abandoning?) && s.pending != []
    requires Alters(p, a) && Alters(p, b) && a != b
    ensures !StaysRecoverable(s.(phase := Off), p, m)
  {
    hide StaysRecoverable;
    if i :| 0 <= i < |p.temps| && p.names[i] == a && p.news[i] != p.before[a] {
      HalfMoved(s, p, m, i, b);
    } else if i :| 0 <= i < |p.temps| && p.names[i] == b && p.news[i] != p.before[b] {
      HalfMoved(s, p, m, i, a);
    } else {
      HalfRemoved(s, p, m, a, b);
    }
  }

  lemma HalfMoved(s: State, p: Pass, m: Manifest, i: nat, b: string)
    requires ValidPass(p) && Inv(s, p, m) && (s.phase.ManifestWritten? || s.phase.Abandoning?) && s.pending != []
    requires i < |p.temps| && p.news[i] != p.before[p.names[i]] && Alters(p, b) && b != p.names[i]
    ensures !StaysRecoverable(s.(phase := Off), p, m)
  {
    hide Recoverable, Untouched, StaysRecoverable, ApplyAll, Kept, ManifestOf, Removals, Alters, IsPath;
    var off, op := s.(phase := Off), Rename(p.temps[i], p.names[i]);
    OneOp(s.durable, SetManifest(m));
    var ss, es := OpensAndMoves(off, p, m, i);
    KeptLast(s.pending, op, [false]);
    OneOp(s.durable, op);
    MovedAlone(s.durable, p, m, i, b);
    hide ValidPass, Inv;
    Breaks(off, p, m, ss, es, [false] + [true]);
  }

  /** The next open moves one output. */
  lemma OpensAndMoves(off: State, p: Pass, m: Manifest, i: nat) returns (ss: seq<State>, es: seq<Event>)
    requires ValidPass(p) && off.phase.Off? && Untouched(off.durable, p) && i < |p.temps|
    requires Visible(off) == off.durable.(manifest := Some(m))
    ensures IsPath(ss, es, p, m) && |ss| == |es| + 1 && ss[0] == off
    ensures ss[|es|] == Do(off, Rename(p.temps[i], p.names[i]), RecRenaming)
  {
    var open := off.(phase := RecRenaming);
    var moved := Do(open, Rename(p.temps[i], p.names[i]), RecRenaming);
    assert p.temps[i] in Visible(open).files;
    hide ValidPass, Untouched, ApplyAll;
    assert Next(off, Open, p, m, open) && Next(open, Move(i), p, m, moved);
    hide Next;
    ss, es := [off, open, moved], [Open, Move(i)];
  }

  lemma MovedAlone(d: Dir, p: Pass, m: Manifest, i: nat, b: string)
    requires ValidPass(p) && Untouched(d, p) && d.manifest.None?
    requires i < |p.temps| && p.news[i] != p.before[p.names[i]] && Alters(p, b) && b != p.names[i]
    ensures !Recoverable(Apply(d, Rename(p.temps[i], p.names[i])), p, m, {})
  {
    var d' := Apply(d, Rename(p.temps[i], p.names[i]));
    var l, l' := Layout(d), Layout(d');
    assert !IsTemp(p.names[i]) && !IsTemp(b);
    assert l'[p.names[i]] == p.news[i];
    assert b in l;
    assert b in l' && l'[b] == p.before[b];
  }

  lemma HalfRemoved(s: State, p: Pass, m: Manifest, a: string, b: string)
    requires ValidPass(p) && Inv(s, p, m) && (s.phase.ManifestWritten? || s.phase.Abandoning?) && s.pending != []
    requires a in Removals(p) && b in Removals(p) && a != b
    ensures !StaysRecoverable(s.(phase := Off), p, m)
  {
    hide ValidPass, IsPath, Recoverable, Untouched, StaysRecoverable, ApplyAll, Kept, ManifestOf, Removals;
    var off, op := s.(phase := Off), Remove(a);
    OneOp(s.durable, SetManifest(m));
    var ss, es, before := RollsToRemoval(off, p, m, a);
    var keep := seq(|before|, _ => false);
    KeptLast(before, op, keep);
    OneOp(s.durable, op);
    RemovedAlone(s.durable, p, m, a, b);
    Breaks(off, p, m, ss, es, keep + [true]);
  }

  /** The next open moves every output and removes one old segment. */
  lemma RollsToRemoval(off: State, p: Pass, m: Manifest, a: string) returns (ss: seq<State>, es: seq<Event>, before: seq<DirOp>)
    requires ValidPass(p) && off.phase.Off? && off.pending == [SetManifest(m)] && Untouched(off.durable, p) && a in Removals(p)
    requires Visible(off) == off.durable.(manifest := Some(m))
    ensures IsPath(ss, es, p, m) && |ss| == |es| + 1 && ss[0] == off
    ensures
      var last := ss[|es|];
      last.durable == off.durable && last.missed == off.missed && last.pending == before + [Remove(a)]
  {
    ss, es := RollsAll(off, p, m, |p.temps|);
    var rolled := ss[|es|];
    var removing := rolled.(phase := RecRemoving);
    var gone := Do(removing, Remove(a), RecRemoving);
    AllRenamed(off.durable, p, m);
    hide ValidPass, Untouched, ApplyAll, Removals;
    assert Next(rolled, Advance, p, m, removing) && Next(removing, Unlink(a), p, m, gone);
    PathPush(ss, es, p, m, Advance, removing);
    PathPush(ss + [removing], es + [Advance], p, m, Unlink(a), gone);
    ss, es, before := ss + [removing] + [gone], es + [Advance] + [Unlink(a)], rolled.pending;
  }

  lemma PathPush(ss: seq<State>, es: seq<Event>, p: Pass, m: Manifest, e: Event, s': State)
    requires ValidPass(p) && IsPath(ss, es, p, m) && Next(ss[|es|], e, p, m, s') && !e.Exit?
    ensures IsPath(ss + [s'], es + [e], p, m)
  {
    hide ValidPass, Next, RiskyExit;
  }

  function Renames(p: Pass, n: nat): seq<DirOp>
    requires n <= |p.temps| <= |p.names|
  {
    seq(n, i requires 0 <= i < n => Rename(p.temps[i], p.names[i]))
  }

  /** The next open moves the first `n` outputs. */
  lemma {:induction false} RollsAll(off: State, p: Pass, m: Manifest, n: nat) returns (ss: seq<State>, es: seq<Event>)
    requires ValidPass(p) && off.phase.Off? && off.pending == [SetManifest(m)] && Untouched(off.durable, p) && n <= |p.temps|
    requires Visible(off) == off.durable.(manifest := Some(m))
    ensures IsPath(ss, es, p, m) && ss[0] == off
    ensures ss[|es|] == off.(phase := RecRenaming, pending := [SetManifest(m)] + Renames(p, n))
  {
    if n == 0 {
      var open := off.(phase := RecRenaming);
      ss, es := [off, open], [Open];
      assert [SetManifest(m)] + Renames(p, 0) == off.pending;
      assert Next(off, Open, p, m, open);
    } else {
      ss, es := RollsAll(off, p, m, n - 1);
      var last, op := ss[|es|], Rename(p.temps[n - 1], p.names[n - 1]);
      var next := Do(last, op, RecRenaming);
      assert Renames(p, n) == Renames(p, n - 1) + [op];
      assert [SetManifest(m)] + Renames(p, n) == last.pending + [op];
      StillThere(off.durable, p, m, n - 1);
      assert Next(last, Move(n - 1), p, m, next);
      PathPush(ss, es, p, m, Move(n - 1), next);
      ss, es := ss + [next], es + [Move(n - 1)];
    }
  }

  lemma {:induction false} ManifestFirst(d: Dir, m: Manifest, ops: seq<DirOp>)
    ensures ApplyAll(d, [SetManifest(m)] + ops) == ApplyAll(d.(manifest := Some(m)), ops)
  {
    var all := [SetManifest(m)] + ops;
    if |ops| > 0 {
      assert all[..|all| - 1] == [SetManifest(m)] + ops[..|ops| - 1];
      ManifestFirst(d, m, ops[..|ops| - 1]);
    } else {
      assert all[..0] == [];
    }
  }

  lemma StillThere(d: Dir, p: Pass, m: Manifest, n: nat)
    requires ValidPass(p) && Untouched(d, p) && n <= |p.temps|
    ensures forall i :: 0 <= i < |p.temps| ==> (p.temps[i] in ApplyAll(d, [SetManifest(m)] + Renames(p, n)).files <==> i >= n)
  {
    ManifestFirst(d, m, Renames(p, n));
    LayoutUntouched(d, d.(manifest := Some(m)));
    RenamesDone(d.(manifest := Some(m)), Renames(p, n), p);
  }

  lemma AllRenamed(d: Dir, p: Pass, m: Manifest)
    requires ValidPass(p) && Untouched(d, p)
    ensures AllMoved(ApplyAll(d, [SetManifest(m)] + Renames(p, |p.temps|)), p)
  {
    StillThere(d, p, m, |p.temps|);
  }

  lemma RemovedAlone(d: Dir, p: Pass, m: Manifest, a: string, b: string)
    requires ValidPass(p) && Untouched(d, p) && d.manifest.None? && a in Removals(p) && b in Removals(p) && a != b
    ensures !Recoverable(Apply(d, Remove(a)), p, m, {})
  {
    var l, l' := Layout(d), Layout(Apply(d, Remove(a)));
    assert !IsTemp(a) && !IsTemp(b) && a in l && b in l;
    assert a !in l' && b in l';
  }

  /** The pass ignores a failed unlink: the layout is exactly the new one if and only if none failed. */
  lemma ExactlyNewWhen(l: map<string, Content>, p: Pass, missed: set<string>)
    requires ValidPass(p) && NewLayout(l, p, missed) && missed <= Removals(p)
    ensures NewLayout(l, p, {}) <==> missed == {}
  {
    if n :| n in missed {
      assert n in p.before && n in l;
    }
  }

  // ----- a failed removal -----------------------------------------------------------------------------------------

  const INSERTED := Line(Entry(1, Insert, 1, map[], 0, 0), None)
  const DELETED := Line(Entry(1, Delete, 0, map[], 0, 0), None)

  lemma CompactedAway(dec: Decisions, now: int)
    ensures IsCompaction([], [INSERTED, DELETED], dec, now)
    ensures 1 !in Rebuilt([INSERTED, DELETED], dec) && 1 in Rebuilt([INSERTED], dec)
  {
    var log := [INSERTED, DELETED];
    assert log[..1] == [INSERTED] && [INSERTED][..0] == [];
    var s := ScanAll(log, dec);
    assert ScanAll([INSERTED], dec) == ScanStep(Scan(map[], [], {}), INSERTED, dec);
    assert s == Scan(map[1 := DELETED.entry], [], {});
    assert IsLive([], s, now);
    assert s.evidence + Plain([], s.latest) == [];
    assert Fold(map[], [INSERTED], dec) == ApplyLine(Fold(map[], [], dec), INSERTED, dec);
  }

  /** A failed unlink can bring a deleted record back: everything was compacted away, one old segment stayed. */
  lemma MissedRemovalResurrects(p: Pass, dec: Decisions, now: int)
    requires p == Pass(map["a" := [INSERTED], "b" := [DELETED]], ["a", "b"], [], [])
    ensures ValidPass(p) && NewLayout(map["a" := [INSERTED]], p, {"a"})
    ensures IsCompaction([], [INSERTED, DELETED], dec, now)
    ensures 1 !in Rebuilt([INSERTED, DELETED], dec) && 1 in Rebuilt([INSERTED], dec)
  {
    CompactedAway(dec, now);
    hide IsCompaction, Fold;
    assert p.names[0] == "a" && p.names[1] == "b";
    assert p.names[0] in Removals(p) && p.names[1] in Removals(p);
    assert Removals(p) == {"a", "b"};
    assert |"a"| < |TEMP_PREFIX| && |"b"| < |TEMP_PREFIX|;
  }

  // ----- before the first directory sync ----------------------------------------------------------------------------

  /** The directory when the pass began: the old layout, none of its temp files, no manifest. */
  ghost predicate Begins(d: Dir, p: Pass)
    requires ValidPass(p)
  {
    Layout(d) == p.before && d.manifest.None? && forall i :: 0 <= i < |p.temps| ==> p.temps[i] !in d.files
  }

  /** The temp files are written and synced themselves; their directory entries are not. */
  function Creates(p: Pass, n: nat): (ops: seq<DirOp>)
    requires n <= |p.temps| && |p.temps| == |p.news|
    ensures |ops| == n
  {
    seq(n, i requires 0 <= i < n => Create(p.temps[i], p.news[i]))
  }

  /** What a crash that keeps some of the creations leaves. */
  ghost predicate Created(d: Dir, d': Dir, p: Pass, n: nat, keep: seq<bool>)
    requires ValidPass(p) && n <= |p.temps| && n <= |keep|
  {
    && Layout(d') == Layout(d) && d'.manifest == d.manifest
    && (forall i :: 0 <= i < |p.temps| ==>
          if i < n && keep[i] then p.temps[i] in d'.files && d'.files[p.temps[i]] == p.news[i]
          else p.temps[i] !in d'.files)
  }

  lemma CreateOne(d: Dir, p: Pass, d': Dir, n: nat, keep: seq<bool>)
    requires ValidPass(p) && n < |p.temps| && n < |keep| && Created(d, d', p, n, keep)
    ensures Created(d, if keep[n] then Apply(d', Create(p.temps[n], p.news[n])) else d', p, n + 1, keep)
  {
    hide IsTemp;
    var d1 := Apply(d', Create(p.temps[n], p.news[n]));
    assert IsTemp(p.temps[n]);
    assert Layout(d1) == Layout(d');
    assert forall i :: 0 <= i < |p.temps| && i != n ==> p.temps[i] != p.temps[n];
  }

  lemma {:induction false} KeptCreates(d: Dir, p: Pass, n: nat, keep: seq<bool>)
    requires ValidPass(p) && Begins(d, p) && n <= |p.temps| && n <= |keep|
    ensures Created(d, ApplyAll(d, Kept(Creates(p, n), keep[..n])), p, n, keep)
  {
    if n > 0 {
      KeptCreates(d, p, n - 1, keep);
      var op := Create(p.temps[n - 1], p.news[n - 1]);
      var before := Kept(Creates(p, n - 1), keep[..n - 1]);
      assert Creates(p, n) == Creates(p, n - 1) + [op] && keep[..n] == keep[..n - 1] + [keep[n - 1]];
      hide Created, ValidPass, Begins, Apply, Kept, ApplyAll, Creates;
      PassSizes(p);
      KeptSnoc(Creates(p, n - 1), keep[..n - 1], op, keep[n - 1]);
      ApplySnoc(d, before, op);
      CreateOne(d, p, ApplyAll(d, before), n - 1, keep);
    }
  }

  /** Every output that differs from the segment it replaces has its directory entry kept. */
  ghost predicate ChangedKept(p: Pass, keep: seq<bool>)
    requires ValidPass(p) && |p.temps| <= |keep|
  {
    forall i :: 0 <= i < |p.temps| ==> keep[i] || p.news[i] == p.before[p.names[i]]
  }

  lemma CreatedRecoverable(d: Dir, d': Dir, p: Pass, m: Manifest, keep: seq<bool>)
    requires ValidPass(p) && Begins(d, p) && |p.temps| <= |keep| && Created(d, d', p, |p.temps|, keep)
    ensures Recoverable(d', p, m, {})
    ensures Recoverable(d'.(manifest := Some(m)), p, m, {}) <==> ChangedKept(p, keep)
  {
    var d1 := d'.(manifest := Some(m));
    LayoutUntouched(d', d1);
    hide IsTemp;
    forall i | 0 <= i < |p.temps|
      ensures p.names[i] in d'.files && d'.files[p.names[i]] == p.before[p.names[i]]
    {
      NameFacts(p, i);
      assert p.names[i] in Layout(d');
    }
    if ChangedKept(p, keep) {
      assert Recoverable(d1, p, m, {});
    } else {
      var i :| 0 <= i < |p.temps| && !keep[i] && p.news[i] != p.before[p.names[i]];
      assert p.temps[i] !in d1.files && d1.files[p.names[i]] != p.news[i];
    }
  }

  /**
   Before the manifest's own directory sync nothing orders the manifest behind the files it names: a crash there leaves
   something to recover from exactly if it loses the manifest, or keeps every changed output with it.
   */
  lemma UnsyncedTempsExactlyWhen(d: Dir, p: Pass, m: Manifest, keep: seq<bool>)
    requires ValidPass(p) && Begins(d, p) && |keep| == |p.temps| + 1
    ensures
      var ops := Creates(p, |p.temps|) + [SetManifest(m)];
      Recoverable(ApplyAll(d, Kept(ops, keep)), p, m, {}) <==> !keep[|p.temps|] || ChangedKept(p, keep)
  {
    hide ValidPass, Begins, Kept, ApplyAll, Creates, Recoverable, Created, ChangedKept;
    PassSizes(p);
    var n := |p.temps|;
    var creates := Creates(p, n);
    var before := Kept(creates, keep[..n]);
    KeptCreates(d, p, n, keep);
    assert keep == keep[..n] + [keep[n]];
    KeptSnoc(creates, keep[..n], SetManifest(m), keep[n]);
    ApplySnoc(d, before, SetManifest(m));
    CreatedRecoverable(d, ApplyAll(d, before), p, m, keep);
  }

  /** The failing crash: only the manifest survives, and the next open takes a rename whose source is missing as done. */
  lemma ManifestWithoutTemps(d: Dir, p: Pass, m: Manifest, i: nat)
    requires ValidPass(p) && Begins(d, p) && i < |p.temps| && p.news[i] != p.before[p.names[i]]
    ensures
      var ops := Creates(p, |p.temps|) + [SetManifest(m)];
      var keep := seq(|p.temps|, _ => false) + [true];
      !Recoverable(ApplyAll(d, Kept(ops, keep)), p, m, {})
  {
    hide ApplyAll, Kept, Creates, Recoverable, Begins;
    var keep := seq(|p.temps|, _ => false) + [true];
    UnsyncedTempsExactlyWhen(d, p, m, keep);
    assert !keep[i];
  }

  lemma AllCreated(d: Dir, p: Pass)
    requires ValidPass(p) && Begins(d, p)
    ensures Untouched(ApplyAll(d, Creates(p, |p.temps|)), p) && ApplyAll(d, Creates(p, |p.temps|)).manifest.None?
  {
    var n := |p.temps|;
    var keep := seq(n, _ => true);
    hide ApplyAll, Kept, Creates, IsTemp, Layout;
    KeptCreates(d, p, n, keep);
    KeptAll(Creates(p, n), keep);
    assert keep[..n] == keep;
  }

  lemma UntouchedWith(d: Dir, p: Pass, m: Option<Manifest>)
    requires ValidPass(p) && Untouched(d, p)
    ensures Untouched(d.(manifest := m), p)
  {
    LayoutUntouched(d, d.(manifest := m));
  }

  /** Once the directory is synced the temp files are as durable as the manifest: the pass goes on as `Init` has it. */
  lemma SyncedStart(d: Dir, p: Pass, m: Manifest)
    requires ValidPass(p) && Begins(d, p) && ManifestOf(m, p)
    ensures
      var synced := ApplyAll(d, Creates(p, |p.temps|) + [SetManifest(m)]);
      var s := State(synced.(manifest := None), [], Prepared, {});
      && Untouched(synced, p) && synced.manifest == Some(m)
      && Init(s, p, m) && Next(s, WriteManifest, p, m, Do(s, SetManifest(m), ManifestWritten))
      && Next(Do(s, SetManifest(m), ManifestWritten), Fsync, p, m, State(synced, [], Renaming(0), {}))
  {
    hide ValidPass, Begins, ApplyAll, Creates, Untouched, ManifestOf;
    PassSizes(p);
    var made := ApplyAll(d, Creates(p, |p.temps|));
    AllCreated(d, p);
    ApplySnoc(d, Creates(p, |p.temps|), SetManifest(m));
    var synced := made.(manifest := Some(m));
    UntouchedWith(made, p, Some(m));
    assert synced.(manifest := None) == made;
    var s := State(made, [], Prepared, {});
    assert s.pending + [SetManifest(m)] == [SetManifest(m)];
    OneOp(made, SetManifest(m));
    assert Visible(Do(s, SetManifest(m), ManifestWritten)) == synced;
  }

  lemma {:induction false} KeptAll(ops: seq<DirOp>, keep: seq<bool>)
    requires |keep| == |ops| && forall k :: 0 <= k < |keep| ==> keep[k]
    ensures Kept(ops, keep) == ops
  {
    if |ops| > 0 {
      KeptAll(ops[..|ops| - 1], keep[..|ops| - 1]);
      assert ops == ops[..|ops| - 1] + [ops[|ops| - 1]];
    }
  }

  // ----- rolling a manifest forward ------------------------------------------------------------------------------------

  ghost predicate WellFormed(m: Manifest) {
    && (forall x :: x in m.renames ==> IsTemp(x) && !IsTemp(m.renames[x]) && m.renames[x] !in m.removals)
    && (forall x, y :: x in m.renames && y in m.renames && m.renames[x] == m.renames[y] ==> x == y)
    && (forall n :: n in m.removals ==> !IsTemp(n))
  }

  /** `n` receives the content of a temp file that is still there. */
  ghost predicate Receives(files: map<string, Content>, m: Manifest, n: string) {
    exists x :: x in m.renames && x in files && m.renames[x] == n
  }

  /** Outstanding renames applied, listed removals gone, temps discarded, everything else as it was. */
  ghost predicate RolledForward(files: map<string, Content>, m: Manifest, l: map<string, Content>) {
    && (forall x :: x in m.renames && x in files ==> m.renames[x] in l && l[m.renames[x]] == files[x])
    && (forall n :: !Receives(files, m, n) ==>
          && (n in l <==> n in files && !IsTemp(n) && n !in m.removals)
          && (n in l ==> l[n] == files[n]))
  }

  ghost predicate Moved(files: map<string, Content>, m: Manifest, after: map<string, Content>) {
    && (forall x :: x in m.renames && x in files ==> m.renames[x] in after && after[m.renames[x]] == files[x])
    && (forall n :: !IsTemp(n) && !Receives(files, m, n) ==>
          (n in after <==> n in files) && (n in after ==> after[n] == files[n]))
  }

  /** The renames outside `todo` are done. */
  ghost predicate MovedExcept(files: map<string, Content>, m: Manifest, after: map<string, Content>, todo: set<string>) {
    && (forall x :: x in m.renames && x in files && x !in todo ==> m.renames[x] in after && after[m.renames[x]] == files[x])
    && (forall x :: x in todo ==> (x in after <==> x in files) && (x in after ==> after[x] == files[x]))
    && (forall n :: !IsTemp(n) && !Receives(files, m, n) ==>
          (n in after <==> n in files) && (n in after ==> after[n] == files[n]))
  }

  lemma MoveNone(files: map<string, Content>, m: Manifest)
    ensures MovedExcept(files, m, files, m.renames.Keys)
  {
  }

  lemma MoveEvery(files: map<string, Content>, m: Manifest, after: map<string, Content>)
    requires MovedExcept(files, m, after, {})
    ensures Moved(files, m, after)
  {
  }

  lemma MoveOne(files: map<string, Content>, m: Manifest, after: map<string, Content>, todo: set<string>, src: string)
    requires WellFormed(m) && todo <= m.renames.Keys && src in todo && MovedExcept(files, m, after, todo)
    ensures MovedExcept(files, m, if src in after then (after - {src})[m.renames[src] := after[src]] else after, todo - {src})
  {
    hide IsTemp;
    if src in after {
      assert Receives(files, m, m.renames[src]);
    }
  }

  lemma RollSteps(files: map<string, Content>, after: map<string, Content>, m: Manifest)
    requires WellFormed(m) && Moved(files, m, after)
    ensures RolledForward(files, m, Layout(Dir(after - m.removals, None)))
  {
    hide IsTemp;
    var l := Layout(Dir(after - m.removals, None));
    forall x | x in m.renames && x in files
      ensures m.renames[x] in l && l[m.renames[x]] == files[x]
    {
      assert Receives(files, m, m.renames[x]);
    }
  }

  class Directory {
    var files: map<string, Content>
    var manifest: Option<Manifest>

    method DiscardTemps()
      modifies this`files
      ensures files == Layout(Dir(old(files), None))
    {
      var stray := set n | n in files && IsTemp(n);
      while stray != {}
        invariant stray <= files.Keys
        invariant forall n :: n in files && IsTemp(n) ==> n in stray
        invariant forall n :: n in stray ==> IsTemp(n)
        invariant forall n :: n in old(files) && !IsTemp(n) ==> n in files
        invariant forall n :: n in files ==> n in old(files) && files[n] == old(files)[n]
        decreases |stray|
      {
        var n :| n in stray;
        files := files - {n};
        stray := stray - {n};
      }
    }

    method MoveAll(m: Manifest)
      requires WellFormed(m)
      modifies this`files
      ensures Moved(old(files), m, files)
    {
      hide MovedExcept, WellFormed;
      var todo := m.renames.Keys;
      MoveNone(files, m);
      while todo != {}
        invariant todo <= m.renames.Keys
        invariant MovedExcept(old(files), m, files, todo)
        decreases |todo|
      {
        var src :| src in todo;
        MoveOne(old(files), m, files, todo, src);
        if src in files {
          files := (files - {src})[m.renames[src] := files[src]];
        }
        todo := todo - {src};
      }
      MoveEvery(old(files), m, files);
    }

    method Recover() returns (found: bool)
      requires manifest.Some? ==> WellFormed(manifest.value)
      modifies this
      ensures manifest.None? && found == old(manifest.Some?)
      ensures !found ==> files == Layout(Dir(old(files), None))
      ensures found ==> RolledForward(old(files), old(manifest).value, files)
    {
      hide IsTemp;
      if manifest.None? {
        DiscardTemps();
        return false;
      }
      var m := manifest.value;
      MoveAll(m);
      RollSteps(old(files), files, m);
      files := files - m.removals;
      DiscardTemps();
      manifest := None;
      return true;
    }
  }

  lemma Renamed(p: Pass, m: Manifest, x: string) returns (i: nat)
    requires ValidPass(p) && ManifestOf(m, p) && x in m.renames
    ensures i < |p.temps| && x == p.temps[i] && m.renames[x] == p.names[i]
  {
    i :| 0 <= i < |p.temps| && x == p.temps[i];
  }

  lemma ManifestWellFormed(p: Pass, m: Manifest)
    requires ValidPass(p) && ManifestOf(m, p)
    ensures WellFormed(m)
  {
    hide IsTemp;
    forall x | x in m.renames
      ensures IsTemp(x) && !IsTemp(m.renames[x]) && m.renames[x] !in m.removals
    {
      var i := Renamed(p, m, x);
    }
    forall x, y | x in m.renames && y in m.renames && m.renames[x] == m.renames[y]
      ensures x == y
    {
      var i := Renamed(p, m, x);
      var j := Renamed(p, m, y);
    }
  }

  lemma RolledName(d: Dir, p: Pass, m: Manifest, l: map<string, Content>, i: nat)
    requires ValidPass(p) && ManifestOf(m, p) && Guarded(d, p) && RolledForward(d.files, m, l) && i < |p.temps|
    ensures p.names[i] in l && l[p.names[i]] == p.news[i] && p.names[i] !in Removals(p)
  {
    hide IsTemp;
    if p.temps[i] !in d.files {
      forall x | x in m.renames && x in d.files
        ensures m.renames[x] != p.names[i]
      {
        var j := Renamed(p, m, x);
        assert j != i;
      }
      assert !Receives(d.files, m, p.names[i]);
    }
  }

  lemma RolledOther(d: Dir, p: Pass, m: Manifest, l: map<string, Content>, n: string)
    requires ValidPass(p) && ManifestOf(m, p) && Guarded(d, p) && RolledForward(d.files, m, l)
    requires forall i :: 0 <= i < |p.temps| ==> n != p.names[i]
    ensures n in l <==> n in p.before && n !in Removals(p)
    ensures n in l ==> l[n] == p.before[n]
  {
    hide IsTemp;
    forall x | x in m.renames && x in d.files
      ensures m.renames[x] != n
    {
      var j := Renamed(p, m, x);
    }
    assert !Receives(d.files, m, n);
  }

  /** Rolling forward anything a crash can leave under a manifest yields exactly the new layout. */
  lemma RollForwardIsNew(d: Dir, p: Pass, m: Manifest, l: map<string, Content>)
    requires ValidPass(p) && ManifestOf(m, p) && Guarded(d, p) && RolledForward(d.files, m, l)
    ensures WellFormed(m) && NewLayout(l, p, {})
  {
    ManifestWellFormed(p, m);
    hide IsTemp, RolledForward, Guarded, ManifestOf, WellFormed;
    forall i | 0 <= i < |p.temps|
      ensures p.names[i] in l && l[p.names[i]] == p.news[i] && p.names[i] !in Removals(p)
    {
      RolledName(d, p, m, l, i);
    }
    forall n
      ensures n in l <==> n in p.before && n !in Removals(p)
      ensures n in l && (forall i :: 0 <= i < |p.temps| ==> n != p.names[i]) ==> l[n] == p.before[n]
    {
      if forall i :: 0 <= i < |p.temps| ==> n != p.names[i] {
        RolledOther(d, p, m, l, n);
      }
    }
    assert l.Keys == p.before.Keys - (Removals(p) - {});
  }
}
