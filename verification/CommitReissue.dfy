/** Which transaction ids a reopened database hands out again: those above everything that left a trace. */
module CommitReissue {
  import opened Values
  import opened Log
  import opened Compaction
  import opened Commit
  import opened CommitInvariant
  import opened CommitSafety

  // ----- paths without a crash ---------------------------------------------------------------------------

  ghost predicate Calm(es: seq<Event>) {
    forall i :: 0 <= i < |es| ==> !es[i].Crash?
  }

  /** A stretch without a crash. */
  ghost predicate Path(ss: seq<State>, es: seq<Event>) {
    Reaches(ss, es) && Calm(es)
  }

  lemma PathJoin(ss: seq<State>, es: seq<Event>, ts: seq<State>, fs: seq<Event>)
    requires Path(ss, es) && Path(ts, fs) && ts[0] == ss[|es|]
    ensures Path(ss + ts[1..], es + fs) && (ss + ts[1..])[0] == ss[0] && (ss + ts[1..])[|es| + |fs|] == ts[|fs|]
  {
    hide Next;
    var us, gs := ss + ts[1..], es + fs;
    forall i | 0 <= i < |gs|
      ensures Next(us[i], gs[i], us[i + 1])
    {
      if i < |es| {
        assert Next(ss[i], es[i], ss[i + 1]);
      } else {
        assert Next(ts[i - |es|], fs[i - |es|], ts[i - |es| + 1]);
      }
    }
  }

  lemma ReachCons(s: State, e: Event, ss: seq<State>, es: seq<Event>)
    requires Reaches(ss, es) && Next(s, e, ss[0])
    ensures Reaches([s] + ss, [e] + es)
  {
    hide Next;
    var us, gs := [s] + ss, [e] + es;
    forall i | 0 <= i < |gs|
      ensures Next(us[i], gs[i], us[i + 1])
    {
      if i > 0 {
        assert Next(ss[i - 1], es[i - 1], ss[i]);
      }
    }
  }

  lemma PathCons(s: State, e: Event, ss: seq<State>, es: seq<Event>) returns (ss': seq<State>, es': seq<Event>)
    requires Path(ss, es) && |ss| == |es| + 1 && Next(s, e, ss[0]) && !e.Crash?
    ensures Path(ss', es') && |ss'| == |es'| + 1 && ss'[0] == s && ss'[|es'|] == ss[|es|]
  {
    hide Next;
    ReachCons(s, e, ss, es);
    ss', es' := [s] + ss, [e] + es;
  }

  lemma PathStep(s: State, e: Event, s': State)
    requires Next(s, e, s') && !e.Crash?
    ensures Path([s, s'], [e])
  {
    hide Next;
  }

  // ----- the counter only rises ----------------------------------------------------------------------------

  /** The next number a running or recovering process would issue is at least `n`. */
  ghost predicate Above(s: State, n: nat) {
    match s.mode
    case Up(_, _, next) => next >= n
    case Down => false
    case Recovering(_, _, next, _) => next >= n
    case Refused => true
  }

  lemma CounterRises(s: State, e: Event, s': State, n: nat)
    requires Next(s, e, s') && !e.Crash? && Above(s, n)
    ensures Above(s', n) && s'.epoch == s.epoch
  {
    hide DecisionsOf, Locked, IsCompaction, DistinctNames, Stamped, PartsOf, EvidenceOk, ActiveTail, FirstOf, JournalFree,
         JournalAppend, Run, Traced;
  }

  lemma {:induction false} PathRises(ss: seq<State>, es: seq<Event>, i: nat, n: nat)
    requires Path(ss, es) && i < |ss| && Above(ss[0], n)
    ensures Above(ss[i], n) && ss[i].epoch == ss[0].epoch
  {
    hide Next, Above;
    if i > 0 {
      PathRises(ss, es, i - 1, n);
      assert Next(ss[i - 1], es[i - 1], ss[i]) && !es[i - 1].Crash?;
      CounterRises(ss[i - 1], es[i - 1], ss[i], n);
    }
  }

  // ----- using up ids --------------------------------------------------------------------------------------

  /** Nothing is in flight and one collection can be written. */
  ghost predicate Ready(s: State, c: string) {
    s.mode.Up? && s.mode.attempts == map[] && !s.journal.poisoned && c in s.cols && !s.cols[c].poisoned
  }

  const DUMMY := Entry(1, Insert, 1, map[], 0, 0)

  ghost function Begun(s: State, c: string): State
    requires s.mode.Up?
  {
    var t := TxId(s.epoch, s.mode.nextSeq);
    var a := Attempt("", [c], map[c := [DUMMY]], Appending(0, 0), map[c := 0], map[]);
    s.(mode := Up(s.mode.attempts[t := a], s.mode.installed, s.mode.nextSeq + 1),
       hist := History(s.hist.plan[t := Plan("", map[c := [DUMMY]], s.hist.calls)], s.hist.acked, s.hist.failed, s.hist.calls + 1))
  }

  lemma CanBegin(s: State, c: string)
    requires Ready(s, c)
    ensures Next(s, Begin(TxId(s.epoch, s.mode.nextSeq), "", [c], map[c := [DUMMY]]), Begun(s, c))
  {
    var runs: Runs := map[c := [DUMMY]];
    assert DistinctNames([c], runs);
    assert (map x | x in runs :: 0) == map[c := 0];
    assert !Locked(s, c);
  }

  /** The attempt fails at its first append. */
  ghost function Refused(s: State, c: string): State
    requires Ready(s, c)
  {
    var t, b := TxId(s.epoch, s.mode.nextSeq), Begun(s, c);
    var a := b.mode.attempts[t].(phase := RollingBack(0), start := map[c := |s.cols[c].active.cur|]);
    WithAttempt(b, t, a)
  }

  lemma CanFail(s: State, c: string)
    requires Ready(s, c)
    ensures Next(Begun(s, c), AppendFail(TxId(s.epoch, s.mode.nextSeq), false), Refused(s, c))
  {
    var b, col := Begun(s, c), s.cols[c];
    assert col.(poisoned := col.poisoned || false) == col;
    assert s.cols[c := col] == s.cols;
    assert map[][c := |col.active.cur|] == map[c := |col.active.cur|];
  }

  ghost function RolledBack(s: State, c: string): State
    requires Ready(s, c)
  {
    var t, b := TxId(s.epoch, s.mode.nextSeq), Refused(s, c);
    var col := s.cols[c];
    WithAttempt(WithCol(b, c, col.(active := Cut(col.active, |col.active.cur|))), t,
                b.mode.attempts[t].(phase := Aborting))
  }

  lemma CanRollBack(s: State, c: string)
    requires Ready(s, c)
    ensures Next(Refused(s, c), Rollback(TxId(s.epoch, s.mode.nextSeq), true), RolledBack(s, c))
  {
    assert map[c := 0][c := 0] == map[c := 0];
  }

  ghost function Spent(s: State, c: string): State
    requires Ready(s, c)
  {
    var b := RolledBack(s, c);
    b.(mode := Up(map[], s.mode.installed, s.mode.nextSeq + 1), hist := b.hist.(failed := b.hist.failed + {s.hist.calls}))
  }

  lemma CanGiveUp(s: State, c: string)
    requires Ready(s, c)
    ensures Next(RolledBack(s, c), GiveUp(TxId(s.epoch, s.mode.nextSeq), NotWritten(false)), Spent(s, c))
    ensures Ready(Spent(s, c), c) && Spent(s, c).mode.nextSeq == s.mode.nextSeq + 1 && Spent(s, c).epoch == s.epoch
  {
    var b, t := RolledBack(s, c), TxId(s.epoch, s.mode.nextSeq);
    assert b.mode.attempts.Keys == {t};
    assert b.mode.attempts - {t} == map[];
    assert b.journal == b.journal.(poisoned := b.journal.poisoned || false);
  }

  /** A call that fails uses up one id. */
  lemma SpendOne(s: State, c: string) returns (ss: seq<State>, es: seq<Event>)
    requires Ready(s, c)
    ensures Path(ss, es) && |ss| == |es| + 1 && ss[0] == s
    ensures Ready(ss[|es|], c) && ss[|es|].mode.nextSeq == s.mode.nextSeq + 1 && ss[|es|].epoch == s.epoch
  {
    hide Next, Begun, Refused, RolledBack, Spent, Path;
    var t := TxId(s.epoch, s.mode.nextSeq);
    CanBegin(s, c);
    CanFail(s, c);
    CanRollBack(s, c);
    CanGiveUp(s, c);
    PathStep(RolledBack(s, c), GiveUp(t, NotWritten(false)), Spent(s, c));
    ss, es := [RolledBack(s, c), Spent(s, c)], [GiveUp(t, NotWritten(false))];
    ss, es := PathCons(Refused(s, c), Rollback(t, true), ss, es);
    ss, es := PathCons(Begun(s, c), AppendFail(t, false), ss, es);
    ss, es := PathCons(s, Begin(t, "", [c], map[c := [DUMMY]]), ss, es);
  }

  lemma {:induction false} SpendUpTo(s: State, c: string, n: nat) returns (ss: seq<State>, es: seq<Event>)
    requires Ready(s, c) && s.mode.nextSeq <= n
    ensures Path(ss, es) && |ss| == |es| + 1 && ss[0] == s
    ensures Ready(ss[|es|], c) && ss[|es|].mode.nextSeq == n && ss[|es|].epoch == s.epoch
    decreases n - s.mode.nextSeq
  {
    if s.mode.nextSeq == n {
      ss, es := [s], [];
    } else {
      hide Next;
      ss, es := SpendOne(s, c);
      var ts, fs := SpendUpTo(ss[|es|], c, n);
      PathJoin(ss, es, ts, fs);
      ss, es := ss + ts[1..], es + fs;
    }
  }

  // ----- reissue -----------------------------------------------------------------------------------------------

  /** The life that follows issues `t`. */
  ghost predicate Issues(s: State, ss: seq<State>, es: seq<Event>, t: TxId) {
    && Path(ss, es) && |es| > 0 && es[0].Open? && ss[0] == s
    && exists key, names, runs, s' :: Next(ss[|es|], Begin(t, key, names, runs), s')
  }

  ghost predicate CanIssue(s: State, t: TxId) {
    exists ss, es :: Issues(s, ss, es, t)
  }

  lemma OpenAbove(s: State, e: Event, s': State, u: TxId)
    requires Next(s, e, s') && e.Open? && Traced(s, u)
    ensures Above(s', u.seqNo + 1) && s'.epoch == s.epoch && Above(s', 1)
  {
    hide Traced;
  }

  lemma OpenStarts(s: State, e: Event, s': State)
    requires Next(s, e, s') && e.Open?
    ensures Above(s', 1) && s'.epoch == s.epoch
  {
    hide Traced;
  }

  lemma BeginNumber(s: State, t: TxId, key: string, names: seq<string>, runs: Runs, s': State, n: nat)
    requires Next(s, Begin(t, key, names, runs), s') && Above(s, n)
    ensures t.epoch == s.epoch && t.seqNo >= n
  {
    hide DistinctNames, Locked;
  }

  lemma IssuedAbove(s: State, ss: seq<State>, es: seq<Event>, t: TxId, n: nat)
    requires Issues(s, ss, es, t) && Above(ss[1], n) && ss[1].epoch == s.epoch
    ensures t.epoch == s.epoch && t.seqNo >= n
  {
    hide Next, Above;
    assert Path(ss[1..], es[1..]) by {
      forall i | 0 <= i < |es| - 1
        ensures Next(ss[1..][i], es[1..][i], ss[1..][i + 1])
      {
        assert Next(ss[i + 1], es[i + 1], ss[i + 2]);
      }
    }
    PathRises(ss[1..], es[1..], |es| - 1, n);
    var key, names, runs, s' :| Next(ss[|es|], Begin(t, key, names, runs), s');
    BeginNumber(ss[|es|], t, key, names, runs, s', n);
  }

  /** Every collection can be written, as after any crash. */
  ghost predicate Writable(s: State) {
    forall c :: c in s.cols ==> !s.cols[c].poisoned
  }

  /** Only a crash stops the process, and it leaves every collection writable. */
  lemma StoppedByCrash(s: State, e: Event, s': State)
    requires Next(s, e, s') && s'.mode.Down?
    ensures e.Crash? && Writable(s')
  {
    hide DecisionsOf, Locked, IsCompaction, DistinctNames, Stamped, PartsOf, EvidenceOk, ActiveTail, FirstOf, JournalFree,
         JournalAppend, Run, Traced;
  }

  lemma OpenNext(s: State, e: Event, s': State, t: TxId)
    requires Next(s, e, s') && e.Open? && t.seqNo > 0 && forall u :: Traced(s, u) ==> u.seqNo < t.seqNo
    ensures s'.mode.Recovering? && s'.mode.next <= t.seqNo && s'.epoch == s.epoch && s'.journal == s.journal
  {
    hide Traced;
  }

  /** If nothing on disk reaches its number, a txid can be issued, whether or not it was before. */
  lemma FreeIsIssued(s: State, t: TxId, c: string)
    requires Inv(s) && s.mode.Down? && Writable(s) && c in s.cols
    requires t.epoch == s.epoch && t.seqNo > 0 && forall u :: Traced(s, u) ==> u.seqNo < t.seqNo
    ensures CanIssue(s, t)
  {
    hide Inv, Next, Traced, Recorded;
    DownUnpoisoned(s);
    var e, s1 := OpenEnabled(s);
    OpenNext(s, e, s1, t);
    StepKeepsInv(s, e, s1);
    var ss1, es1 := RecoveryFinishes(s1);
    var up := ss1[|es1|];
    PathStep(s, e, s1);
    PathJoin([s, s1], [e], ss1, es1);
    var ss, es := [s, s1] + ss1[1..], [e] + es1;
    var ts, fs := SpendUpTo(up, c, t.seqNo);
    PathJoin(ss, es, ts, fs);
    CanBegin(ts[|fs|], c);
    assert Issues(s, ss + ts[1..], es + fs, t);
  }

  /**
   After any crash of any run a txid can be issued, again or for the first time, exactly if it is of the journal's epoch
   and above every txid that left a trace in the journal or in a segment.
   */
  lemma ReissuedExactlyWhen(ss: seq<State>, es: seq<Event>, i: nat, t: TxId)
    requires IsRun(ss, es) && i < |ss| && ss[i].mode.Down? && ss[i].cols != map[]
    ensures
      var s := ss[i];
      CanIssue(s, t) <==> t.epoch == s.epoch && t.seqNo > 0 && forall u :: Traced(s, u) ==> u.seqNo < t.seqNo
  {
    RunInv(ss, es, i);
    assert i > 0 && Next(ss[i - 1], es[i - 1], ss[i]);
    hide Next, Inv, Init, CanIssue, Traced;
    StoppedByCrash(ss[i - 1], es[i - 1], ss[i]);
    IssuedExactlyWhen(ss[i], t);
  }

  lemma IssuedExactlyWhen(s: State, t: TxId)
    requires Inv(s) && s.mode.Down? && Writable(s) && s.cols != map[]
    ensures CanIssue(s, t) <==> t.epoch == s.epoch && t.seqNo > 0 && forall u :: Traced(s, u) ==> u.seqNo < t.seqNo
  {
    hide Inv, Next, Traced, Above, Path;
    if CanIssue(s, t) {
      var ss, es :| Issues(s, ss, es, t);
      FirstStep(ss, es);
      OpenStarts(s, es[0], ss[1]);
      IssuedAbove(s, ss, es, t, 1);
      forall u | Traced(s, u)
        ensures u.seqNo < t.seqNo
      {
        OpenAbove(s, es[0], ss[1], u);
        IssuedAbove(s, ss, es, t, u.seqNo + 1);
      }
    } else if t.epoch == s.epoch && t.seqNo > 0 && forall u :: Traced(s, u) ==> u.seqNo < t.seqNo {
      var c :| c in s.cols;
      FreeIsIssued(s, t, c);
    }
  }

  lemma FirstStep(ss: seq<State>, es: seq<Event>)
    requires Path(ss, es) && |es| > 0
    ensures |ss| == |es| + 1 && Next(ss[0], es[0], ss[1])
  {
    hide Next;
  }

  lemma CrashedAtStart(s: State, s1: State, left: map<string, seq<Line>>, s2: State)
    requires Init(s) && s1.cols == s.cols && s1.journal == s.journal && s2 == s1.(mode := Down)
    requires left == map x | x in s.cols :: s.cols[x].active.cur
    ensures Next(s1, Crash(left, []), s2)
  {
    assert s.cols == map c | c in s.cols :: Col(s.cols[c].sealed, File(left[c], {left[c]}), false);
  }

  lemma NothingTraced(s: State, s2: State)
    requires Init(s) && s2.cols == s.cols && s2.journal == s.journal
    ensures forall u :: !Traced(s2, u)
  {
  }

  lemma NonePlanned(plan: map<TxId, Plan>, pending: set<TxId>)
    ensures
      var left := map t | t in plan && t in pending :: plan[t];
      pending == {} ==> left == map[]
  {
  }

  /** An empty disk is opened with the counter at one. */
  lemma OpensEmpty(s: State, s2: State) returns (s3: State)
    requires Init(s) && s2.cols == s.cols && s2.journal == s.journal && s2.mode.Down?
    ensures Next(s2, Open(1, {}), s3) && s3.cols == s.cols && s3.journal == s.journal && s3.epoch == s2.epoch
    ensures s3.mode.Recovering? && s3.mode.pending == {} && s3.mode.next == 1 && s3.hist.calls == s2.hist.calls
  {
    NothingTraced(s, s2);
    NonePlanned(s2.hist.plan, {});
    hide Traced;
    s3 := s2.(mode := Recovering({}, s2.journal.file.cur, 1, map x | x in s2.cols :: s2.cols[x].sealed + s2.cols[x].active.cur),
              hist := s2.hist.(plan := map[]));
  }

  /** A crash that keeps nothing, and the reopening. */
  lemma RestartsEmpty(s: State, s1: State) returns (ss: seq<State>, es: seq<Event>)
    requires Init(s) && s1.cols == s.cols && s1.journal == s.journal
    ensures Reaches(ss, es) && |ss| == 4 && |es| == 3 && ss[0] == s1 && es[0].Crash? && es[1].Open? && es[2] == RecDone
    ensures
      var up := ss[3];
      && up.mode.Up? && up.mode.attempts == map[] && up.mode.nextSeq == 1 && up.epoch == s1.epoch && up.hist.calls == s1.hist.calls
      && up.cols == s.cols && up.journal == s.journal
  {
    hide Next, Init;
    var left := map x | x in s.cols :: s.cols[x].active.cur;
    var s2 := s1.(mode := Down);
    CrashedAtStart(s, s1, left, s2);
    var s3 := OpensEmpty(s, s2);
    ss, es := DoneStep(s3);
    assert |ss| == 2;
    hide Reaches;
    ReachCons(s2, Open(1, {}), ss, es);
    ss, es := [s2] + ss, [Open(1, {})] + es;
    ReachCons(s1, Crash(left, []), ss, es);
    ss, es := [s1] + ss, [Crash(left, [])] + es;
  }

  lemma StartIsReady(s: State, c: string)
    requires Init(s) && c in s.cols
    ensures Ready(s, c) && s.mode.nextSeq == 1 && s.hist.calls == 0
  {
  }

  lemma BegunKeeps(s: State, c: string)
    requires Ready(s, c)
    ensures
      var b, t := Begun(s, c), TxId(s.epoch, s.mode.nextSeq);
      && b.cols == s.cols && b.journal == s.journal && b.epoch == s.epoch && b.hist.calls == s.hist.calls + 1
      && t in b.hist.plan && b.hist.plan[t].call == s.hist.calls
  {
  }

  /** The failing run: a first transaction is begun, nothing of it reaches the disk, and after the crash another one gets its id. */
  lemma UntracedIdComesBack(s: State, c: string) returns (ss: seq<State>, es: seq<Event>)
    requires Init(s) && c in s.cols
    ensures IsRun(ss, es) && |ss| == 6 && |es| == 5 && ss[0] == s
    ensures
      var t := TxId(s.epoch, 1);
      && es[0].Begin? && es[0].t == t && es[1].Crash? && es[2].Open? && es[3] == RecDone && es[4].Begin? && es[4].t == t
      && t in ss[1].hist.plan && t in ss[5].hist.plan && ss[1].hist.plan[t].call != ss[5].hist.plan[t].call
  {
    hide Next, Init, Begun;
    StartIsReady(s, c);
    CanBegin(s, c);
    BegunKeeps(s, c);
    var begin := Begin(TxId(s.epoch, 1), "", [c], map[c := [DUMMY]]);
    var ts, fs := RestartsEmpty(s, Begun(s, c));
    CanBegin(ts[3], c);
    BegunKeeps(ts[3], c);
    ReachSnoc(ts, fs, begin, Begun(ts[3], c));
    ReachCons(s, begin, ts + [Begun(ts[3], c)], fs + [begin]);
    ss, es := [s] + (ts + [Begun(ts[3], c)]), [begin] + (fs + [begin]);
  }

  lemma ReachSnoc(ss: seq<State>, es: seq<Event>, e: Event, s': State)
    requires Reaches(ss, es) && Next(ss[|es|], e, s')
    ensures Reaches(ss + [s'], es + [e])
  {
    hide Next;
    var us, gs := ss + [s'], es + [e];
    forall i | 0 <= i < |gs|
      ensures Next(us[i], gs[i], us[i + 1])
    {
      if i < |es| {
        assert Next(ss[i], es[i], ss[i + 1]);
      }
    }
  }
}
