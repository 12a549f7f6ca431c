/** What the commit protocol guarantees over every run, with crashes anywhere. */
module CommitSafety {
  import opened Values
  import opened Log
  import opened Compaction
  import opened Commit
  import opened CommitFiles
  import opened CommitInvariant
  import opened CommitRecovery

  // ----- the invariant holds throughout ---------------------------------------------------------

  lemma AttemptEventKeeps(s: State, e: Event, s': State)
    requires Inv(s) && Next(s, e, s')
    requires e.Begin? || e.AppendOk? || e.AppendFail? || e.SyncOk? || e.SyncFail? || e.Decide? || e.DecideFail?
    ensures Inv(s')
  {
    hide Inv, BeginStep, AppendOkStep, AppendFailStep, SyncOkStep, SyncFailStep, DecideStep, DecideFailStep, DurableStep,
         DurableFailStep, AcknowledgeStep, RollbackStep, GiveUpStep, CompactStep, CrashStep, OpenStep, RecTruncateStep,
         RecAbortStep, RecCheckStep, UnlockedCol, DecisionsOf, Locked, WithCol, Flushed, Push, Cut;
    match e
    case Begin(t, key, names, runs) => BeginKeeps(s, t, key, names, runs, s');
    case AppendOk(t) => AppendOkKeeps(s, t, s');
    case AppendFail(t, poison) => AppendFailKeeps(s, t, poison, s');
    case SyncOk(t) => SyncOkKeeps(s, t, s');
    case SyncFail(t) => SyncFailKeeps(s, t, s');
    case Decide(t) => DecideKeeps(s, t, s');
    case DecideFail(t, poison) => DecideFailKeeps(s, t, poison, s');
  }

  lemma OutcomeEventKeeps(s: State, e: Event, s': State)
    requires Inv(s) && Next(s, e, s')
    requires e.Durable? || e.DurableFail? || e.Acknowledge? || e.Rollback? || e.GiveUp?
    ensures Inv(s')
  {
    hide Inv, BeginStep, AppendOkStep, AppendFailStep, SyncOkStep, SyncFailStep, DecideStep, DecideFailStep, DurableStep,
         DurableFailStep, AcknowledgeStep, RollbackStep, GiveUpStep, CompactStep, CrashStep, OpenStep, RecTruncateStep,
         RecAbortStep, RecCheckStep, UnlockedCol, DecisionsOf, Locked, WithCol, Flushed, Push, Cut;
    match e
    case Durable(t) => DurableKeeps(s, t, s');
    case DurableFail(t) => DurableFailKeeps(s, t, s');
    case Acknowledge(t) => AcknowledgeKeeps(s, t, s');
    case Rollback(t, ok) => RollbackKeeps(s, t, ok, s');
    case GiveUp(t, w) => GiveUpKeeps(s, t, w, s');
  }

  lemma ColEventKeeps(s: State, e: Event, s': State)
    requires Inv(s) && Next(s, e, s')
    requires e.PlainAppend? || e.PlainFail? || e.PlainCut? || e.SyncCol? || e.Rotate? || e.Compact?
    ensures Inv(s')
  {
    hide Inv, BeginStep, AppendOkStep, AppendFailStep, SyncOkStep, SyncFailStep, DecideStep, DecideFailStep, DurableStep,
         DurableFailStep, AcknowledgeStep, RollbackStep, GiveUpStep, CompactStep, CrashStep, OpenStep, RecTruncateStep,
         RecAbortStep, RecCheckStep, UnlockedCol, DecisionsOf, Locked, WithCol, Flushed, Push, Cut;
    match e
    case PlainAppend(c, x) => PlainAppendKeeps(s, c, x, s');
    case PlainFail(c) => PlainFailKeeps(s, c, s');
    case PlainCut(c, n) => PlainCutKeeps(s, c, n, s');
    case SyncCol(c) => SyncColKeeps(s, c, s');
    case Rotate(c) => RotateKeeps(s, c, s');
    case Compact(c, n, dec, now, out) => CompactKeeps(s, c, n, dec, now, out, s');
  }

  lemma RecoveryEventKeeps(s: State, e: Event, s': State)
    requires Inv(s) && Next(s, e, s')
    requires e.Crash? || e.Open? || e.RecTruncate? || e.RecSync? || e.RecAbort? || e.RecSkip? || e.RecCheck? || e.RecDone?
    ensures Inv(s')
  {
    hide Inv, BeginStep, AppendOkStep, AppendFailStep, SyncOkStep, SyncFailStep, DecideStep, DecideFailStep, DurableStep,
         DurableFailStep, AcknowledgeStep, RollbackStep, GiveUpStep, CompactStep, CrashStep, OpenStep, RecTruncateStep,
         RecAbortStep, RecCheckStep, UnlockedCol, DecisionsOf, Locked, WithCol, Flushed, Push, Cut;
    match e
    case Crash(left, journalLeft) => CrashKeeps(s, left, journalLeft, s');
    case Open(next, pending) => OpenKeeps(s, next, pending, s');
    case RecTruncate(t, c) => RecTruncateKeeps(s, t, c, s');
    case RecSync(c) => RecSyncKeeps(s, c, s');
    case RecAbort(t, w) => RecAbortKeeps(s, t, w, s');
    case RecSkip(t) => RecSkipKeeps(s, t, s');
    case RecCheck(t) => RecCheckKeeps(s, t, s');
    case RecDone => RecDoneKeeps(s, s');
  }

  lemma StepKeepsInv(s: State, e: Event, s': State)
    requires Inv(s) && Next(s, e, s')
    ensures Inv(s')
  {
    hide Inv, Next;
    if e.Begin? || e.AppendOk? || e.AppendFail? || e.SyncOk? || e.SyncFail? || e.Decide? || e.DecideFail? {
      AttemptEventKeeps(s, e, s');
    } else if e.Durable? || e.DurableFail? || e.Acknowledge? || e.Rollback? || e.GiveUp? {
      OutcomeEventKeeps(s, e, s');
    } else if e.PlainAppend? || e.PlainFail? || e.PlainCut? || e.SyncCol? || e.Rotate? || e.Compact? {
      ColEventKeeps(s, e, s');
    } else {
      RecoveryEventKeeps(s, e, s');
    }
  }

  lemma InitInv(s: State)
    requires Init(s)
    ensures Inv(s)
  {
    var none: seq<Line> := [];
    assert none + none == none;
  }

  lemma {:induction false} RunInv(ss: seq<State>, es: seq<Event>, i: nat)
    requires IsRun(ss, es) && i < |ss|
    ensures Inv(ss[i])
  {
    hide Inv, Next;
    if i == 0 {
      InitInv(ss[0]);
    } else {
      RunInv(ss, es, i - 1);
      StepKeepsInv(ss[i - 1], es[i - 1], ss[i]);
    }
  }

  // ----- what a crash can leave --------------------------------------------------------------------

  /** `left` and `recs` are file contents a crash in state `s` may leave behind. */
  ghost predicate MayLeave(s: State, left: map<string, seq<Line>>, recs: seq<Record>) {
    && left.Keys == s.cols.Keys
    && (forall c :: c in left ==> left[c] in s.cols[c].active.versions)
    && recs in s.journal.file.versions
  }

  /** The log of `t`'s absence. */
  function Erased(log: seq<Line>, t: TxId): seq<Line> {
    if |log| == 0 then []
    else
      var front, l := Erased(log[..|log| - 1], t), log[|log| - 1];
      if IsOf(l, t) then front else front + [l]
  }

  lemma {:induction false} ErasedMeaning(log: seq<Line>, t: TxId, dec: Decisions)
    requires !Committed(dec, t)
    ensures Rebuilt(log, dec) == Rebuilt(Erased(log, t), dec)
  {
    if |log| > 0 {
      var front, l := log[..|log| - 1], log[|log| - 1];
      ErasedMeaning(front, t, dec);
      var e := Erased(front, t);
      assert (e + [l])[..|e|] == e;
    }
  }

  /** The lines hold exactly the given entries, in order, each stamped with its place in the run of `t`. */
  ghost predicate Carries(run: seq<Line>, es: seq<Entry>, t: TxId) {
    && |run| == |es|
    && forall n :: 0 <= n < |es| ==> run[n].entry == es[n] && run[n].tx == Some(Stamp(t, n, |es|))
  }

  /** Transaction `t` is in the logs completely, in every participant, or has no effect on any of them. */
  ghost predicate WholeOrNone(logs: map<string, seq<Line>>, plan: map<TxId, Plan>, dec: Decisions, t: TxId) {
    if Committed(dec, t) then
      && t in plan
      && (forall c :: c in plan[t].runs ==> c in logs)
      && (forall c :: c in logs ==> Carries(Run(logs[c], t), if c in plan[t].runs then plan[t].runs[c] else [], t))
    else
      forall c :: c in logs ==> Rebuilt(logs[c], dec) == Rebuilt(Erased(logs[c], t), dec)
  }

  function LogsOf(s: State, left: map<string, seq<Line>>): map<string, seq<Line>>
    requires left.Keys == s.cols.Keys
  {
    map c | c in left :: s.cols[c].sealed + left[c]
  }

  lemma CommittedIsHeld(s: State, left: map<string, seq<Line>>, recs: seq<Record>, t: TxId)
    requires Inv(s) && left.Keys == s.cols.Keys && recs <= s.journal.file.cur
    requires forall c :: c in left ==> left[c] in s.cols[c].active.versions
    ensures WholeOrNone(LogsOf(s, left), s.hist.plan, DecisionsOf(recs), t)
  {
    var logs, dec := LogsOf(s, left), DecisionsOf(recs);
    PrefixRecords(recs, s.journal.file.cur);
    DecisionsOfRecords(recs, t);
    hide DecisionsOf, Rebuilt, Erased, Carries, Inv;
    if Committed(dec, t) {
      var r :| r in recs && r.t == t && r.CommitRec?;
      forall c | c in logs
        ensures t in s.hist.plan && (forall c :: c in s.hist.plan[t].runs ==> c in s.cols)
        ensures Carries(Run(logs[c], t), if c in s.hist.plan[t].runs then s.hist.plan[t].runs[c] else [], t)
      {
        HeldCarries(s, r, c, left[c]);
      }
      HeldPlanned(s, r);
    } else {
      forall c | c in logs
        ensures Rebuilt(logs[c], dec) == Rebuilt(Erased(logs[c], t), dec)
      {
        ErasedMeaning(logs[c], t, dec);
      }
    }
  }

  lemma HeldPlanned(s: State, r: Record)
    requires Inv(s) && r in s.journal.file.cur && r.CommitRec?
    ensures r.t in s.hist.plan && forall c :: c in s.hist.plan[r.t].runs ==> c in s.cols
  {
    hide UpOk, DownOk, RecoveringOk, FilesOk, JournalOk, HistOk, RunHeld, PartsOf;
    assert CommitHeld(s.cols, s.hist.plan, r);
  }

  /** In every surviving content of a collection the run of a recorded commit is exactly what was planned. */
  lemma HeldCarries(s: State, r: Record, c: string, v: seq<Line>)
    requires Inv(s) && r in s.journal.file.cur && r.CommitRec? && c in s.cols && v in s.cols[c].active.versions
    ensures r.t in s.hist.plan && forall c :: c in s.hist.plan[r.t].runs ==> c in s.cols
    ensures Carries(Run(s.cols[c].sealed + v, r.t), if c in s.hist.plan[r.t].runs then s.hist.plan[r.t].runs[c] else [], r.t)
  {
    hide UpOk, DownOk, RecoveringOk, JournalOk, HistOk, PartsOf;
    assert CommitHeld(s.cols, s.hist.plan, r);
    assert ColOk(s.cols[c], c, s.hist.plan);
    assert TraceOk(s.cols[c].sealed, v, Full(s.hist.plan, r.t, c), r.t);
  }

  // ----- acknowledged and failed calls ---------------------------------------------------------------

  lemma AckedRecorded(s: State, t: TxId)
    requires Inv(s) && t in s.hist.acked
    ensures CommittedIn(s.journal.file.cur, t) && t in s.hist.plan
  {
    assert CommittedIn(s.journal.file.cur, t);
    var r :| r in s.journal.file.cur && r.t == t && r.CommitRec?;
  }

  lemma HistStep(s: State, e: Event, s': State)
    requires Next(s, e, s')
    ensures s.hist.acked <= s'.hist.acked && s.hist.failed <= s'.hist.failed
    ensures forall t :: t in s.hist.plan && !(e.Open? && !Traced(s, t)) && !(e.Begin? && e.t == t) ==>
              t in s'.hist.plan && s'.hist.plan[t] == s.hist.plan[t]
  {
    hide DecisionsOf, Locked, IsCompaction, DistinctNames, Stamped, PartsOf, EvidenceOk, ActiveTail, FirstOf, JournalFree,
         JournalAppend, Run, Traced;
  }

  lemma AckedKept(s: State, e: Event, s': State, t: TxId)
    requires Inv(s) && Next(s, e, s') && t in s.hist.acked
    ensures t in s.hist.plan && !(e.Open? && !Traced(s, t)) && !(e.Begin? && e.t == t)
  {
    AckedRecorded(s, t);
    hide Next;
    if e.Begin? {
      assert BeginStep(s, e.t, e.key, e.names, e.runs, s') by { assert Next(s, e, s'); }
    }
    if e.Open? {
      assert Recorded(s.journal.file.cur, t);
      assert Traced(s, t);
    }
  }

  /** Acknowledgements and failures are never taken back, and an acknowledged txid keeps its meaning. */
  lemma StepMonotone(s: State, e: Event, s': State)
    requires Inv(s) && Next(s, e, s')
    ensures s.hist.acked <= s'.hist.acked && s.hist.failed <= s'.hist.failed
    ensures forall t :: t in s.hist.acked ==> t in s.hist.plan && t in s'.hist.plan && s'.hist.plan[t] == s.hist.plan[t]
  {
    hide Inv, Next, Traced;
    HistStep(s, e, s');
    forall t | t in s.hist.acked
      ensures t in s.hist.plan && t in s'.hist.plan && s'.hist.plan[t] == s.hist.plan[t]
    {
      AckedKept(s, e, s', t);
    }
  }

  lemma {:induction false} RunMonotone(ss: seq<State>, es: seq<Event>, j: nat, i: nat)
    requires IsRun(ss, es) && j <= i < |ss|
    ensures ss[j].hist.acked <= ss[i].hist.acked && ss[j].hist.failed <= ss[i].hist.failed
    ensures forall t :: t in ss[j].hist.acked ==>
              t in ss[j].hist.plan && t in ss[i].hist.plan && ss[i].hist.plan[t] == ss[j].hist.plan[t]
  {
    hide Inv, Next;
    if j == i {
      RunInv(ss, es, i);
      forall t | t in ss[i].hist.acked
        ensures t in ss[i].hist.plan
      {
        AckedRecorded(ss[i], t);
      }
    } else {
      RunMonotone(ss, es, j, i - 1);
      RunInv(ss, es, i - 1);
      StepMonotone(ss[i - 1], es[i - 1], ss[i]);
    }
  }

  // ----- the theorems -----------------------------------------------------------------------------------

  /**
   At every point of every run, including inside recovery, whatever a crash leaves
   rebuilds to a view in which each transaction is whole in all its participants or
   absent from all of them.
   */
  lemma CrashAtomicity(ss: seq<State>, es: seq<Event>, i: nat, left: map<string, seq<Line>>, recs: seq<Record>, t: TxId)
    requires IsRun(ss, es) && i < |ss| && MayLeave(ss[i], left, recs)
    ensures WholeOrNone(LogsOf(ss[i], left), ss[i].hist.plan, DecisionsOf(recs), t)
  {
    RunInv(ss, es, i);
    CommittedIsHeld(ss[i], left, recs, t);
  }

  /** The same holds of the running process, whose table is the records it has installed. */
  lemma LiveAtomicity(ss: seq<State>, es: seq<Event>, i: nat, t: TxId)
    requires IsRun(ss, es) && i < |ss| && ss[i].mode.Up?
    ensures WholeOrNone(map c | c in ss[i].cols :: ss[i].cols[c].sealed + ss[i].cols[c].active.cur,
                        ss[i].hist.plan, DecisionsOf(ss[i].mode.installed), t)
  {
    hide IsRun, DecisionsOf, WholeOrNone, AttemptOk, CommitsOk, HistOk, PlansCover;
    var s := ss[i];
    RunInv(ss, es, i);
    var left := map c | c in s.cols :: s.cols[c].active.cur;
    forall c | c in left
      ensures left[c] in s.cols[c].active.versions
    {
      assert ColOk(s.cols[c], c, s.hist.plan);
    }
    CommittedIsHeld(s, left, s.mode.installed, t);
    assert LogsOf(s, left) == map c | c in s.cols :: s.cols[c].sealed + s.cols[c].active.cur;
  }

  /** Once acknowledged, a commit is whole in every later state, whatever a crash leaves. */
  lemma AcknowledgedIsDurable(ss: seq<State>, es: seq<Event>, j: nat, i: nat, left: map<string, seq<Line>>, recs: seq<Record>, t: TxId)
    requires IsRun(ss, es) && j <= i < |ss| && MayLeave(ss[i], left, recs) && t in ss[j].hist.acked
    ensures Committed(DecisionsOf(recs), t)
    ensures t in ss[j].hist.plan
    ensures forall c :: c in ss[j].hist.plan[t].runs ==>
              c in left && Carries(Run(ss[i].cols[c].sealed + left[c], t), ss[j].hist.plan[t].runs[c], t)
  {
    RunInv(ss, es, i);
    RunMonotone(ss, es, j, i);
    assert CommittedIn(recs, t);
    PrefixRecords(recs, ss[i].journal.file.cur);
    DecisionsOfRecords(recs, t);
    CommittedIsHeld(ss[i], left, recs, t);
    var logs := LogsOf(ss[i], left);
    forall c | c in ss[j].hist.plan[t].runs
      ensures c in left && Carries(Run(ss[i].cols[c].sealed + left[c], t), ss[j].hist.plan[t].runs[c], t)
    {
      assert c in logs && logs[c] == ss[i].cols[c].sealed + left[c];
    }
  }

  lemma {:induction false} RunHolds(log: seq<Line>, t: TxId, p: nat)
    requires p < |log| && IsOf(log[p], t)
    ensures log[p] in Run(log, t)
  {
    if p < |log| - 1 {
      RunHolds(log[..|log| - 1], t, p);
    }
  }

  /**
   What readers get of a committed transaction, in a running process and after any crash: each document one of its
   lines has the last word on is rebuilt with the data, deadline and epoch of the entry the caller gave.
   */
  lemma CommittedShows(logs: map<string, seq<Line>>, plan: map<TxId, Plan>, dec: Decisions, t: TxId, c: string, p: nat)
    requires WholeOrNone(logs, plan, dec, t) && Committed(dec, t) && c in logs && p < |logs[c]| && IsOf(logs[c][p], t)
    requires forall q :: p < q < |logs[c]| && logs[c][q].entry.id == logs[c][p].entry.id ==> !EntryVisible(logs[c][q].tx, dec)
    ensures c in plan[t].runs && logs[c][p].tx.value.i < |plan[t].runs[c]|
    ensures
      var e := plan[t].runs[c][logs[c][p].tx.value.i];
      var row := At(Rebuilt(logs[c], dec), e.id);
      if e.op.Delete? then row.None?
      else row.Some? && row.value.data == e.data && row.value.expiresAt == e.expiresAt && row.value.epoch == e.epoch && row.value.rev >= e.rev
  {
    RunHolds(logs[c], t, p);
    hide Run, Rebuilt;
    var run := Run(logs[c], t);
    var n :| 0 <= n < |run| && run[n] == logs[c][p];
    LastWordShows(logs[c], dec, p);
  }

  /** A call that failed with a durability error never appears, whatever a crash leaves, in any later state. */
  lemma FailedNeverAppears(ss: seq<State>, es: seq<Event>, j: nat, i: nat, recs: seq<Record>, t: TxId)
    requires IsRun(ss, es) && j <= i < |ss| && recs in ss[i].journal.file.versions
    requires t in ss[i].hist.plan && ss[i].hist.plan[t].call in ss[j].hist.failed
    ensures !Committed(DecisionsOf(recs), t)
  {
    RunInv(ss, es, i);
    RunMonotone(ss, es, j, i);
    PrefixRecords(recs, ss[i].journal.file.cur);
    DecisionsOfRecords(recs, t);
  }

  /**
   In every reachable state, with compactions interleaved, each participant a COMMIT record
   names still holds its complete run in order, with the recorded length and digest.
   */
  lemma EvidenceNeverLost(ss: seq<State>, es: seq<Event>, i: nat, r: Record, c: string, v: seq<Line>)
    requires IsRun(ss, es) && i < |ss| && r in ss[i].journal.file.cur && r.CommitRec? && c in r.parts
    requires c in ss[i].cols ==> v in ss[i].cols[c].active.versions
    ensures c in ss[i].cols
    ensures
      var run := Run(ss[i].cols[c].sealed + v, r.t);
      CompleteRun(run) && |run| == r.parts[c].n && Refs(run) == r.parts[c].digest
  {
    RunInv(ss, es, i);
    assert CommitHeld(ss[i].cols, ss[i].hist.plan, r);
    StampedComplete(ss[i].hist.plan[r.t].runs[c], r.t);
  }

  /** Recovery never answers that a committed transaction is incomplete. */
  lemma NeverRefused(ss: seq<State>, es: seq<Event>, i: nat)
    requires IsRun(ss, es) && i < |ss|
    ensures !ss[i].mode.Refused?
  {
    RunInv(ss, es, i);
  }

  /** Over all retries, crashes and reopens the journal holds at most one COMMIT per idempotency key, and one record per txid. */
  lemma CommitOncePerKey(ss: seq<State>, es: seq<Event>, i: nat, a: Record, b: Record)
    requires IsRun(ss, es) && i < |ss| && a in ss[i].journal.file.cur && b in ss[i].journal.file.cur
    ensures a.CommitRec? && b.CommitRec? && a.key == b.key != "" ==> a == b
    ensures a.t == b.t ==> a == b
  {
    RunInv(ss, es, i);
  }

  // ----- recovery always completes -----------------------------------------------------------------------

  /** `s` reaches `s'` by steps that append nothing but recovery's own ABORT records. */
  ghost predicate Reaches(ss: seq<State>, es: seq<Event>) {
    && |ss| == |es| + 1
    && (forall i :: 0 <= i < |es| ==> Next(ss[i], es[i], ss[i + 1]))
  }

  ghost function Highest(ts: set<TxId>): (n: nat)
    ensures forall t :: t in ts ==> t.seqNo < n
    ensures n == 1 || exists t :: t in ts && t.seqNo + 1 == n
  {
    if ts == {} then 1
    else
      var t :| t in ts;
      var m := Highest(ts - {t});
      if t.seqNo < m then m else t.seqNo + 1
  }

  lemma OpenEnabled(s: State) returns (e: Event, s': State)
    requires Inv(s) && s.mode.Down?
    ensures Next(s, e, s') && e.Open? && s'.mode.Recovering? && s'.cols == s.cols && s'.journal == s.journal
    ensures s'.mode.table == s.journal.file.cur && forall t :: Traced(s, t) ==> t in s'.mode.pending
  {
    var pending := set t | t in s.hist.plan && Traced(s, t);
    forall t | Traced(s, t)
      ensures t in pending
    {
      TracedIsPlanned(s, t);
    }
    var next := Highest(pending);
    e := Open(next, pending);
    s' := s.(mode := Recovering(pending, s.journal.file.cur, next,
                                map c | c in s.cols :: s.cols[c].sealed + s.cols[c].active.cur),
             hist := s.hist.(plan := map t | t in s.hist.plan && t in pending :: s.hist.plan[t]));
  }

  function Resolved(s: State, t: TxId): State
    requires s.mode.Recovering?
  {
    s.(mode := s.mode.(pending := s.mode.pending - {t}))
  }

  function ResolvedByAbort(s: State, t: TxId): State
    requires s.mode.Recovering?
  {
    s.(journal := s.journal.(file := Flushed(Push(s.journal.file, AbortRec(t, "")))),
       mode := s.mode.(pending := s.mode.pending - {t}, table := s.mode.table + [AbortRec(t, "")]))
  }

  lemma AbortDecides(s: State, t: TxId)
    requires s.mode.Recovering? && t in s.mode.pending && t !in DecisionsOf(s.mode.table) && !s.journal.poisoned
    ensures Next(s, RecAbort(t, Written), ResolvedByAbort(s, t))
    ensures DecisionsOf(ResolvedByAbort(s, t).mode.table) == DecisionsOf(s.mode.table)[t := Decision(Abort, false)]
  {
    var table := s.mode.table;
    assert (table + [AbortRec(t, "")])[..|table|] == table;
  }

  lemma TableConsistent(s: State)
    requires Inv(s) && s.mode.Recovering?
    ensures Consistent(s.mode.table)
  {
    hide FilesOk, CommitsOk, HistOk, PlansCover, ScanOk;
    assert s.mode.table <= s.journal.file.cur;
    PrefixRecords(s.mode.table, s.journal.file.cur);
  }

  lemma CheckPasses(s: State, t: TxId, r: Record)
    requires s.mode.Recovering? && t in s.mode.pending && r in s.mode.table && r.t == t && r.CommitRec?
    requires EvidenceOk(t, r.parts, s.mode.scan)
    ensures Next(s, RecCheck(t), Resolved(s, t))
  {
    hide EvidenceOk;
    assert Resolved(s, t) == if EvidenceOk(t, r.parts, s.mode.scan)
                             then s.(mode := s.mode.(pending := s.mode.pending - {t}))
                             else s.(mode := Refused);
  }

  lemma CheckDecides(s: State, t: TxId)
    requires Inv(s) && s.mode.Recovering? && t in s.mode.pending && Committed(DecisionsOf(s.mode.table), t)
    ensures Next(s, RecCheck(t), Resolved(s, t))
  {
    hide Inv, Next, EvidenceOk;
    TableConsistent(s);
    DecisionsOfRecords(s.mode.table, t);
    var r :| r in s.mode.table && r.t == t && r.CommitRec?;
    EvidenceFound(s, r);
    CheckPasses(s, t, r);
  }

  lemma SkipDecides(s: State, t: TxId)
    requires s.mode.Recovering? && t in s.mode.pending
    ensures Aborted(DecisionsOf(s.mode.table), t) ==> Next(s, RecSkip(t), Resolved(s, t))
    ensures t !in DecisionsOf(s.mode.table) ==> Next(s, RecAbort(t, NotWritten(false)), Resolved(s, t))
  {
  }

  lemma ResolveOne(s: State, t: TxId) returns (e: Event, s': State)
    requires Inv(s) && s.mode.Recovering? && t in s.mode.pending
    ensures Next(s, e, s') && s'.mode.Recovering? && s'.mode.pending == s.mode.pending - {t} && s'.cols == s.cols
    ensures s'.journal.poisoned == s.journal.poisoned && s'.mode.next == s.mode.next && s'.epoch == s.epoch && !e.Crash?
    ensures !s.journal.poisoned ==> t in DecisionsOf(s'.mode.table)
    ensures forall u :: u in DecisionsOf(s.mode.table) ==> u in DecisionsOf(s'.mode.table)
    ensures forall u :: Committed(DecisionsOf(s'.mode.table), u) <==> Committed(DecisionsOf(s.mode.table), u)
  {
    hide Inv, Next, DecisionsOf;
    var dec := DecisionsOf(s.mode.table);
    SkipDecides(s, t);
    if Committed(dec, t) {
      CheckDecides(s, t);
      e, s' := RecCheck(t), Resolved(s, t);
    } else if t in dec {
      e, s' := RecSkip(t), Resolved(s, t);
    } else if s.journal.poisoned {
      e, s' := RecAbort(t, NotWritten(false)), Resolved(s, t);
    } else {
      AbortDecides(s, t);
      e, s' := RecAbort(t, Written), ResolvedByAbort(s, t);
    }
  }

  lemma DoneStep(s: State) returns (ss: seq<State>, es: seq<Event>)
    requires s.mode.Recovering? && s.mode.pending == {}
    ensures |es| == 1 && es[0] == RecDone && Reaches(ss, es) && ss[0] == s && ss[1] == s.(mode := Up(map[], s.mode.table, s.mode.next))
  {
    ss := [s, s.(mode := Up(map[], s.mode.table, s.mode.next))];
    es := [RecDone];
  }

  /** From inside recovery, in any reachable state, there is a way to a running database. */
  lemma {:induction false} RecoveryFinishes(s: State) returns (ss: seq<State>, es: seq<Event>)
    requires Inv(s) && s.mode.Recovering?
    ensures Reaches(ss, es) && ss[0] == s && ss[|es|].mode.Up? && ss[|es|].cols == s.cols && ss[|es|].epoch == s.epoch
    ensures ss[|es|].mode.attempts == map[] && ss[|es|].mode.nextSeq == s.mode.next && ss[|es|].journal.poisoned == s.journal.poisoned
    ensures forall i :: 0 <= i < |es| ==> !es[i].Crash?
    ensures !s.journal.poisoned ==> forall t :: t in s.mode.pending ==> t in DecisionsOf(ss[|es|].mode.installed)
    ensures forall u :: u in DecisionsOf(s.mode.table) ==> u in DecisionsOf(ss[|es|].mode.installed)
    ensures forall u :: Committed(DecisionsOf(ss[|es|].mode.installed), u) <==> Committed(DecisionsOf(s.mode.table), u)
    decreases |s.mode.pending|
  {
    hide Inv, Next;
    if s.mode.pending == {} {
      ss, es := DoneStep(s);
    } else {
      var t :| t in s.mode.pending;
      var e, s1 := ResolveOne(s, t);
      StepKeepsInv(s, e, s1);
      var ss1, es1 := RecoveryFinishes(s1);
      ss, es := [s] + ss1, [e] + es1;
      forall i | 0 <= i < |es|
        ensures Next(ss[i], es[i], ss[i + 1])
      {
        if i > 0 {
          assert Next(ss1[i - 1], es1[i - 1], ss1[i]);
        }
      }
    }
  }

  lemma DownUnpoisoned(s: State)
    requires Inv(s) && s.mode.Down?
    ensures !s.journal.poisoned
  {
  }

  /**
   After any crash the database can be opened: recovery never gets stuck, decides every
   transaction that left a trace, and keeps every decision the journal held.
   */
  lemma ReopenCompletes(ss: seq<State>, es: seq<Event>, i: nat) returns (rs: seq<State>, re: seq<Event>)
    requires IsRun(ss, es) && i < |ss| && ss[i].mode.Down?
    ensures Reaches(rs, re) && rs[0] == ss[i] && rs[|re|].mode.Up? && rs[|re|].cols == ss[i].cols
    ensures forall t :: Traced(ss[i], t) ==> t in DecisionsOf(rs[|re|].mode.installed)
    ensures forall t :: Committed(DecisionsOf(ss[i].journal.file.cur), t) <==> Committed(DecisionsOf(rs[|re|].mode.installed), t)
  {
    hide Inv, Next, Traced, DecisionsOf, IsRun;
    var s := ss[i];
    RunInv(ss, es, i);
    DownUnpoisoned(s);
    var e, s1 := OpenEnabled(s);
    StepKeepsInv(s, e, s1);
    var ss1, es1 := RecoveryFinishes(s1);
    rs, re := [s] + ss1, [e] + es1;
    forall k | 0 <= k < |re|
      ensures Next(rs[k], re[k], rs[k + 1])
    {
      if k > 0 {
        assert Next(ss1[k - 1], es1[k - 1], ss1[k]);
      }
    }
  }
}
