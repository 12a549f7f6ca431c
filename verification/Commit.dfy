/**
 The cross-collection commit protocol as a system of steps: every append, sync,
 truncation and journal write is one step, any of them can fail, the process can
 crash between any two, and recovery is itself a sequence of such steps.

 A file is its current content and the contents a crash may leave: every content
 it has had since its last sync. A failed write never leaves a whole line behind.
 */
module Commit {
  import opened Values
  import opened Log
  import opened Compaction

  // ----- state ---------------------------------------------------------------------

  datatype File<!T(==)> = File(cur: seq<T>, versions: set<seq<T>>)

  /** A collection's sealed lines and its active segment. */
  datatype Col = Col(sealed: seq<Line>, active: File<Line>, poisoned: bool)

  datatype OpRef = OpRef(id: nat, op: Op, rev: nat)

  /** A participant's run length and digest; digests are collision-free, so they carry the refs. */
  datatype Part = Part(n: nat, digest: seq<OpRef>)

  datatype Record =
    | CommitRec(t: TxId, key: string, parts: map<string, Part>)
    | AbortRec(t: TxId, key: string)

  datatype Journal = Journal(file: File<Record>, poisoned: bool)

  datatype Phase =
    | Appending(k: nat, i: nat)
    | Syncing(k: nat)
    | Deciding
    | DecisionWritten
    | Decided
    | RollingBack(k: nat)
    | Aborting

  type Runs = map<string, seq<Entry>>

  /** A commit in flight: its participants in lock order, what it has appended, and where it began. */
  datatype Attempt = Attempt(key: string, names: seq<string>, runs: Runs, phase: Phase, done: map<string, nat>, start: map<string, nat>)

  datatype Mode =
    | Up(attempts: map<TxId, Attempt>, installed: seq<Record>, nextSeq: nat)
    | Down
    | Recovering(pending: set<TxId>, table: seq<Record>, next: nat, scan: map<string, seq<Line>>)
    | Refused

  datatype Plan = Plan(key: string, runs: Runs, call: nat)

  /**
   What the environment remembers: what each txid was last issued for, which txids were
   acknowledged, and which calls failed. A txid that left no trace can be issued again,
   so calls are numbered.
   */
  datatype History = History(plan: map<TxId, Plan>, acked: set<TxId>, failed: set<nat>, calls: nat)

  datatype State = State(epoch: string, cols: map<string, Col>, journal: Journal, mode: Mode, hist: History)

  // ----- files -----------------------------------------------------------------------

  function Push<T(==)>(f: File<T>, x: T): File<T> {
    File(f.cur + [x], f.versions + {f.cur + [x]})
  }

  function Cut<T(==)>(f: File<T>, n: nat): File<T>
    requires n <= |f.cur|
  {
    File(f.cur[..n], f.versions + {f.cur[..n]})
  }

  function Flushed<T(==)>(f: File<T>): File<T> {
    File(f.cur, {f.cur})
  }

  // ----- runs and decisions -------------------------------------------------------------

  function Stamped(es: seq<Entry>, t: TxId): seq<Line> {
    seq(|es|, i requires 0 <= i < |es| => Line(es[i], Some(Stamp(t, i, |es|))))
  }

  function Refs(ls: seq<Line>): seq<OpRef> {
    seq(|ls|, i requires 0 <= i < |ls| => OpRef(ls[i].entry.id, ls[i].entry.op, ls[i].entry.rev))
  }

  function PartsOf(runs: Runs, t: TxId): map<string, Part> {
    map c | c in runs :: Part(|runs[c]|, Refs(Stamped(runs[c], t)))
  }

  function DecisionsOf(recs: seq<Record>): Decisions {
    if |recs| == 0 then map[]
    else
      var front, r := DecisionsOf(recs[..|recs| - 1]), recs[|recs| - 1];
      if r.t in front then front
      else front[r.t := Decision(if r.CommitRec? then Commit else Abort, false)]
  }

  ghost predicate Recorded(recs: seq<Record>, t: TxId) {
    exists r :: r in recs && r.t == t
  }

  ghost predicate CommittedIn(recs: seq<Record>, t: TxId) {
    exists r :: r in recs && r.t == t && r.CommitRec?
  }

  /** The run recovery expects of transaction `t` in collection `c`. */
  function Full(plan: map<TxId, Plan>, t: TxId, c: string): seq<Line> {
    if t in plan && c in plan[t].runs then Stamped(plan[t].runs[c], t) else []
  }

  predicate IsOf(l: Line, t: TxId) {
    l.tx.Some? && l.tx.value.t == t
  }

  /** The lines of `t` in one segment form one block. */
  predicate Contiguous(v: seq<Line>, t: TxId) {
    |v| > 0 ==>
      var front, l := v[..|v| - 1], v[|v| - 1];
      Contiguous(front, t) && (IsOf(l, t) ==> Run(front, t) == [] || IsOf(front[|front| - 1], t))
  }

  /** Where the lines of `t` begin. */
  function FirstOf(v: seq<Line>, t: TxId): (s: nat)
    ensures s <= |v|
  {
    if |v| == 0 then 0
    else
      var front := v[..|v| - 1];
      if Run(front, t) != [] then FirstOf(front, t)
      else if IsOf(v[|v| - 1], t) then |front| else |v|
  }

  // ----- evidence ------------------------------------------------------------------------

  predicate CompleteRun(run: seq<Line>) {
    && run != []
    && (forall i :: 0 <= i < |run| ==> run[i].tx.Some? && run[i].tx.value.i == i && run[i].tx.value.n == |run|)
  }

  /** The checks recovery makes before it accepts a COMMIT record. */
  predicate EvidenceOk(t: TxId, parts: map<string, Part>, scan: map<string, seq<Line>>) {
    && (forall c :: c in parts ==>
          && c in scan
          && CompleteRun(Run(scan[c], t)) && |Run(scan[c], t)| == parts[c].n && Refs(Run(scan[c], t)) == parts[c].digest)
    && (forall c :: c in scan && Run(scan[c], t) != [] ==> c in parts)
  }

  /** The run of `t` ends the active segment and lies wholly inside it. */
  predicate ActiveTail(sealed: seq<Line>, v: seq<Line>, t: TxId) {
    Run(sealed, t) == [] && v != [] && IsOf(v[|v| - 1], t)
  }

  // ----- steps -----------------------------------------------------------------------------

  datatype JournalWrite = Written | NotWritten(poison: bool) | SyncFailed

  datatype Event =
    | Begin(t: TxId, key: string, names: seq<string>, runs: Runs)
    | AppendOk(t: TxId)
    | AppendFail(t: TxId, poison: bool)
    | SyncOk(t: TxId)
    | SyncFail(t: TxId)
    | Decide(t: TxId)
    | DecideFail(t: TxId, poison: bool)
    | Durable(t: TxId)
    | DurableFail(t: TxId)
    | Acknowledge(t: TxId)
    | Rollback(t: TxId, ok: bool)
    | GiveUp(t: TxId, w: JournalWrite)
    | PlainAppend(c: string, e: Entry)
    | PlainFail(c: string)
    | PlainCut(c: string, n: nat)
    | SyncCol(c: string)
    | Rotate(c: string)
    | Compact(c: string, n: nat, dec: Decisions, now: int, out: seq<Line>)
    | Crash(left: map<string, seq<Line>>, journalLeft: seq<Record>)
    | Open(next: nat, pending: set<TxId>)
    | RecTruncate(t: TxId, c: string)
    | RecSync(c: string)
    | RecAbort(t: TxId, w: JournalWrite)
    | RecSkip(t: TxId)
    | RecCheck(t: TxId)
    | RecDone

  predicate Locked(s: State, c: string)
    requires s.mode.Up?
  {
    exists t :: t in s.mode.attempts && c in s.mode.attempts[t].runs
  }

  function WithCol(s: State, c: string, col: Col): State {
    s.(cols := s.cols[c := col])
  }

  function WithAttempt(s: State, t: TxId, a: Attempt): State
    requires s.mode.Up?
  {
    s.(mode := s.mode.(attempts := s.mode.attempts[t := a]))
  }

  function WithoutAttempt(s: State, t: TxId): State
    requires s.mode.Up?
  {
    s.(mode := s.mode.(attempts := s.mode.attempts - {t}))
  }

  ghost predicate DistinctNames(names: seq<string>, runs: Runs) {
    && (forall c :: c in names <==> c in runs)
    && (forall i, j :: 0 <= i < j < |names| ==> names[i] != names[j])
  }

  function NextAppend(a: Attempt): Phase
    requires a.phase.Appending? && a.phase.k < |a.names| && a.names[a.phase.k] in a.runs
  {
    var k, i := a.phase.k, a.phase.i;
    if i + 1 < |a.runs[a.names[k]]| then Appending(k, i + 1)
    else if k + 1 < |a.names| then Appending(k + 1, 0)
    else Syncing(0)
  }

  ghost predicate InPhase(s: State, t: TxId) {
    s.mode.Up? && t in s.mode.attempts
  }

  ghost predicate JournalFree(s: State)
    requires s.mode.Up?
  {
    forall t :: t in s.mode.attempts ==> !s.mode.attempts[t].phase.DecisionWritten?
  }

  ghost predicate BeginStep(s: State, t: TxId, key: string, names: seq<string>, runs: Runs, s': State) {
    && s.mode.Up?
    && t == TxId(s.epoch, s.mode.nextSeq)
    && !s.journal.poisoned
    && names != [] && DistinctNames(names, runs)
    && (forall c :: c in runs ==> c in s.cols && runs[c] != [] && !Locked(s, c) && !s.cols[c].poisoned)
    && (key != "" ==>
          && (forall u :: u in s.mode.attempts ==> s.mode.attempts[u].key != key)
          && (forall r :: r in s.mode.installed && r.CommitRec? ==> r.key != key))
    && var a := Attempt(key, names, runs, Appending(0, 0), map c | c in runs :: 0, map[]);
       s' == s.(mode := Up(s.mode.attempts[t := a], s.mode.installed, s.mode.nextSeq + 1),
                hist := History(s.hist.plan[t := Plan(key, runs, s.hist.calls)], s.hist.acked, s.hist.failed, s.hist.calls + 1))
  }

  ghost predicate AppendOkStep(s: State, t: TxId, s': State) {
    && InPhase(s, t)
    && var a := s.mode.attempts[t];
    && a.phase.Appending? && a.phase.k < |a.names|
    && var c, i := a.names[a.phase.k], a.phase.i;
    && c in s.cols && c in a.runs && i < |a.runs[c]| && !s.cols[c].poisoned
    && var col := s.cols[c];
    && s' == WithAttempt(WithCol(s, c, col.(active := Push(col.active, Stamped(a.runs[c], t)[i]))), t,
                         a.(phase := NextAppend(a), done := a.done[c := i + 1],
                            start := if i == 0 then a.start[c := |col.active.cur|] else a.start))
  }

  ghost predicate AppendFailStep(s: State, t: TxId, poison: bool, s': State) {
    && InPhase(s, t)
    && var a := s.mode.attempts[t];
    && a.phase.Appending? && a.phase.k < |a.names|
    && var c, i := a.names[a.phase.k], a.phase.i;
    && c in s.cols
    && var col := s.cols[c];
    && s' == WithAttempt(WithCol(s, c, col.(poisoned := col.poisoned || poison)), t,
                         a.(phase := RollingBack(0), start := if i == 0 then a.start[c := |col.active.cur|] else a.start))
  }

  ghost predicate SyncOkStep(s: State, t: TxId, s': State) {
    && InPhase(s, t)
    && var a := s.mode.attempts[t];
    && a.phase.Syncing? && a.phase.k < |a.names|
    && var c := a.names[a.phase.k];
    && c in s.cols && !s.cols[c].poisoned
    && s' == WithAttempt(WithCol(s, c, s.cols[c].(active := Flushed(s.cols[c].active))), t,
                         a.(phase := if a.phase.k + 1 < |a.names| then Syncing(a.phase.k + 1) else Deciding))
  }

  ghost predicate SyncFailStep(s: State, t: TxId, s': State) {
    && InPhase(s, t)
    && var a := s.mode.attempts[t];
    && a.phase.Syncing? && a.phase.k < |a.names|
    && var c := a.names[a.phase.k];
    && c in s.cols
    && s' == WithAttempt(WithCol(s, c, s.cols[c].(poisoned := true)), t, a.(phase := RollingBack(0)))
  }

  ghost predicate DecideStep(s: State, t: TxId, s': State) {
    && InPhase(s, t) && JournalFree(s) && !s.journal.poisoned
    && var a := s.mode.attempts[t];
    && a.phase.Deciding?
    && s' == WithAttempt(s.(journal := s.journal.(file := Push(s.journal.file, CommitRec(t, a.key, PartsOf(a.runs, t))))), t,
                         a.(phase := DecisionWritten))
  }

  ghost predicate DecideFailStep(s: State, t: TxId, poison: bool, s': State) {
    && InPhase(s, t) && JournalFree(s)
    && var a := s.mode.attempts[t];
    && a.phase.Deciding?
    && s' == WithAttempt(s.(journal := s.journal.(poisoned := s.journal.poisoned || poison)), t, a.(phase := RollingBack(0)))
  }

  ghost predicate DurableStep(s: State, t: TxId, s': State) {
    && InPhase(s, t)
    && var a := s.mode.attempts[t];
    && a.phase.DecisionWritten?
    && var s1 := WithAttempt(s.(journal := s.journal.(file := Flushed(s.journal.file))), t, a.(phase := Decided));
    && s' == s1.(mode := s1.mode.(installed := s.mode.installed + [CommitRec(t, a.key, PartsOf(a.runs, t))]))
  }

  /** The sync of the decision failed: the outcome is unknown and the runs stay. */
  ghost predicate DurableFailStep(s: State, t: TxId, s': State) {
    && InPhase(s, t)
    && s.mode.attempts[t].phase.DecisionWritten?
    && s' == WithoutAttempt(s.(journal := s.journal.(poisoned := true)), t)
  }

  ghost predicate AcknowledgeStep(s: State, t: TxId, s': State) {
    && InPhase(s, t)
    && s.mode.attempts[t].phase.Decided?
    && s' == WithoutAttempt(s, t).(hist := s.hist.(acked := s.hist.acked + {t}))
  }

  ghost predicate RollbackStep(s: State, t: TxId, ok: bool, s': State) {
    && InPhase(s, t)
    && var a := s.mode.attempts[t];
    && a.phase.RollingBack? && a.phase.k < |a.names|
    && var c := a.names[a.phase.k];
    && c in s.cols
    && var col := s.cols[c];
    && var next := if a.phase.k + 1 < |a.names| then RollingBack(a.phase.k + 1) else Aborting;
    && if c in a.start && !col.poisoned then
         if ok then
           && a.start[c] <= |col.active.cur|
           && s' == WithAttempt(WithCol(s, c, col.(active := Cut(col.active, a.start[c]))), t, a.(phase := next, done := a.done[c := 0]))
         else s' == WithAttempt(WithCol(s, c, col.(poisoned := true)), t, a.(phase := next))
       else s' == WithAttempt(s, t, a.(phase := next))
  }

  /** Appends a record and syncs it, with the three ways that can end. */
  ghost predicate JournalAppend(j: Journal, r: Record, w: JournalWrite, j': Journal) {
    match w
    case Written => !j.poisoned && j' == j.(file := Flushed(Push(j.file, r)))
    case NotWritten(poison) => j' == j.(poisoned := j.poisoned || poison)
    case SyncFailed => !j.poisoned && j' == Journal(Push(j.file, r), true)
  }

  ghost predicate GiveUpStep(s: State, t: TxId, w: JournalWrite, s': State) {
    && InPhase(s, t) && JournalFree(s)
    && var a := s.mode.attempts[t];
    && a.phase.Aborting?
    && var r := AbortRec(t, a.key);
    && JournalAppend(s.journal, r, w, s'.journal)
    && s' == s.(journal := s'.journal,
                mode := Up(s.mode.attempts - {t}, if w.Written? then s.mode.installed + [r] else s.mode.installed, s.mode.nextSeq),
                hist := if t in s.hist.plan then s.hist.(failed := s.hist.failed + {s.hist.plan[t].call}) else s.hist)
  }

  ghost predicate UnlockedCol(s: State, c: string) {
    s.mode.Up? && c in s.cols && !Locked(s, c) && !s.cols[c].poisoned
  }

  ghost predicate CompactStep(s: State, c: string, n: nat, dec: Decisions, now: int, out: seq<Line>, s': State) {
    && s.mode.Up? && c in s.cols && !Locked(s, c)
    && n <= |s.cols[c].sealed|
    && (forall t :: t in dec ==> t in DecisionsOf(s.mode.installed) && dec[t] == DecisionsOf(s.mode.installed)[t])
    && IsCompaction(out, s.cols[c].sealed[..n], dec, now)
    && s' == WithCol(s, c, s.cols[c].(sealed := out + s.cols[c].sealed[n..]))
  }

  ghost predicate CrashStep(s: State, left: map<string, seq<Line>>, journalLeft: seq<Record>, s': State) {
    && left.Keys == s.cols.Keys
    && (forall c :: c in left ==> left[c] in s.cols[c].active.versions)
    && journalLeft in s.journal.file.versions
    && s' == s.(mode := Down,
                cols := map c | c in s.cols :: Col(s.cols[c].sealed, File(left[c], {left[c]}), false),
                journal := Journal(File(journalLeft, {journalLeft}), false))
  }

  /** Everything on disk that mentions a transaction. */
  ghost predicate Traced(s: State, t: TxId) {
    || Recorded(s.journal.file.cur, t)
    || exists c :: c in s.cols && Run(s.cols[c].sealed + s.cols[c].active.cur, t) != []
  }

  /**
   The scan: the table is the journal's, the sequence counter goes just above everything
   found on disk. A txid without any trace may be issued again, so what it stood for
   is forgotten here.
   */
  ghost predicate OpenStep(s: State, next: nat, pending: set<TxId>, s': State) {
    && s.mode.Down?
    && (forall t :: Traced(s, t) ==> t.seqNo < next)
    && (next == 1 || exists t :: Traced(s, t) && t.seqNo + 1 == next)
    && (forall t :: t in pending <==> Traced(s, t))
    && s' == s.(mode := Recovering(pending, s.journal.file.cur, next,
                                   map c | c in s.cols :: s.cols[c].sealed + s.cols[c].active.cur),
                hist := s.hist.(plan := map t | t in s.hist.plan && t in pending :: s.hist.plan[t]))
  }

  ghost predicate RecTruncateStep(s: State, t: TxId, c: string, s': State) {
    && s.mode.Recovering? && t in s.mode.pending && c in s.cols
    && !Committed(DecisionsOf(s.mode.table), t)
    && var col := s.cols[c];
    && ActiveTail(col.sealed, col.active.cur, t)
    && s' == WithCol(s, c, col.(active := Cut(col.active, FirstOf(col.active.cur, t))))
  }

  ghost predicate RecAbortStep(s: State, t: TxId, w: JournalWrite, s': State) {
    && s.mode.Recovering? && t in s.mode.pending
    && t !in DecisionsOf(s.mode.table)
    && JournalAppend(s.journal, AbortRec(t, ""), w, s'.journal)
    && s' == s.(journal := s'.journal,
                mode := s.mode.(pending := s.mode.pending - {t},
                                table := if w.Written? then s.mode.table + [AbortRec(t, "")] else s.mode.table))
  }

  ghost predicate RecCheckStep(s: State, t: TxId, s': State) {
    && s.mode.Recovering? && t in s.mode.pending
    && exists r ::
         && r in s.mode.table && r.t == t && r.CommitRec?
         && s' == if EvidenceOk(t, r.parts, s.mode.scan)
                  then s.(mode := s.mode.(pending := s.mode.pending - {t}))
                  else s.(mode := Refused)
  }

  ghost predicate Next(s: State, e: Event, s': State) {
    match e
    case Begin(t, key, names, runs) => BeginStep(s, t, key, names, runs, s')
    case AppendOk(t) => AppendOkStep(s, t, s')
    case AppendFail(t, poison) => AppendFailStep(s, t, poison, s')
    case SyncOk(t) => SyncOkStep(s, t, s')
    case SyncFail(t) => SyncFailStep(s, t, s')
    case Decide(t) => DecideStep(s, t, s')
    case DecideFail(t, poison) => DecideFailStep(s, t, poison, s')
    case Durable(t) => DurableStep(s, t, s')
    case DurableFail(t) => DurableFailStep(s, t, s')
    case Acknowledge(t) => AcknowledgeStep(s, t, s')
    case Rollback(t, ok) => RollbackStep(s, t, ok, s')
    case GiveUp(t, w) => GiveUpStep(s, t, w, s')
    case PlainAppend(c, e) =>
      UnlockedCol(s, c) && s' == WithCol(s, c, s.cols[c].(active := Push(s.cols[c].active, Line(e, None))))
    case PlainFail(c) =>
      UnlockedCol(s, c) && s' == WithCol(s, c, s.cols[c].(poisoned := true))
    case PlainCut(c, n) =>
      && UnlockedCol(s, c) && n <= |s.cols[c].active.cur|
      && (forall i :: n <= i < |s.cols[c].active.cur| ==> s.cols[c].active.cur[i].tx.None?)
      && s' == WithCol(s, c, s.cols[c].(active := Cut(s.cols[c].active, n)))
    case SyncCol(c) =>
      s.mode.Up? && c in s.cols && !s.cols[c].poisoned && s' == WithCol(s, c, s.cols[c].(active := Flushed(s.cols[c].active)))
    case Rotate(c) =>
      && s.mode.Up? && c in s.cols && !Locked(s, c)
      && s' == WithCol(s, c, Col(s.cols[c].sealed + s.cols[c].active.cur, File([], {[]}), false))
    case Compact(c, n, dec, now, out) => CompactStep(s, c, n, dec, now, out, s')
    case Crash(left, journalLeft) => CrashStep(s, left, journalLeft, s')
    case Open(next, pending) => OpenStep(s, next, pending, s')
    case RecTruncate(t, c) => RecTruncateStep(s, t, c, s')
    case RecSync(c) =>
      s.mode.Recovering? && c in s.cols && s' == WithCol(s, c, s.cols[c].(active := Flushed(s.cols[c].active)))
    case RecAbort(t, w) => RecAbortStep(s, t, w, s')
    case RecSkip(t) =>
      && s.mode.Recovering? && t in s.mode.pending && Aborted(DecisionsOf(s.mode.table), t)
      && s' == s.(mode := s.mode.(pending := s.mode.pending - {t}))
    case RecCheck(t) => RecCheckStep(s, t, s')
    case RecDone =>
      && s.mode.Recovering? && s.mode.pending == {}
      && s' == s.(mode := Up(map[], s.mode.table, s.mode.next))
  }

  /** A new database: empty collections, an empty journal, nothing in flight. */
  ghost predicate Init(s: State) {
    && (forall c :: c in s.cols ==> s.cols[c] == Col([], File([], {[]}), false))
    && s.journal == Journal(File([], {[]}), false)
    && s.mode == Up(map[], [], 1)
    && s.hist == History(map[], {}, {}, 0)
  }

  /** A run: each state follows from the one before by one step. */
  ghost predicate IsRun(ss: seq<State>, es: seq<Event>) {
    && |ss| == |es| + 1
    && Init(ss[0])
    && (forall i :: 0 <= i < |es| ==> Next(ss[i], es[i], ss[i + 1]))
  }
}
