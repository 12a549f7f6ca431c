/** The invariant of the commit protocol, and the steps that change one collection. */
module CommitInvariant {
  import opened Values
  import opened Log
  import opened Compaction
  import opened Commit
  import opened CommitFiles

  // ----- the invariant ----------------------------------------------------------------------

  ghost predicate FilesOk(cols: map<string, Col>, plan: map<TxId, Plan>) {
    forall c :: c in cols ==> ColOk(cols[c], c, plan)
  }

  /** A COMMIT record describes its plan, and every participant holds its whole run in every surviving content. */
  ghost predicate CommitHeld(cols: map<string, Col>, plan: map<TxId, Plan>, r: Record)
    requires r.CommitRec?
  {
    && r.t in plan && plan[r.t].key == r.key && r.parts == PartsOf(plan[r.t].runs, r.t)
    && (forall c :: c in plan[r.t].runs ==>
          c in cols && plan[r.t].runs[c] != [] && RunHeld(cols[c], Stamped(plan[r.t].runs[c], r.t), r.t))
  }

  ghost predicate CommitsOk(cols: map<string, Col>, plan: map<TxId, Plan>, recs: seq<Record>) {
    forall r :: r in recs && r.CommitRec? ==> CommitHeld(cols, plan, r)
  }

  ghost predicate Consistent(recs: seq<Record>) {
    forall a, b :: a in recs && b in recs && a.t == b.t ==> a == b
  }

  ghost predicate KeysOnce(recs: seq<Record>) {
    forall a, b :: a in recs && b in recs && a.CommitRec? && b.CommitRec? && a.key == b.key != "" ==> a.t == b.t
  }

  ghost predicate JournalOk(j: Journal) {
    && j.file.cur in j.file.versions
    && (forall v :: v in j.file.versions ==> v <= j.file.cur)
    && Consistent(j.file.cur) && KeysOnce(j.file.cur)
  }

  ghost predicate PlansCover(plan: map<TxId, Plan>, recs: seq<Record>) {
    forall r :: r in recs ==> r.t in plan
  }

  ghost predicate HistOk(j: Journal, hist: History) {
    && (forall t, v :: t in hist.acked && v in j.file.versions ==> CommittedIn(v, t))
    && (forall t :: t in hist.plan && hist.plan[t].call in hist.failed ==> !CommittedIn(j.file.cur, t))
    && (forall t :: t in hist.plan ==> hist.plan[t].call < hist.calls)
    && (forall t, u :: t in hist.plan && u in hist.plan && hist.plan[t].call == hist.plan[u].call ==> t == u)
    && (forall n :: n in hist.failed ==> n < hist.calls)
  }

  ghost predicate Core(s: State) {
    && FilesOk(s.cols, s.hist.plan)
    && CommitsOk(s.cols, s.hist.plan, s.journal.file.cur)
    && JournalOk(s.journal)
    && PlansCover(s.hist.plan, s.journal.file.cur)
    && HistOk(s.journal, s.hist)
  }

  function StartOf(a: Attempt, col: Col, c: string): nat {
    if c in a.start then a.start[c] else |col.active.cur|
  }

  ghost predicate AllAppended(a: Attempt) {
    forall c :: c in a.runs ==> c in a.done && a.done[c] == |a.runs[c]|
  }

  ghost predicate SyncedCol(col: Col) {
    col.active.versions == {col.active.cur}
  }

  ghost predicate AttemptShape(t: TxId, a: Attempt, plan: map<TxId, Plan>) {
    && t in plan && plan[t].key == a.key && plan[t].runs == a.runs
    && DistinctNames(a.names, a.runs) && a.names != []
    && a.done.Keys == a.runs.Keys && a.start.Keys <= a.runs.Keys
    && (forall c :: c in a.runs ==> a.runs[c] != [])
  }

  ghost predicate AttemptFiles(t: TxId, a: Attempt, cols: map<string, Col>)
    requires a.done.Keys == a.runs.Keys
  {
    forall c :: c in a.runs ==>
      c in cols && PrefixAppended(cols[c], Stamped(a.runs[c], t), t, StartOf(a, cols[c], c), a.done[c])
  }

  ghost predicate AttemptPhase(t: TxId, a: Attempt, cols: map<string, Col>)
    requires a.done.Keys == a.runs.Keys && DistinctNames(a.names, a.runs)
  {
    match a.phase
    case Appending(k, i) =>
      && k < |a.names| && i < |a.runs[a.names[k]]|
      && (forall j :: 0 <= j < |a.names| ==>
            a.done[a.names[j]] == if j < k then |a.runs[a.names[j]]| else if j == k then i else 0)
    case Syncing(k) =>
      && k < |a.names| && AllAppended(a)
      && (forall j :: 0 <= j < k ==> a.names[j] in cols && SyncedCol(cols[a.names[j]]))
    case RollingBack(k) => k < |a.names|
    case Aborting => true
    case _ => AllAppended(a) && forall c :: c in a.runs ==> c in cols && SyncedCol(cols[c])
  }

  ghost predicate AttemptJournal(t: TxId, a: Attempt, cur: seq<Record>, installed: seq<Record>) {
    match a.phase
    case DecisionWritten => cur == installed + [CommitRec(t, a.key, PartsOf(a.runs, t))] && !Recorded(installed, t)
    case Decided => CommitRec(t, a.key, PartsOf(a.runs, t)) in installed
    case _ => !Recorded(cur, t)
  }

  ghost predicate AttemptOk(s: State, t: TxId)
    requires InPhase(s, t)
  {
    var a := s.mode.attempts[t];
    && AttemptShape(t, a, s.hist.plan)
    && AttemptFiles(t, a, s.cols)
    && AttemptPhase(t, a, s.cols)
    && AttemptJournal(t, a, s.journal.file.cur, s.mode.installed)
    && s.hist.plan[t].call !in s.hist.failed
  }

  ghost predicate Apart(s: State)
    requires s.mode.Up?
  {
    forall t, u :: t in s.mode.attempts && u in s.mode.attempts && t != u ==>
      && s.mode.attempts[t].runs.Keys !! s.mode.attempts[u].runs.Keys
      && (s.mode.attempts[t].key != "" ==> s.mode.attempts[t].key != s.mode.attempts[u].key)
      && !(s.mode.attempts[t].phase.DecisionWritten? && s.mode.attempts[u].phase.DecisionWritten?)
  }

  ghost predicate KeysFree(s: State)
    requires s.mode.Up?
  {
    forall t, r :: t in s.mode.attempts && r in s.mode.installed && r.CommitRec? && r.key == s.mode.attempts[t].key != "" ==>
      r.t == t && s.mode.attempts[t].phase.Decided?
  }

  /** The in-memory records are on disk whatever a crash leaves; they are all of it while nothing is half-written. */
  ghost predicate Installed(j: Journal, recs: seq<Record>, free: bool) {
    && (forall v :: v in j.file.versions ==> recs <= v)
    && (free && !j.poisoned ==> j.file.cur == recs && j.file.versions == {j.file.cur})
  }

  ghost predicate UpOk(s: State)
    requires s.mode.Up?
  {
    && (forall t :: t in s.hist.plan ==> t.seqNo < s.mode.nextSeq)
    && (forall t :: t in s.mode.attempts ==> AttemptOk(s, t))
    && Apart(s) && KeysFree(s)
    && Installed(s.journal, s.mode.installed, JournalFree(s))
    && (!JournalFree(s) ==> !s.journal.poisoned)
  }

  ghost predicate DownOk(s: State) {
    && (forall c :: c in s.cols ==> SyncedCol(s.cols[c]))
    && s.journal.file.versions == {s.journal.file.cur} && !s.journal.poisoned
  }

  ghost predicate ScanOk(s: State)
    requires s.mode.Recovering?
  {
    && s.mode.scan.Keys == s.cols.Keys
    && (forall c, t :: c in s.cols && Run(s.mode.scan[c], t) != [] ==> Full(s.hist.plan, t, c) != [])
    && (forall r, c :: r in s.journal.file.cur && r.CommitRec? && r.t in s.hist.plan && c in s.hist.plan[r.t].runs ==>
          c in s.cols && Run(s.mode.scan[c], r.t) == Stamped(s.hist.plan[r.t].runs[c], r.t))
  }

  ghost predicate RecoveringOk(s: State)
    requires s.mode.Recovering?
  {
    && (forall t :: t in s.hist.plan ==> t.seqNo < s.mode.next)
    && (forall t :: t in s.mode.pending ==> t in s.hist.plan)
    && Installed(s.journal, s.mode.table, true)
    && (forall r :: r in s.journal.file.cur && r.CommitRec? ==> r in s.mode.table)
    && ScanOk(s)
  }

  ghost predicate Inv(s: State) {
    && Core(s)
    && !s.mode.Refused?
    && (s.mode.Down? ==> DownOk(s))
    && (s.mode.Up? ==> UpOk(s))
    && (s.mode.Recovering? ==> RecoveringOk(s))
  }

  // ----- decisions ----------------------------------------------------------------------------

  lemma {:induction false} DecisionsOfRecords(recs: seq<Record>, t: TxId)
    requires Consistent(recs)
    ensures t in DecisionsOf(recs) <==> Recorded(recs, t)
    ensures Committed(DecisionsOf(recs), t) <==> CommittedIn(recs, t)
  {
    if |recs| > 0 {
      var front, r := recs[..|recs| - 1], recs[|recs| - 1];
      assert recs == front + [r];
      DecisionsOfRecords(front, t);
      if Recorded(front, t) {
        var x :| x in front && x.t == t;
        assert x in recs;
      }
      assert r in recs;
      if CommittedIn(front, t) {
        var x :| x in front && x.t == t && x.CommitRec?;
        assert x in recs;
      }
    }
  }

  lemma PrefixRecords(a: seq<Record>, b: seq<Record>)
    requires a <= b
    ensures forall r :: r in a ==> r in b
    ensures Consistent(b) ==> Consistent(a)
  {
    forall r | r in a
      ensures r in b
    {
      var i :| 0 <= i < |a| && a[i] == r;
      assert b[i] == r;
    }
  }

  lemma CommittedNotAborted(cur: seq<Record>, installed: seq<Record>, r: Record)
    requires Consistent(cur) && installed <= cur && r in cur && r.CommitRec?
    ensures !Aborted(DecisionsOf(installed), r.t)
  {
    PrefixRecords(installed, cur);
    DecisionsOfRecords(installed, r.t);
  }

  // ----- steps that change one collection ------------------------------------------------------

  lemma CoreAfterCol(s: State, c: string, col: Col)
    requires Core(s) && c in s.cols
    requires ColOk(col, c, s.hist.plan)
    requires forall r :: r in s.journal.file.cur && r.CommitRec? && c in s.hist.plan[r.t].runs ==>
               RunHeld(col, Stamped(s.hist.plan[r.t].runs[c], r.t), r.t)
    ensures Core(WithCol(s, c, col))
  {
    var cols := s.cols[c := col];
    forall r | r in s.journal.file.cur && r.CommitRec?
      ensures CommitHeld(cols, s.hist.plan, r)
    {
      assert CommitHeld(s.cols, s.hist.plan, r);
    }
  }

  /** An unlocked collection can change without disturbing any attempt. */
  lemma AttemptUnlocked(s: State, c: string, col: Col, t: TxId)
    requires s.mode.Up? && t in s.mode.attempts && AttemptOk(s, t) && c in s.cols && c !in s.mode.attempts[t].runs
    ensures AttemptOk(WithCol(s, c, col), t)
  {
    var s' := WithCol(s, c, col);
    var a := s.mode.attempts[t];
    assert AttemptFiles(t, a, s'.cols);
    assert forall j :: 0 <= j < |a.names| ==> a.names[j] in a.runs;
    assert AttemptPhase(t, a, s'.cols);
  }

  lemma UpAfterUnlocked(s: State, c: string, col: Col)
    requires s.mode.Up? && UpOk(s) && c in s.cols && !Locked(s, c)
    ensures UpOk(WithCol(s, c, col))
  {
    hide AttemptOk;
    forall t | t in s.mode.attempts
      ensures AttemptOk(WithCol(s, c, col), t)
    {
      assert c !in s.mode.attempts[t].runs;
      AttemptUnlocked(s, c, col, t);
    }
  }

  lemma PlainAppendKeeps(s: State, c: string, e: Entry, s': State)
    requires Inv(s) && Next(s, PlainAppend(c, e), s')
    ensures Inv(s')
  {
    var col := s.cols[c].(active := Push(s.cols[c].active, Line(e, None)));
    PushPlainOk(s.cols[c], c, s.hist.plan, e);
    forall r | r in s.journal.file.cur && r.CommitRec? && c in s.hist.plan[r.t].runs
      ensures RunHeld(col, Stamped(s.hist.plan[r.t].runs[c], r.t), r.t)
    {
      assert CommitHeld(s.cols, s.hist.plan, r);
      PushHeld(s.cols[c], Stamped(s.hist.plan[r.t].runs[c], r.t), r.t, Line(e, None));
    }
    CoreAfterCol(s, c, col);
    UpAfterUnlocked(s, c, col);
  }

  lemma PlainFailKeeps(s: State, c: string, s': State)
    requires Inv(s) && Next(s, PlainFail(c), s')
    ensures Inv(s')
  {
    var col := s.cols[c].(poisoned := true);
    assert ColOk(s.cols[c], c, s.hist.plan);
    forall r | r in s.journal.file.cur && r.CommitRec? && c in s.hist.plan[r.t].runs
      ensures RunHeld(col, Stamped(s.hist.plan[r.t].runs[c], r.t), r.t)
    {
      assert CommitHeld(s.cols, s.hist.plan, r);
    }
    CoreAfterCol(s, c, col);
    UpAfterUnlocked(s, c, col);
  }

  lemma PlainCutKeeps(s: State, c: string, n: nat, s': State)
    requires Inv(s) && Next(s, PlainCut(c, n), s')
    ensures Inv(s')
  {
    var col := s.cols[c].(active := Cut(s.cols[c].active, n));
    CutOk(s.cols[c], c, s.hist.plan, n);
    forall r | r in s.journal.file.cur && r.CommitRec? && c in s.hist.plan[r.t].runs
      ensures RunHeld(col, Stamped(s.hist.plan[r.t].runs[c], r.t), r.t)
    {
      assert CommitHeld(s.cols, s.hist.plan, r);
      RunOfPlain(s.cols[c].active.cur[n..], r.t);
      CutHeld(s.cols[c], Stamped(s.hist.plan[r.t].runs[c], r.t), r.t, n);
    }
    CoreAfterCol(s, c, col);
    UpAfterUnlocked(s, c, col);
  }

  lemma RotateKeeps(s: State, c: string, s': State)
    requires Inv(s) && Next(s, Rotate(c), s')
    ensures Inv(s')
  {
    var col := Col(s.cols[c].sealed + s.cols[c].active.cur, File([], {[]}), false);
    RotateOk(s.cols[c], c, s.hist.plan);
    forall r | r in s.journal.file.cur && r.CommitRec? && c in s.hist.plan[r.t].runs
      ensures RunHeld(col, Stamped(s.hist.plan[r.t].runs[c], r.t), r.t)
    {
      assert CommitHeld(s.cols, s.hist.plan, r);
      RotateHeld(s.cols[c], Stamped(s.hist.plan[r.t].runs[c], r.t), r.t);
    }
    CoreAfterCol(s, c, col);
    UpAfterUnlocked(s, c, col);
  }

  lemma CompactKeeps(s: State, c: string, n: nat, dec: Decisions, now: int, out: seq<Line>, s': State)
    requires Inv(s) && Next(s, Commit.Event.Compact(c, n, dec, now, out), s')
    ensures Inv(s')
  {
    var col := s.cols[c].(sealed := out + s.cols[c].sealed[n..]);
    var installed := s.mode.installed;
    CompactOk(s.cols[c], c, s.hist.plan, n, out, dec, now);
    assert installed <= s.journal.file.cur;
    PrefixRecords(installed, s.journal.file.cur);
    forall r | r in s.journal.file.cur && r.CommitRec? && c in s.hist.plan[r.t].runs
      ensures RunHeld(col, Stamped(s.hist.plan[r.t].runs[c], r.t), r.t)
    {
      assert CommitHeld(s.cols, s.hist.plan, r);
      CommittedNotAborted(s.journal.file.cur, installed, r);
      CompactHeld(s.cols[c], Stamped(s.hist.plan[r.t].runs[c], r.t), r.t, n, out, dec, now);
    }
    CoreAfterCol(s, c, col);
    UpAfterUnlocked(s, c, col);
  }

  /** Syncing a collection only narrows what a crash may leave. */
  lemma CoreAfterFlush(s: State, c: string)
    requires Core(s) && c in s.cols
    ensures Core(WithCol(s, c, s.cols[c].(active := Flushed(s.cols[c].active))))
  {
    var col := s.cols[c].(active := Flushed(s.cols[c].active));
    assert ColOk(s.cols[c], c, s.hist.plan);
    forall r | r in s.journal.file.cur && r.CommitRec? && c in s.hist.plan[r.t].runs
      ensures RunHeld(col, Stamped(s.hist.plan[r.t].runs[c], r.t), r.t)
    {
      assert CommitHeld(s.cols, s.hist.plan, r);
    }
    CoreAfterCol(s, c, col);
  }

  lemma SyncColAttempt(s: State, c: string, s': State, t: TxId)
    requires InPhase(s, t) && AttemptOk(s, t) && c in s.cols
    requires s' == WithCol(s, c, s.cols[c].(active := Flushed(s.cols[c].active)))
    ensures AttemptOk(s', t)
  {
    var a := s.mode.attempts[t];
    FilesSame(t, a, a, s.cols, s'.cols);
    ShapeNames(t, a, s.hist.plan);
    PhaseFlushed(t, a, s.cols, c);
    hide AttemptFiles, AttemptJournal, AttemptShape, AttemptPhase;
  }

  lemma PhaseFlushed(t: TxId, a: Attempt, cols: map<string, Col>, c: string)
    requires a.done.Keys == a.runs.Keys && DistinctNames(a.names, a.runs) && AttemptPhase(t, a, cols) && c in cols
    ensures AttemptPhase(t, a, cols[c := cols[c].(active := Flushed(cols[c].active))])
  {
    hide DistinctNames;
  }

  lemma ShapeNames(t: TxId, a: Attempt, plan: map<TxId, Plan>)
    requires AttemptShape(t, a, plan)
    ensures DistinctNames(a.names, a.runs) && a.done.Keys == a.runs.Keys && t in plan
  {
  }

  lemma UpAfterFlush(s: State, c: string, s': State)
    requires s.mode.Up? && UpOk(s) && c in s.cols
    requires s' == WithCol(s, c, s.cols[c].(active := Flushed(s.cols[c].active)))
    ensures UpOk(s')
  {
    forall t | t in s'.mode.attempts
      ensures AttemptOk(s', t)
    {
      SyncColAttempt(s, c, s', t);
    }
  }

  lemma SyncColKeeps(s: State, c: string, s': State)
    requires Inv(s) && Next(s, SyncCol(c), s')
    ensures Inv(s')
  {
    CoreAfterFlush(s, c);
    UpAfterFlush(s, c, s');
  }

  // ----- steps of one attempt ----------------------------------------------------------------------

  /** An attempt whose files, plan and journal position are unchanged stays in order. */
  lemma OtherKeeps(s: State, s': State, u: TxId)
    requires InPhase(s, u) && InPhase(s', u) && AttemptOk(s, u)
    requires s'.mode.attempts[u] == s.mode.attempts[u]
    requires u in s'.hist.plan && s'.hist.plan[u] == s.hist.plan[u] && s'.hist.plan[u].call !in s'.hist.failed
    requires forall c :: c in s.mode.attempts[u].runs ==> c in s'.cols && s'.cols[c] == s.cols[c]
    requires AttemptJournal(u, s.mode.attempts[u], s'.journal.file.cur, s'.mode.installed)
    ensures AttemptOk(s', u)
  {
    var a := s.mode.attempts[u];
    assert AttemptFiles(u, a, s'.cols);
    assert forall j :: 0 <= j < |a.names| ==> a.names[j] in a.runs;
    assert AttemptPhase(u, a, s'.cols);
  }

  /** `s'` differs from `s` only in attempt `t` and the collections it holds. */
  ghost predicate OwnStep(s: State, s': State, t: TxId) {
    && InPhase(s, t) && InPhase(s', t)
    && s'.mode == s.mode.(attempts := s.mode.attempts[t := s'.mode.attempts[t]])
    && s'.mode.attempts[t].key == s.mode.attempts[t].key && s'.mode.attempts[t].runs == s.mode.attempts[t].runs
    && s'.hist == s.hist && s'.cols.Keys == s.cols.Keys && s'.journal.file == s.journal.file
    && (forall c :: c in s.cols && c !in s.mode.attempts[t].runs ==> s'.cols[c] == s.cols[c])
  }

  lemma OwnStepOthers(s: State, s': State, t: TxId, u: TxId)
    requires OwnStep(s, s', t) && u != t && InPhase(s, u) && AttemptOk(s, u)
    requires s.mode.attempts[t].runs.Keys !! s.mode.attempts[u].runs.Keys
    ensures InPhase(s', u) && AttemptOk(s', u)
  {
    forall c | c in s.mode.attempts[u].runs
      ensures c in s'.cols && s'.cols[c] == s.cols[c]
    {
      assert c in s.mode.attempts[u].runs.Keys;
      assert c !in s.mode.attempts[t].runs.Keys;
    }
    OtherKeeps(s, s', u);
  }

  lemma ApartKeeps(s: State, s': State, t: TxId)
    requires OwnStep(s, s', t) && Apart(s) && KeysFree(s)
    requires !s'.mode.attempts[t].phase.DecisionWritten?
    requires s.mode.attempts[t].phase.Decided? ==> s'.mode.attempts[t].phase.Decided?
    ensures Apart(s') && KeysFree(s')
  {
  }

  /** The parts of `UpOk` that a step of `t` on its own files cannot touch. */
  lemma UpAfterStep(s: State, s': State, t: TxId)
    requires s.mode.Up? && UpOk(s) && OwnStep(s, s', t) && AttemptOk(s', t)
    requires !s'.mode.attempts[t].phase.DecisionWritten? && !s.mode.attempts[t].phase.DecisionWritten?
    requires s.mode.attempts[t].phase.Decided? ==> s'.mode.attempts[t].phase.Decided?
    requires s.journal.poisoned ==> s'.journal.poisoned
    requires s'.journal.poisoned ==> s.journal.poisoned || JournalFree(s)
    ensures UpOk(s')
  {
    hide AttemptOk, Installed, Apart, KeysFree;
    StepOthers(s, s', t);
    ApartKeeps(s, s', t);
    StepJournal(s, s', t);
  }

  lemma StepJournal(s: State, s': State, t: TxId)
    requires OwnStep(s, s', t) && Installed(s.journal, s.mode.installed, JournalFree(s)) && (!JournalFree(s) ==> !s.journal.poisoned)
    requires !s'.mode.attempts[t].phase.DecisionWritten? && !s.mode.attempts[t].phase.DecisionWritten?
    requires s.journal.poisoned ==> s'.journal.poisoned
    requires s'.journal.poisoned ==> s.journal.poisoned || JournalFree(s)
    ensures Installed(s'.journal, s'.mode.installed, JournalFree(s')) && (!JournalFree(s') ==> !s'.journal.poisoned)
  {
    assert JournalFree(s') <==> JournalFree(s) by {
      assert forall u :: u in s.mode.attempts && u != t ==> s'.mode.attempts[u] == s.mode.attempts[u];
    }
  }

  lemma StepOthers(s: State, s': State, t: TxId)
    requires s.mode.Up? && UpOk(s) && OwnStep(s, s', t) && AttemptOk(s', t)
    ensures forall u :: u in s'.mode.attempts ==> AttemptOk(s', u)
  {
    hide AttemptOk, Installed, KeysFree;
    forall u | u in s'.mode.attempts
      ensures AttemptOk(s', u)
    {
      if u != t {
        assert u in s.mode.attempts;
        OwnStepOthers(s, s', t, u);
      }
    }
  }

  lemma NotRecordedNotCommitted(s: State, t: TxId)
    requires Core(s) && !Recorded(s.journal.file.cur, t)
    ensures forall r :: r in s.journal.file.cur && r.CommitRec? ==> r.t != t
  {
  }

  /** A line of `t` appended to one collection leaves the committed runs there. */
  lemma AppendHeld(s: State, t: TxId, c: string, l: Line)
    requires Core(s) && c in s.cols && IsOf(l, t) && !Recorded(s.journal.file.cur, t)
    ensures forall r :: r in s.journal.file.cur && r.CommitRec? && c in s.hist.plan[r.t].runs ==>
      RunHeld(s.cols[c].(active := Push(s.cols[c].active, l)), Stamped(s.hist.plan[r.t].runs[c], r.t), r.t)
  {
    NotRecordedNotCommitted(s, t);
    var col := s.cols[c];
    hide JournalOk, HistOk, Stamped, PartsOf, RunHeld, Recorded;
    forall r | r in s.journal.file.cur && r.CommitRec? && c in s.hist.plan[r.t].runs
      ensures RunHeld(col.(active := Push(col.active, l)), Stamped(s.hist.plan[r.t].runs[c], r.t), r.t)
    {
      assert CommitHeld(s.cols, s.hist.plan, r);
      assert ColOk(col, c, s.hist.plan);
      PushHeld(col, Stamped(s.hist.plan[r.t].runs[c], r.t), r.t, l);
    }
  }

  /** Where an appending attempt stands in the collection it appends to. */
  lemma AppendPlace(s: State, t: TxId)
    requires InPhase(s, t) && AttemptOk(s, t) && s.mode.attempts[t].phase.Appending?
    ensures
      var a := s.mode.attempts[t];
      && a.phase.k < |a.names|
      && var c, i := a.names[a.phase.k], a.phase.i;
      && c in a.runs && c in s.cols && i < |a.runs[c]| == |Stamped(a.runs[c], t)| && Full(s.hist.plan, t, c) == Stamped(a.runs[c], t)
      && PrefixAppended(s.cols[c], Stamped(a.runs[c], t), t, StartOf(a, s.cols[c], c), i)
      && !Recorded(s.journal.file.cur, t)
      && forall j :: 0 <= j < |a.runs[c]| ==> IsOf(Stamped(a.runs[c], t)[j], t)
  {
    hide PrefixAppended, StartOf, Recorded;
  }

  lemma AppendOkCore(s: State, t: TxId, s': State)
    requires Core(s) && Next(s, AppendOk(t), s') && AttemptOk(s, t)
    ensures Core(s')
  {
    hide AttemptOk, RunHeld, PrefixAppended, Full, Recorded, Push, Stamped, ColOk, JournalOk, HistOk, CommitsOk;
    AppendPlace(s, t);
    var a := s.mode.attempts[t];
    var c, i := a.names[a.phase.k], a.phase.i;
    var l := Stamped(a.runs[c], t)[i];
    assert ColOk(s.cols[c], c, s.hist.plan);
    PushStampedOk(s.cols[c], c, s.hist.plan, t, StartOf(a, s.cols[c], c), i);
    AppendHeld(s, t, c, l);
    CoreAfterCol(s, c, s.cols[c].(active := Push(s.cols[c].active, l)));
  }

  /** Where an attempt's run begins and ends only depends on contents, not on what is synced or poisoned. */
  lemma FilesSame(t: TxId, a: Attempt, a': Attempt, cols: map<string, Col>, cols': map<string, Col>)
    requires a.done.Keys == a.runs.Keys && AttemptFiles(t, a, cols)
    requires a'.runs == a.runs && a'.done == a.done && cols'.Keys == cols.Keys
    requires forall c :: c in a.runs && c in cols ==>
               && cols'[c].sealed == cols[c].sealed && cols'[c].active.cur == cols[c].active.cur
               && StartOf(a', cols'[c], c) == StartOf(a, cols[c], c)
    ensures AttemptFiles(t, a', cols')
  {
    forall c | c in a'.runs
      ensures c in cols' && PrefixAppended(cols'[c], Stamped(a'.runs[c], t), t, StartOf(a', cols'[c], c), a'.done[c])
    {
      assert PrefixAppended(cols[c], Stamped(a.runs[c], t), t, StartOf(a, cols[c], c), a.done[c]);
    }
  }

  /** One collection of an attempt changes, the others stay. */
  lemma FilesOneCol(t: TxId, a: Attempt, a': Attempt, cols: map<string, Col>, c: string, col: Col)
    requires a.done.Keys == a.runs.Keys && AttemptFiles(t, a, cols) && c in a.runs
    requires a'.runs == a.runs && a'.done.Keys == a.done.Keys
    requires forall x :: x in a.runs && x != c ==> a'.done[x] == a.done[x] && (x in a'.start <==> x in a.start)
    requires forall x :: x in a.runs && x != c && x in a.start ==> a'.start[x] == a.start[x]
    requires PrefixAppended(col, Stamped(a.runs[c], t), t, StartOf(a', col, c), a'.done[c])
    ensures AttemptFiles(t, a', cols[c := col])
  {
    forall x | x in a'.runs && x != c
      ensures x in cols && PrefixAppended(cols[x], Stamped(a'.runs[x], t), t, StartOf(a', cols[x], x), a'.done[x])
    {
      assert PrefixAppended(cols[x], Stamped(a.runs[x], t), t, StartOf(a, cols[x], x), a.done[x]);
    }
  }

  /** A step that changes one of `t`'s collections and its attempt is `t`'s own. */
  lemma OwnStepHolds(s: State, t: TxId, c: string, col: Col, a': Attempt)
    requires InPhase(s, t) && c in s.cols && c in s.mode.attempts[t].runs
    requires a'.key == s.mode.attempts[t].key && a'.runs == s.mode.attempts[t].runs
    ensures OwnStep(s, WithAttempt(WithCol(s, c, col), t, a'), t)
  {
  }

  lemma AppendOkFiles(t: TxId, a: Attempt, a': Attempt, cols: map<string, Col>, c: string, i: nat)
    requires a.done.Keys == a.runs.Keys && AttemptFiles(t, a, cols) && c in a.runs && c in cols
    requires i < |a.runs[c]| && a.done[c] == i
    requires a'.runs == a.runs && a'.done == a.done[c := i + 1]
    requires a'.start == if i == 0 then a.start[c := |cols[c].active.cur|] else a.start
    ensures AttemptFiles(t, a', cols[c := cols[c].(active := Push(cols[c].active, Stamped(a.runs[c], t)[i]))])
  {
    var col, full := cols[c], Stamped(a.runs[c], t);
    var st := StartOf(a, col, c);
    assert PrefixAppended(col, full, t, st, i);
    assert |full[..i]| == i && |col.active.cur[st..]| == i;
    PushAppended(col, full, t, st, i);
    FilesOneCol(t, a, a', cols, c, col.(active := Push(col.active, full[i])));
  }

  lemma AppendPhase(a: Attempt, a': Attempt, cols: map<string, Col>, cols': map<string, Col>, t: TxId)
    requires a.done.Keys == a.runs.Keys && DistinctNames(a.names, a.runs)
    requires forall c :: c in a.runs ==> a.runs[c] != []
    requires a.phase.Appending? && AttemptPhase(t, a, cols)
    requires a'.names == a.names && a'.runs == a.runs
    requires a'.phase == NextAppend(a) && a'.done == a.done[a.names[a.phase.k] := a.phase.i + 1]
    ensures a'.done.Keys == a'.runs.Keys && AttemptPhase(t, a', cols')
  {
    if a'.phase.Syncing? {
      forall c | c in a.runs
        ensures a'.done[c] == |a.runs[c]|
      {
        assert c in a.names;
        var j :| 0 <= j < |a.names| && a.names[j] == c;
      }
    }
  }

  lemma AppendOkKeeps(s: State, t: TxId, s': State)
    requires Inv(s) && Next(s, AppendOk(t), s')
    ensures Inv(s')
  {
    AppendOkCore(s, t, s');
    assert AttemptOk(s, t);
    AppendOkAttempt(s, t, s');
    UpAfterStep(s, s', t);
  }

  lemma AppendTarget(s: State, t: TxId, s': State)
    requires AppendOkStep(s, t, s') && AttemptShape(t, s.mode.attempts[t], s.hist.plan)
    requires AttemptPhase(t, s.mode.attempts[t], s.cols)
    ensures
      var a, a' := s.mode.attempts[t], s'.mode.attempts[t];
      var c, i := a.names[a.phase.k], a.phase.i;
      && c in a.runs && i < |a.runs[c]| && a.done[c] == i
      && s'.cols == s.cols[c := s.cols[c].(active := Push(s.cols[c].active, Stamped(a.runs[c], t)[i]))]
      && a'.done == a.done[c := i + 1] && a'.start == (if i == 0 then a.start[c := |s.cols[c].active.cur|] else a.start)
      && AttemptShape(t, a', s'.hist.plan)
      && s' == WithAttempt(WithCol(s, c, s'.cols[c]), t, a')
  {
  }

  lemma AppendOkAttempt(s: State, t: TxId, s': State)
    requires AppendOkStep(s, t, s') && AttemptOk(s, t)
    ensures OwnStep(s, s', t) && AttemptOk(s', t)
    ensures !s'.mode.attempts[t].phase.DecisionWritten?
  {
    hide AttemptFiles, AttemptPhase, OwnStep, AttemptShape, Stamped, Push;
    var a, a' := s.mode.attempts[t], s'.mode.attempts[t];
    var c, i := a.names[a.phase.k], a.phase.i;
    AppendTarget(s, t, s');
    OwnStepHolds(s, t, c, s'.cols[c], a');
    AppendShape(t, a, s.hist.plan);
    AppendOkFiles(t, a, a', s.cols, c, i);
    AppendPhase(a, a', s.cols, s'.cols, t);
  }

  lemma AppendShape(t: TxId, a: Attempt, plan: map<TxId, Plan>)
    requires AttemptShape(t, a, plan)
    ensures a.done.Keys == a.runs.Keys && DistinctNames(a.names, a.runs) && (forall c :: c in a.runs ==> a.runs[c] != [])
  {
  }

  lemma CorePoisoned(s: State, c: string, poisoned: bool)
    requires Core(s) && c in s.cols
    ensures Core(WithCol(s, c, s.cols[c].(poisoned := poisoned)))
  {
    var col := s.cols[c].(poisoned := poisoned);
    assert ColOk(s.cols[c], c, s.hist.plan);
    forall r | r in s.journal.file.cur && r.CommitRec? && c in s.hist.plan[r.t].runs
      ensures RunHeld(col, Stamped(s.hist.plan[r.t].runs[c], r.t), r.t)
    {
      assert CommitHeld(s.cols, s.hist.plan, r);
    }
    CoreAfterCol(s, c, col);
  }

  /** Poisoning a segment changes no content. */
  lemma PoisonedFiles(t: TxId, a: Attempt, a': Attempt, cols: map<string, Col>, c: string, poisoned: bool)
    requires a.done.Keys == a.runs.Keys && AttemptFiles(t, a, cols) && c in a.runs && c in cols
    requires a'.runs == a.runs && a'.done == a.done
    requires a'.start == a.start || (a'.start == a.start[c := |cols[c].active.cur|] && a.done[c] == 0)
    ensures AttemptFiles(t, a', cols[c := cols[c].(poisoned := poisoned)])
  {
    var col := cols[c];
    var st := StartOf(a, col, c);
    assert PrefixAppended(col, Stamped(a.runs[c], t), t, st, a.done[c]);
    assert |col.active.cur[st..]| == a.done[c];
    FilesSame(t, a, a', cols, cols[c := col.(poisoned := poisoned)]);
  }

  lemma PoisonedAttempt(s: State, t: TxId, c: string, poisoned: bool, phase: Phase, start: map<string, nat>, s': State)
    requires InPhase(s, t) && AttemptOk(s, t) && c in s.mode.attempts[t].runs
    requires phase.Aborting? || (phase.RollingBack? && phase.k < |s.mode.attempts[t].names|)
    requires !s.mode.attempts[t].phase.Decided? && !s.mode.attempts[t].phase.DecisionWritten?
    requires start == s.mode.attempts[t].start ||
             (start == s.mode.attempts[t].start[c := |s.cols[c].active.cur|] && s.mode.attempts[t].done[c] == 0)
    requires s' == WithAttempt(WithCol(s, c, s.cols[c].(poisoned := poisoned)), t,
                               s.mode.attempts[t].(phase := phase, start := start))
    ensures OwnStep(s, s', t) && AttemptOk(s', t)
  {
    var a, a' := s.mode.attempts[t], s'.mode.attempts[t];
    OwnStepHolds(s, t, c, s'.cols[c], a');
    PoisonedFiles(t, a, a', s.cols, c, poisoned);
    assert AttemptShape(t, a', s'.hist.plan);
  }

  lemma AppendFailKeeps(s: State, t: TxId, poison: bool, s': State)
    requires Inv(s) && Next(s, AppendFail(t, poison), s')
    ensures Inv(s')
  {
    assert AttemptOk(s, t);
    var a := s.mode.attempts[t];
    var c := a.names[a.phase.k];
    CorePoisoned(s, c, s.cols[c].poisoned || poison);
    PoisonedAttempt(s, t, c, s.cols[c].poisoned || poison, RollingBack(0), s'.mode.attempts[t].start, s');
    UpAfterStep(s, s', t);
  }

  lemma SyncOkAttempt(s: State, t: TxId, s': State)
    requires Next(s, SyncOk(t), s') && AttemptOk(s, t)
    ensures OwnStep(s, s', t) && AttemptOk(s', t)
  {
    hide AttemptPhase, PrefixAppended;
    var a, a' := s.mode.attempts[t], s'.mode.attempts[t];
    FilesSame(t, a, a', s.cols, s'.cols);
    SyncOkPhase(s, t, s');
  }

  lemma SyncOkPhase(s: State, t: TxId, s': State)
    requires Next(s, SyncOk(t), s')
    requires AttemptShape(t, s.mode.attempts[t], s.hist.plan) && AttemptPhase(t, s.mode.attempts[t], s.cols)
    ensures AttemptShape(t, s'.mode.attempts[t], s'.hist.plan) && AttemptPhase(t, s'.mode.attempts[t], s'.cols)
  {
    var a, a' := s.mode.attempts[t], s'.mode.attempts[t];
    forall j | 0 <= j < a.phase.k + 1
      ensures a.names[j] in s'.cols && SyncedCol(s'.cols[a.names[j]])
    {
      assert j < a.phase.k ==> SyncedCol(s.cols[a.names[j]]);
    }
    if a'.phase.Deciding? {
      forall x | x in a.runs
        ensures x in s'.cols && SyncedCol(s'.cols[x])
      {
        assert x in a.names;
        var j :| 0 <= j < |a.names| && a.names[j] == x;
      }
    }
  }

  lemma SyncOkKeeps(s: State, t: TxId, s': State)
    requires Inv(s) && Next(s, SyncOk(t), s')
    ensures Inv(s')
  {
    var a := s.mode.attempts[t];
    CoreAfterFlush(s, a.names[a.phase.k]);
    SyncOkAttempt(s, t, s');
    UpAfterStep(s, s', t);
  }

  lemma SyncFailKeeps(s: State, t: TxId, s': State)
    requires Inv(s) && Next(s, SyncFail(t), s')
    ensures Inv(s')
  {
    assert AttemptOk(s, t);
    var a := s.mode.attempts[t];
    var c := a.names[a.phase.k];
    CorePoisoned(s, c, true);
    PoisonedAttempt(s, t, c, true, RollingBack(0), a.start, s');
    UpAfterStep(s, s', t);
  }

  lemma DecideFailKeeps(s: State, t: TxId, poison: bool, s': State)
    requires Inv(s) && Next(s, DecideFail(t, poison), s')
    ensures Inv(s')
  {
    DecideFailAttempt(s, t, poison, s');
    UpAfterStep(s, s', t);
  }

  lemma DecideFailAttempt(s: State, t: TxId, poison: bool, s': State)
    requires DecideFailStep(s, t, poison, s') && AttemptOk(s, t)
    ensures OwnStep(s, s', t) && AttemptOk(s', t)
  {
    FilesSame(t, s.mode.attempts[t], s'.mode.attempts[t], s.cols, s'.cols);
  }

  lemma RollbackFiles(t: TxId, a: Attempt, a': Attempt, cols: map<string, Col>, c: string)
    requires a.done.Keys == a.runs.Keys && AttemptFiles(t, a, cols) && c in a.runs && c in cols && c in a.start
    requires a'.runs == a.runs && a'.done == a.done[c := 0] && a'.start == a.start
    ensures a.start[c] <= |cols[c].active.cur|
    ensures AttemptFiles(t, a', cols[c := cols[c].(active := Cut(cols[c].active, a.start[c]))])
    ensures forall i :: a.start[c] <= i < |cols[c].active.cur| ==> IsOf(cols[c].active.cur[i], t)
  {
    var col, n := cols[c], a.start[c];
    var v := col.active.cur;
    var full := Stamped(a.runs[c], t);
    assert PrefixAppended(col, full, t, n, a.done[c]);
    hide AttemptFiles;
    assert v[..n][..n] == v[..n];
    assert v[..n][n..] == [] == full[..0];
    FilesOneCol(t, a, a', cols, c, col.(active := Cut(col.active, n)));
    forall i | n <= i < |v|
      ensures IsOf(v[i], t)
    {
      assert v[i] == v[n..][i - n];
    }
  }

  lemma RollbackOkAttempt(s: State, t: TxId, c: string, phase: Phase, s': State)
    requires InPhase(s, t) && AttemptOk(s, t) && c in s.mode.attempts[t].runs && c in s.mode.attempts[t].start
    requires s.mode.attempts[t].start[c] <= |s.cols[c].active.cur|
    requires phase.Aborting? || (phase.RollingBack? && phase.k < |s.mode.attempts[t].names|)
    requires s.mode.attempts[t].phase.RollingBack?
    requires s' == WithAttempt(WithCol(s, c, s.cols[c].(active := Cut(s.cols[c].active, s.mode.attempts[t].start[c]))), t,
                               s.mode.attempts[t].(phase := phase, done := s.mode.attempts[t].done[c := 0]))
    ensures OwnStep(s, s', t) && AttemptOk(s', t)
  {
    hide OwnStep, PrefixAppended;
    var a, a' := s.mode.attempts[t], s'.mode.attempts[t];
    OwnStepHolds(s, t, c, s'.cols[c], a');
    RollbackFiles(t, a, a', s.cols, c);
    assert AttemptShape(t, a', s'.hist.plan);
  }

  lemma RollbackOkKeeps(s: State, t: TxId, c: string, phase: Phase, s': State)
    requires Inv(s) && InPhase(s, t) && c in s.mode.attempts[t].runs && c in s.mode.attempts[t].start && c in s.cols
    requires s.mode.attempts[t].start[c] <= |s.cols[c].active.cur|
    requires phase.Aborting? || (phase.RollingBack? && phase.k < |s.mode.attempts[t].names|)
    requires s.mode.attempts[t].phase.RollingBack?
    requires s' == WithAttempt(WithCol(s, c, s.cols[c].(active := Cut(s.cols[c].active, s.mode.attempts[t].start[c]))), t,
                               s.mode.attempts[t].(phase := phase, done := s.mode.attempts[t].done[c := 0]))
    ensures Inv(s')
  {
    assert AttemptOk(s, t);
    var a := s.mode.attempts[t];
    RollbackFiles(t, a, s'.mode.attempts[t], s.cols, c);
    NotRecordedNotCommitted(s, t);
    RollbackCore(s, t, c, a.start[c]);
    RollbackOkAttempt(s, t, c, phase, s');
    UpAfterStep(s, s', t);
  }

  lemma RollbackSkipKeeps(s: State, t: TxId, c: string, poisoned: bool, phase: Phase, s': State)
    requires Inv(s) && InPhase(s, t) && c in s.mode.attempts[t].runs && c in s.cols
    requires phase.Aborting? || (phase.RollingBack? && phase.k < |s.mode.attempts[t].names|)
    requires s.mode.attempts[t].phase.RollingBack?
    requires s' == WithAttempt(WithCol(s, c, s.cols[c].(poisoned := poisoned)), t, s.mode.attempts[t].(phase := phase))
    ensures Inv(s')
  {
    assert AttemptOk(s, t);
    CorePoisoned(s, c, poisoned);
    PoisonedAttempt(s, t, c, poisoned, phase, s.mode.attempts[t].start, s');
    UpAfterStep(s, s', t);
  }

  lemma RollbackCases(s: State, t: TxId, ok: bool, c: string, phase: Phase, s': State)
    requires RollbackStep(s, t, ok, s') && AttemptShape(t, s.mode.attempts[t], s.hist.plan)
    requires c == s.mode.attempts[t].names[s.mode.attempts[t].phase.k]
    requires phase == if s.mode.attempts[t].phase.k + 1 < |s.mode.attempts[t].names|
                      then RollingBack(s.mode.attempts[t].phase.k + 1) else Aborting
    ensures
      var a := s.mode.attempts[t];
      && c in a.runs && c in s.cols
      && if c in a.start && !s.cols[c].poisoned && ok then
           && a.start[c] <= |s.cols[c].active.cur|
           && s' == WithAttempt(WithCol(s, c, s.cols[c].(active := Cut(s.cols[c].active, a.start[c]))), t,
                                a.(phase := phase, done := a.done[c := 0]))
         else
           s' == WithAttempt(WithCol(s, c, s.cols[c].(poisoned := s.cols[c].poisoned || c in a.start)), t, a.(phase := phase))
  {
    assert s.cols[c := s.cols[c]] == s.cols;
  }

  lemma RollbackKeeps(s: State, t: TxId, ok: bool, s': State)
    requires Inv(s) && Next(s, Rollback(t, ok), s')
    ensures Inv(s')
  {
    var a := s.mode.attempts[t];
    var c := a.names[a.phase.k];
    var next := if a.phase.k + 1 < |a.names| then RollingBack(a.phase.k + 1) else Aborting;
    assert AttemptShape(t, a, s.hist.plan) by { assert AttemptOk(s, t); }
    RollbackCases(s, t, ok, c, next, s');
    if c in a.start && !s.cols[c].poisoned && ok {
      RollbackOkKeeps(s, t, c, next, s');
    } else {
      RollbackSkipKeeps(s, t, c, s.cols[c].poisoned || c in a.start, next, s');
    }
  }

  /** Cutting back an undecided run removes nothing of any other transaction. */
  lemma RollbackCore(s: State, t: TxId, c: string, n: nat)
    requires Core(s) && c in s.cols && n <= |s.cols[c].active.cur|
    requires !CommittedIn(s.journal.file.cur, t)
    requires forall i :: n <= i < |s.cols[c].active.cur| ==> IsOf(s.cols[c].active.cur[i], t)
    ensures Core(WithCol(s, c, s.cols[c].(active := Cut(s.cols[c].active, n))))
  {
    var col := s.cols[c].(active := Cut(s.cols[c].active, n));
    CutOk(s.cols[c], c, s.hist.plan, n);
    RunOfBlock(s.cols[c].active.cur[n..], t);
    forall r | r in s.journal.file.cur && r.CommitRec? && c in s.hist.plan[r.t].runs
      ensures RunHeld(col, Stamped(s.hist.plan[r.t].runs[c], r.t), r.t)
    {
      assert CommitHeld(s.cols, s.hist.plan, r);
      assert r.t != t;
      CutHeld(s.cols[c], Stamped(s.hist.plan[r.t].runs[c], r.t), r.t, n);
    }
    CoreAfterCol(s, c, col);
  }
}
