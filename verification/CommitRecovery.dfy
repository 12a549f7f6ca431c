/** The steps of the commit protocol that write the journal, crash or recover. */
module CommitRecovery {
  import opened Values
  import opened Log
  import opened Compaction
  import opened Commit
  import opened CommitFiles
  import opened CommitInvariant

  // ----- beginning an attempt ------------------------------------------------------------------

  lemma NewTxUntraced(s: State, t: TxId, c: string)
    requires Core(s) && t !in s.hist.plan && c in s.cols
    ensures Run(s.cols[c].sealed, t) == [] && Run(s.cols[c].active.cur, t) == []
  {
    assert ColOk(s.cols[c], c, s.hist.plan);
    assert TraceOk(s.cols[c].sealed, s.cols[c].active.cur, Full(s.hist.plan, t, c), t);
    RunConcat(s.cols[c].sealed, s.cols[c].active.cur, t);
  }

  lemma BeginCore(s: State, t: TxId, p: Plan)
    requires Core(s) && t !in s.hist.plan && p.call == s.hist.calls
    ensures Core(s.(hist := History(s.hist.plan[t := p], s.hist.acked, s.hist.failed, s.hist.calls + 1)))
  {
    var plan := s.hist.plan[t := p];
    forall c | c in s.cols
      ensures ColOk(s.cols[c], c, plan)
    {
      assert ColOk(s.cols[c], c, s.hist.plan);
      forall v, u | v in s.cols[c].active.versions
        ensures TraceOk(s.cols[c].sealed, v, Full(plan, u, c), u)
      {
        assert TraceOk(s.cols[c].sealed, v, Full(s.hist.plan, u, c), u);
      }
    }
    forall r | r in s.journal.file.cur && r.CommitRec?
      ensures CommitHeld(s.cols, plan, r)
    {
      assert CommitHeld(s.cols, s.hist.plan, r);
    }
  }

  lemma BeginAttempt(s: State, t: TxId, key: string, names: seq<string>, runs: Runs, s': State)
    requires Core(s) && BeginStep(s, t, key, names, runs, s') && t !in s.hist.plan
    ensures AttemptOk(s', t)
  {
    var a := s'.mode.attempts[t];
    forall c | c in runs
      ensures c in s'.cols && PrefixAppended(s'.cols[c], Stamped(runs[c], t), t, StartOf(a, s'.cols[c], c), a.done[c])
    {
      NewTxUntraced(s, t, c);
      assert s.cols[c].active.cur[..|s.cols[c].active.cur|] == s.cols[c].active.cur;
    }
    assert AttemptFiles(t, a, s'.cols);
    assert AttemptPhase(t, a, s'.cols) by {
      assert forall j :: 0 <= j < |names| ==> names[j] in runs;
    }
  }

  lemma BeginOthers(s: State, t: TxId, key: string, names: seq<string>, runs: Runs, s': State)
    requires BeginStep(s, t, key, names, runs, s') && t !in s.hist.plan
    requires forall u :: u in s.mode.attempts ==> AttemptOk(s, u)
    ensures forall u :: u in s.mode.attempts ==> u != t && AttemptOk(s', u)
  {
    forall u | u in s.mode.attempts
      ensures u != t && AttemptOk(s', u)
    {
      assert AttemptOk(s, u);
      assert u != t;
      OtherKeeps(s, s', u);
    }
  }

  lemma BeginApart(s: State, t: TxId, key: string, names: seq<string>, runs: Runs, s': State)
    requires BeginStep(s, t, key, names, runs, s') && Apart(s) && t !in s.mode.attempts
    ensures Apart(s') && (JournalFree(s') <==> JournalFree(s))
  {
    forall u | u in s.mode.attempts
      ensures s.mode.attempts[u].runs.Keys !! runs.Keys
    {
      forall c | c in runs
        ensures c !in s.mode.attempts[u].runs
      {
        assert !Locked(s, c);
      }
    }
    assert forall u :: u in s.mode.attempts ==> s'.mode.attempts[u] == s.mode.attempts[u];
  }

  lemma BeginKeysFree(s: State, t: TxId, key: string, names: seq<string>, runs: Runs, s': State)
    requires BeginStep(s, t, key, names, runs, s') && KeysFree(s) && t !in s.mode.attempts
    ensures KeysFree(s')
  {
    assert forall u :: u in s.mode.attempts ==> s'.mode.attempts[u] == s.mode.attempts[u];
  }

  lemma BeginUp(s: State, t: TxId, key: string, names: seq<string>, runs: Runs, s': State)
    requires BeginStep(s, t, key, names, runs, s') && UpOk(s) && t !in s.mode.attempts
    requires AttemptOk(s', t) && forall u :: u in s.mode.attempts ==> AttemptOk(s', u)
    ensures UpOk(s')
  {
    hide AttemptOk, Apart, KeysFree, JournalFree, Installed;
    BeginApart(s, t, key, names, runs, s');
    BeginKeysFree(s, t, key, names, runs, s');
  }

  lemma BeginKeeps(s: State, t: TxId, key: string, names: seq<string>, runs: Runs, s': State)
    requires Inv(s) && BeginStep(s, t, key, names, runs, s')
    ensures Inv(s')
  {
    hide AttemptOk, Core, Apart, KeysFree, Installed, JournalFree;
    assert t !in s.hist.plan;
    BeginCore(s, t, Plan(key, runs, s.hist.calls));
    BeginAttempt(s, t, key, names, runs, s');
    BeginOthers(s, t, key, names, runs, s');
    BeginUp(s, t, key, names, runs, s');
    BeginCoreSame(s, t, Plan(key, runs, s.hist.calls), s');
  }

  /** The invariant's core does not look at the attempts in progress. */
  lemma BeginCoreSame(s: State, t: TxId, p: Plan, s': State)
    requires Core(s.(hist := History(s.hist.plan[t := p], s.hist.acked, s.hist.failed, s.hist.calls + 1)))
    requires s'.cols == s.cols && s'.journal == s.journal
    requires s'.hist == History(s.hist.plan[t := p], s.hist.acked, s.hist.failed, s.hist.calls + 1)
    ensures Core(s')
  {
    hide FilesOk, CommitsOk, JournalOk, PlansCover, HistOk;
  }

  // ----- writing the journal ---------------------------------------------------------------------

  lemma PushedJournal(j: Journal, r: Record, poisoned: bool)
    requires JournalOk(j) && !Recorded(j.file.cur, r.t)
    requires r.CommitRec? && r.key != "" ==> forall x :: x in j.file.cur && x.CommitRec? ==> x.key != r.key
    ensures JournalOk(Journal(Push(j.file, r), poisoned))
    ensures JournalOk(Journal(Flushed(Push(j.file, r)), poisoned))
  {
    var cur := j.file.cur + [r];
    assert forall x :: x in cur <==> x in j.file.cur || x == r;
  }

  /** A fully appended and synced run is held whatever a crash leaves. */
  lemma SyncedRunHeld(col: Col, full: seq<Line>, t: TxId, start: nat)
    requires PrefixAppended(col, full, t, start, |full|) && SyncedCol(col)
    requires forall i :: 0 <= i < |full| ==> IsOf(full[i], t)
    ensures RunHeld(col, full, t)
  {
    var v := col.active.cur;
    assert full[..|full|] == full;
    RunCut(v, start, t);
    RunOfBlock(v[start..], t);
    RunConcat(col.sealed, v, t);
  }

  lemma DecidedRecordHeld(s: State, t: TxId)
    requires InPhase(s, t) && AttemptOk(s, t) && s.mode.attempts[t].phase.Deciding?
    ensures CommitHeld(s.cols, s.hist.plan, CommitRec(t, s.mode.attempts[t].key, PartsOf(s.mode.attempts[t].runs, t)))
  {
    var a := s.mode.attempts[t];
    forall c | c in a.runs
      ensures c in s.cols && RunHeld(s.cols[c], Stamped(a.runs[c], t), t)
    {
      assert PrefixAppended(s.cols[c], Stamped(a.runs[c], t), t, StartOf(a, s.cols[c], c), a.done[c]);
      SyncedRunHeld(s.cols[c], Stamped(a.runs[c], t), t, StartOf(a, s.cols[c], c));
    }
  }

  lemma CoreAfterRecord(s: State, r: Record, j: Journal)
    requires Core(s) && r.t in s.hist.plan && !Recorded(s.journal.file.cur, r.t)
    requires r.CommitRec? ==> CommitHeld(s.cols, s.hist.plan, r)
    requires r.CommitRec? ==> s.hist.plan[r.t].call !in s.hist.failed
    requires r.CommitRec? && r.key != "" ==> forall x :: x in s.journal.file.cur && x.CommitRec? ==> x.key != r.key
    requires j.file == Push(s.journal.file, r) || j.file == Flushed(Push(s.journal.file, r))
    ensures Core(s.(journal := j))
  {
    PushedJournal(s.journal, r, j.poisoned);
    var old_, cur := s.journal.file.cur, j.file.cur;
    assert forall x :: x in cur <==> x in old_ || x == r;
    forall t, v | t in s.hist.acked && v in j.file.versions
      ensures CommittedIn(v, t)
    {
      if v == cur {
        var x :| x in old_ && x.t == t && x.CommitRec?;
        assert x in v;
      }
    }
  }

  lemma DecideOthers(s: State, t: TxId, s': State)
    requires s.mode.Up? && UpOk(s) && DecideStep(s, t, s')
    ensures forall u :: u != t && u in s'.mode.attempts ==> AttemptOk(s', u)
  {
    forall u | u != t && u in s'.mode.attempts
      ensures AttemptOk(s', u)
    {
      assert AttemptOk(s, u);
      OtherKeeps(s, s', u);
    }
  }

  lemma DecideAttempt(s: State, t: TxId, s': State)
    requires InPhase(s, t) && AttemptOk(s, t) && DecideStep(s, t, s') && s.journal.file.cur == s.mode.installed
    ensures AttemptOk(s', t)
  {
    hide AttemptFiles, AttemptShape, AttemptPhase, PartsOf, Stamped;
    var a, a' := s.mode.attempts[t], s'.mode.attempts[t];
    ShapeNames(t, a, s.hist.plan);
    FilesSame(t, a, a', s.cols, s'.cols);
    PhaseMoves(t, a, a', s.cols, s.hist.plan);
  }

  /** From deciding on the files stay as they are. */
  lemma PhaseMoves(t: TxId, a: Attempt, a': Attempt, cols: map<string, Col>, plan: map<TxId, Plan>)
    requires AttemptShape(t, a, plan) && AttemptPhase(t, a, cols) && a' == a.(phase := a'.phase)
    requires a.phase.Deciding? || a.phase.DecisionWritten?
    requires a'.phase.DecisionWritten? || a'.phase.Decided?
    ensures AttemptShape(t, a', plan) && AttemptPhase(t, a', cols)
  {
    hide DistinctNames, SyncedCol;
  }

  lemma DecideApart(s: State, t: TxId, s': State)
    requires s.mode.Up? && DecideStep(s, t, s') && Apart(s) && KeysFree(s)
    ensures Apart(s') && KeysFree(s') && !JournalFree(s')
  {
    assert s'.mode.attempts[t].phase.DecisionWritten?;
  }

  lemma DecideCore(s: State, t: TxId, s': State)
    requires Core(s) && InPhase(s, t) && AttemptOk(s, t) && KeysFree(s) && DecideStep(s, t, s')
    requires s.journal.file.cur == s.mode.installed
    ensures Core(s')
  {
    var a := s.mode.attempts[t];
    DecidedRecordHeld(s, t);
    CoreAfterRecord(s, CommitRec(t, a.key, PartsOf(a.runs, t)), s'.journal);
  }

  lemma DecideStart(s: State, t: TxId, s': State)
    requires s.mode.Up? && Installed(s.journal, s.mode.installed, JournalFree(s)) && DecideStep(s, t, s')
    ensures s.journal.file.cur == s.mode.installed && s.journal.file.versions == {s.journal.file.cur}
  {
  }

  lemma DecideInstalled(s: State, t: TxId, s': State)
    requires s.mode.Up? && Installed(s.journal, s.mode.installed, JournalFree(s)) && DecideStep(s, t, s') && !JournalFree(s')
    ensures Installed(s'.journal, s'.mode.installed, JournalFree(s')) && !s'.journal.poisoned
  {
    hide PartsOf;
  }

  lemma DecideKeeps(s: State, t: TxId, s': State)
    requires Inv(s) && DecideStep(s, t, s')
    ensures Inv(s')
  {
    hide Core, AttemptOk, Apart, KeysFree, Installed, AttemptJournal, PartsOf;
    assert AttemptOk(s, t);
    DecideStart(s, t, s');
    DecideCore(s, t, s');
    DecideOthers(s, t, s');
    DecideAttempt(s, t, s');
    DecideApart(s, t, s');
    DecideInstalled(s, t, s');
  }

  lemma DurableOthers(s: State, t: TxId, s': State)
    requires s.mode.Up? && UpOk(s) && DurableStep(s, t, s')
    ensures forall u :: u != t && u in s'.mode.attempts ==> AttemptOk(s', u)
  {
    forall u | u != t && u in s'.mode.attempts
      ensures AttemptOk(s', u)
    {
      assert AttemptOk(s, u);
      OtherKeeps(s, s', u);
    }
  }

  lemma DurableApart(s: State, t: TxId, s': State)
    requires s.mode.Up? && DurableStep(s, t, s') && Apart(s) && KeysFree(s)
    ensures JournalFree(s') && Apart(s') && KeysFree(s')
  {
    var r := s'.mode.installed[|s.mode.installed|];
    assert forall x :: x in s'.mode.installed <==> x in s.mode.installed || x == r;
  }

  lemma DurableAttempt(s: State, t: TxId, s': State)
    requires InPhase(s, t) && AttemptOk(s, t) && DurableStep(s, t, s')
    ensures AttemptOk(s', t)
  {
    hide AttemptFiles, AttemptShape, AttemptPhase, PartsOf, Stamped;
    var a, a' := s.mode.attempts[t], s'.mode.attempts[t];
    ShapeNames(t, a, s.hist.plan);
    FilesSame(t, a, a', s.cols, s'.cols);
    PhaseMoves(t, a, a', s.cols, s.hist.plan);
  }

  lemma CoreAfterJournalSync(s: State)
    requires Core(s)
    ensures Core(s.(journal := s.journal.(file := Flushed(s.journal.file))))
  {
  }

  lemma DurableKeeps(s: State, t: TxId, s': State)
    requires Inv(s) && DurableStep(s, t, s')
    ensures Inv(s')
  {
    assert AttemptOk(s, t);
    assert s'.mode.installed == s'.journal.file.cur;
    CoreAfterJournalSync(s);
    DurableOthers(s, t, s');
    DurableApart(s, t, s');
    DurableAttempt(s, t, s');
  }

  /** Finishing an attempt leaves the others in order. */
  lemma FinishOthers(s: State, t: TxId, s': State)
    requires s.mode.Up? && s'.mode.Up? && t in s.mode.attempts && s'.mode.attempts == s.mode.attempts - {t}
    requires forall u :: u in s.mode.attempts ==> AttemptOk(s, u)
    requires s'.cols == s.cols && s'.hist.plan == s.hist.plan
    requires forall u :: u in s.mode.attempts && u != t && u in s.hist.plan ==> s.hist.plan[u].call !in s'.hist.failed
    requires forall u :: u in s.mode.attempts && u != t ==>
               AttemptJournal(u, s.mode.attempts[u], s'.journal.file.cur, s'.mode.installed)
    ensures forall u :: u in s'.mode.attempts ==> AttemptOk(s', u)
  {
    forall u | u in s'.mode.attempts
      ensures AttemptOk(s', u)
    {
      assert AttemptOk(s, u);
      OtherKeeps(s, s', u);
    }
  }

  lemma DurableFailUp(s: State, t: TxId, s': State)
    requires s.mode.Up? && UpOk(s) && DurableFailStep(s, t, s')
    ensures UpOk(s')
  {
    hide AttemptFiles, AttemptPhase, DistinctNames;
    forall u | u in s.mode.attempts && u != t
      ensures AttemptJournal(u, s.mode.attempts[u], s'.journal.file.cur, s'.mode.installed)
      ensures u in s.hist.plan && s.hist.plan[u].call !in s'.hist.failed
    {
      assert AttemptOk(s, u);
    }
    FinishOthers(s, t, s');
    assert JournalFree(s');
  }

  lemma DurableFailKeeps(s: State, t: TxId, s': State)
    requires Inv(s) && DurableFailStep(s, t, s')
    ensures Inv(s')
  {
    hide UpOk;
    DurableFailUp(s, t, s');
  }

  lemma AcknowledgeCore(s: State, t: TxId, r: Record, s': State)
    requires Core(s) && AcknowledgeStep(s, t, s') && r in s.mode.installed && r.CommitRec? && r.t == t
    requires forall v :: v in s.journal.file.versions ==> s.mode.installed <= v
    ensures Core(s')
  {
    forall v | v in s.journal.file.versions
      ensures CommittedIn(v, t)
    {
      PrefixRecords(s.mode.installed, v);
      assert r in v;
    }
  }

  lemma AcknowledgeJournal(s: State, t: TxId, s': State, u: TxId)
    requires s.mode.Up? && AcknowledgeStep(s, t, s') && u in s.mode.attempts && u != t && AttemptOk(s, u)
    ensures AttemptJournal(u, s.mode.attempts[u], s'.journal.file.cur, s'.mode.installed)
    ensures u in s.hist.plan && s.hist.plan[u].call !in s'.hist.failed
  {
    hide AttemptFiles, AttemptPhase, DistinctNames;
  }

  lemma AcknowledgeOthers(s: State, t: TxId, s': State)
    requires s.mode.Up? && UpOk(s) && AcknowledgeStep(s, t, s')
    ensures forall u :: u in s'.mode.attempts ==> AttemptOk(s', u)
  {
    hide AttemptOk, AttemptJournal, KeysFree, Apart, Installed;
    forall u | u in s.mode.attempts && u != t
      ensures AttemptJournal(u, s.mode.attempts[u], s'.journal.file.cur, s'.mode.installed)
      ensures u in s.hist.plan && s.hist.plan[u].call !in s'.hist.failed
    {
      AcknowledgeJournal(s, t, s', u);
    }
    FinishOthers(s, t, s');
  }

  lemma AcknowledgeRest(s: State, t: TxId, s': State)
    requires s.mode.Up? && Apart(s) && KeysFree(s) && AcknowledgeStep(s, t, s')
    ensures s'.mode.Up? && Apart(s') && KeysFree(s') && (JournalFree(s') <==> JournalFree(s))
  {
    assert forall u :: u in s.mode.attempts && u != t ==> u in s'.mode.attempts;
  }

  lemma AcknowledgeUp(s: State, t: TxId, s': State)
    requires s.mode.Up? && UpOk(s) && AcknowledgeStep(s, t, s')
    ensures UpOk(s')
  {
    hide AttemptOk, KeysFree, Apart, Installed, JournalFree;
    AcknowledgeOthers(s, t, s');
    AcknowledgeRest(s, t, s');
  }

  lemma AcknowledgeKeeps(s: State, t: TxId, s': State)
    requires Inv(s) && AcknowledgeStep(s, t, s')
    ensures Inv(s')
  {
    var a := s.mode.attempts[t];
    var r := CommitRec(t, a.key, PartsOf(a.runs, t));
    assert r in s.mode.installed by { assert AttemptOk(s, t); }
    AcknowledgeCore(s, t, r, s');
    AcknowledgeUp(s, t, s');
  }

  lemma GiveUpCore(s: State, t: TxId, w: JournalWrite, s': State)
    requires Core(s) && GiveUpStep(s, t, w, s')
    requires AttemptOk(s, t)
    ensures Core(s')
  {
    var r := AbortRec(t, s.mode.attempts[t].key);
    var s1 := s.(journal := s'.journal);
    if !w.NotWritten? {
      CoreAfterRecord(s, r, s'.journal);
    }
    assert Core(s1);
    assert !CommittedIn(s'.journal.file.cur, t);
  }

  /** What an attempt needs of the journal survives an abort record of another one. */
  lemma GiveUpJournal(s: State, t: TxId, w: JournalWrite, s': State, u: TxId)
    requires s.mode.Up? && UpOk(s) && HistOk(s.journal, s.hist) && GiveUpStep(s, t, w, s') && u in s.mode.attempts && u != t
    ensures AttemptJournal(u, s.mode.attempts[u], s'.journal.file.cur, s'.mode.installed)
    ensures u in s.hist.plan && s.hist.plan[u].call !in s'.hist.failed
  {
    hide AttemptFiles, AttemptPhase, DistinctNames, KeysFree;
    assert AttemptOk(s, t) && AttemptOk(s, u);
  }

  lemma GiveUpOthers(s: State, t: TxId, w: JournalWrite, s': State)
    requires s.mode.Up? && UpOk(s) && HistOk(s.journal, s.hist) && GiveUpStep(s, t, w, s')
    ensures forall u :: u in s'.mode.attempts ==> AttemptOk(s', u)
  {
    hide AttemptOk, AttemptJournal, HistOk, KeysFree, Apart, Installed;
    forall u | u in s.mode.attempts && u != t
      ensures AttemptJournal(u, s.mode.attempts[u], s'.journal.file.cur, s'.mode.installed)
      ensures u in s.hist.plan && s.hist.plan[u].call !in s'.hist.failed
    {
      GiveUpJournal(s, t, w, s', u);
    }
    FinishOthers(s, t, s');
  }

  lemma GiveUpKeeps(s: State, t: TxId, w: JournalWrite, s': State)
    requires Inv(s) && GiveUpStep(s, t, w, s')
    ensures Inv(s')
  {
    hide AttemptOk;
    GiveUpCore(s, t, w, s');
    GiveUpOthers(s, t, w, s');
    GiveUpInstalled(s, t, w, s');
  }

  lemma GiveUpInstalled(s: State, t: TxId, w: JournalWrite, s': State)
    requires s.mode.Up? && UpOk(s) && GiveUpStep(s, t, w, s')
    ensures Installed(s'.journal, s'.mode.installed, true) && JournalFree(s')
    ensures Apart(s') && KeysFree(s')
  {
    var r := AbortRec(t, s.mode.attempts[t].key);
    assert forall x :: x in s.mode.installed + [r] <==> x in s.mode.installed || x == r;
  }

  // ----- crashing and recovering ---------------------------------------------------------------------

  lemma CrashFiles(s: State, left: map<string, seq<Line>>, journalLeft: seq<Record>, s': State)
    requires FilesOk(s.cols, s.hist.plan) && CrashStep(s, left, journalLeft, s')
    ensures FilesOk(s'.cols, s.hist.plan)
  {
    hide TraceOk, Full;
    forall c | c in s'.cols
      ensures ColOk(s'.cols[c], c, s.hist.plan)
    {
      assert ColOk(s.cols[c], c, s.hist.plan);
    }
  }

  lemma CrashHeld(cols: map<string, Col>, cols': map<string, Col>, plan: map<TxId, Plan>, r: Record)
    requires r.CommitRec? && CommitHeld(cols, plan, r)
    requires cols'.Keys == cols.Keys
    requires forall c :: c in cols ==> cols'[c].sealed == cols[c].sealed && cols'[c].active.versions <= cols[c].active.versions
    ensures CommitHeld(cols', plan, r)
  {
    hide Run, Stamped, PartsOf;
  }

  lemma CrashCommits(s: State, left: map<string, seq<Line>>, journalLeft: seq<Record>, s': State)
    requires CommitsOk(s.cols, s.hist.plan, s.journal.file.cur) && JournalOk(s.journal) && CrashStep(s, left, journalLeft, s')
    ensures CommitsOk(s'.cols, s.hist.plan, journalLeft)
  {
    hide CommitHeld, Consistent, KeysOnce;
    PrefixRecords(journalLeft, s.journal.file.cur);
    forall r | r in journalLeft && r.CommitRec?
      ensures CommitHeld(s'.cols, s.hist.plan, r)
    {
      CrashHeld(s.cols, s'.cols, s.hist.plan, r);
    }
  }

  lemma CrashJournal(j: Journal, journalLeft: seq<Record>, plan: map<TxId, Plan>)
    requires JournalOk(j) && PlansCover(plan, j.file.cur) && journalLeft in j.file.versions
    ensures JournalOk(Journal(File(journalLeft, {journalLeft}), false)) && PlansCover(plan, journalLeft)
  {
    PrefixRecords(journalLeft, j.file.cur);
  }

  lemma CrashHist(j: Journal, journalLeft: seq<Record>, hist: History)
    requires JournalOk(j) && HistOk(j, hist) && journalLeft in j.file.versions
    ensures HistOk(Journal(File(journalLeft, {journalLeft}), false), hist)
  {
    hide Consistent, KeysOnce;
    PrefixRecords(journalLeft, j.file.cur);
    forall t | CommittedIn(journalLeft, t)
      ensures CommittedIn(j.file.cur, t)
    {
      var r :| r in journalLeft && r.t == t && r.CommitRec?;
      assert r in j.file.cur;
    }
  }

  lemma CrashKeeps(s: State, left: map<string, seq<Line>>, journalLeft: seq<Record>, s': State)
    requires Inv(s) && CrashStep(s, left, journalLeft, s')
    ensures Inv(s')
  {
    hide FilesOk, CommitsOk, JournalOk, PlansCover, HistOk, UpOk, RecoveringOk;
    CrashFiles(s, left, journalLeft, s');
    CrashCommits(s, left, journalLeft, s');
    CrashJournal(s.journal, journalLeft, s.hist.plan);
    CrashHist(s.journal, journalLeft, s.hist);
  }

  lemma TracedIsPlanned(s: State, t: TxId)
    requires Core(s) && Traced(s, t)
    ensures t in s.hist.plan
  {
    if !Recorded(s.journal.file.cur, t) {
      var c :| c in s.cols && Run(s.cols[c].sealed + s.cols[c].active.cur, t) != [];
      assert ColOk(s.cols[c], c, s.hist.plan);
      assert TraceOk(s.cols[c].sealed, s.cols[c].active.cur, Full(s.hist.plan, t, c), t);
    }
  }

  lemma OpenCore(s: State, next: nat, pending: set<TxId>, s': State)
    requires Core(s) && DownOk(s) && OpenStep(s, next, pending, s')
    ensures Core(s')
  {
    var plan := s'.hist.plan;
    forall c | c in s.cols
      ensures ColOk(s.cols[c], c, plan)
    {
      assert ColOk(s.cols[c], c, s.hist.plan);
      forall v, t | v in s.cols[c].active.versions
        ensures TraceOk(s.cols[c].sealed, v, Full(plan, t, c), t)
      {
        assert v == s.cols[c].active.cur;
        assert TraceOk(s.cols[c].sealed, v, Full(s.hist.plan, t, c), t);
        if Run(s.cols[c].sealed + v, t) != [] {
          assert Traced(s, t);
        }
      }
    }
    forall r | r in s.journal.file.cur
      ensures r.t in plan && plan[r.t] == s.hist.plan[r.t]
      ensures r.CommitRec? ==> CommitHeld(s.cols, plan, r)
    {
      assert Recorded(s.journal.file.cur, r.t);
      assert Traced(s, r.t);
      assert r.CommitRec? ==> CommitHeld(s.cols, s.hist.plan, r);
    }
  }

  lemma OpenScan(s: State, next: nat, pending: set<TxId>, s': State)
    requires Core(s') && DownOk(s) && OpenStep(s, next, pending, s')
    ensures ScanOk(s')
  {
    forall c, t | c in s'.cols && Run(s'.mode.scan[c], t) != []
      ensures Full(s'.hist.plan, t, c) != []
    {
      assert ColOk(s'.cols[c], c, s'.hist.plan);
      assert TraceOk(s'.cols[c].sealed, s'.cols[c].active.cur, Full(s'.hist.plan, t, c), t);
    }
    forall r, c | r in s'.journal.file.cur && r.CommitRec? && r.t in s'.hist.plan && c in s'.hist.plan[r.t].runs
      ensures c in s'.cols && Run(s'.mode.scan[c], r.t) == Stamped(s'.hist.plan[r.t].runs[c], r.t)
    {
      assert CommitHeld(s'.cols, s'.hist.plan, r);
      assert ColOk(s'.cols[c], c, s'.hist.plan);
    }
  }

  lemma OpenKeeps(s: State, next: nat, pending: set<TxId>, s': State)
    requires Inv(s) && OpenStep(s, next, pending, s')
    ensures Inv(s')
  {
    OpenCore(s, next, pending, s');
    OpenScan(s, next, pending, s');
    forall t | t in pending
      ensures t in s'.hist.plan
    {
      TracedIsPlanned(s, t);
    }
  }

  lemma RecTruncateKeeps(s: State, t: TxId, c: string, s': State)
    requires Inv(s) && RecTruncateStep(s, t, c, s')
    ensures Inv(s')
  {
    var v := s.cols[c].active.cur;
    assert ColOk(s.cols[c], c, s.hist.plan);
    assert TraceOk(s.cols[c].sealed, v, Full(s.hist.plan, t, c), t);
    TailBlock(v, t);
    PrefixRecords(s.mode.table, s.journal.file.cur);
    DecisionsOfRecords(s.mode.table, t);
    RollbackCore(s, t, c, FirstOf(v, t));
  }

  lemma RecSyncKeeps(s: State, c: string, s': State)
    requires Inv(s) && Next(s, RecSync(c), s')
    ensures Inv(s')
  {
    CoreAfterFlush(s, c);
  }

  lemma RecAbortCore(s: State, t: TxId, w: JournalWrite, s': State)
    requires Inv(s) && RecAbortStep(s, t, w, s')
    ensures Core(s')
  {
    hide ScanOk, FilesOk, CommitsOk;
    if !w.NotWritten? {
      assert s.journal.file.cur == s.mode.table;
      DecisionsOfRecords(s.mode.table, t);
      CoreAfterRecord(s, AbortRec(t, ""), s'.journal);
    }
    assert Core(s.(journal := s'.journal));
  }

  lemma RecAbortMode(s: State, t: TxId, w: JournalWrite, s': State)
    requires s.mode.Recovering? && RecoveringOk(s) && RecAbortStep(s, t, w, s')
    ensures RecoveringOk(s')
  {
    var r := AbortRec(t, "");
    hide Run, Full, DecisionsOf, Stamped;
    assert forall x :: x in s.journal.file.cur + [r] <==> x in s.journal.file.cur || x == r;
    assert forall x :: x in s.mode.table + [r] <==> x in s.mode.table || x == r;
    assert Installed(s'.journal, s'.mode.table, true);
    assert ScanOk(s');
  }

  lemma RecAbortKeeps(s: State, t: TxId, w: JournalWrite, s': State)
    requires Inv(s) && RecAbortStep(s, t, w, s')
    ensures Inv(s')
  {
    hide Core, RecoveringOk, DecisionsOf;
    RecAbortCore(s, t, w, s');
    RecAbortMode(s, t, w, s');
  }

  lemma StampedComplete(es: seq<Entry>, t: TxId)
    requires es != []
    ensures CompleteRun(Stamped(es, t))
  {
  }

  /** Recovery finds every run a COMMIT record names: complete, in order, with matching length and digest. */
  lemma EvidenceFound(s: State, r: Record)
    requires Inv(s) && s.mode.Recovering? && r in s.mode.table && r.CommitRec?
    ensures EvidenceOk(r.t, r.parts, s.mode.scan)
  {
    PrefixRecords(s.mode.table, s.journal.file.cur);
    assert CommitHeld(s.cols, s.hist.plan, r);
    var runs := s.hist.plan[r.t].runs;
    forall c | c in r.parts
      ensures c in s.mode.scan && CompleteRun(Run(s.mode.scan[c], r.t))
      ensures |Run(s.mode.scan[c], r.t)| == r.parts[c].n && Refs(Run(s.mode.scan[c], r.t)) == r.parts[c].digest
    {
      assert c in runs;
      StampedComplete(runs[c], r.t);
    }
  }

  lemma RecCheckKeeps(s: State, t: TxId, s': State)
    requires Inv(s) && RecCheckStep(s, t, s')
    ensures Inv(s')
  {
    var r :| && r in s.mode.table && r.t == t && r.CommitRec?
             && s' == if EvidenceOk(t, r.parts, s.mode.scan)
                      then s.(mode := s.mode.(pending := s.mode.pending - {t}))
                      else s.(mode := Refused);
    EvidenceFound(s, r);
  }

  lemma RecDoneKeeps(s: State, s': State)
    requires Inv(s) && Next(s, RecDone, s')
    ensures Inv(s')
  {
  }

  lemma RecSkipKeeps(s: State, t: TxId, s': State)
    requires Inv(s) && Next(s, RecSkip(t), s')
    ensures Inv(s')
  {
  }
}
