/** A commit whose writes and syncs go through is acknowledged, and leaves exactly what the caller gave. */
module CommitProgress {
  import opened Values
  import opened Log
  import opened Compaction
  import opened Commit
  import opened CommitFiles
  import opened CommitInvariant
  import opened CommitSafety
  import opened CommitReissue

  // ----- a commit under way --------------------------------------------------------------------------------

  /** The active segment has gained the first `n` entries, in order, each stamped with its place. */
  ghost predicate Gained(was: Col, col: Col, es: seq<Entry>, t: TxId, n: nat)
    requires n <= |es|
  {
    && col.sealed == was.sealed && !col.poisoned
    && |col.active.cur| == |was.active.cur| + n && was.active.cur <= col.active.cur
    && forall i :: 0 <= i < n ==>
         var l := col.active.cur[|was.active.cur| + i];
         l.entry == es[i] && l.tx == Some(Stamp(t, i, |es|))
  }

  /** Since `was` only the attempt `t` has moved, and only by appending to its participants. */
  ghost predicate Underway(was: State, s: State, t: TxId, key: string, names: seq<string>, runs: Runs) {
    && was.mode.Up? && s.mode.Up? && t in s.mode.attempts && t !in was.mode.attempts && JournalFree(was) && !was.journal.poisoned
    && s.epoch == was.epoch && s.journal == was.journal && s.mode.installed == was.mode.installed
    && s.mode.attempts - {t} == was.mode.attempts
    && s.hist == History(was.hist.plan[t := Plan(key, runs, was.hist.calls)], was.hist.acked, was.hist.failed, was.hist.calls + 1)
    && var a := s.mode.attempts[t];
    && a.key == key && a.names == names && a.runs == runs && a.done.Keys == runs.Keys
    && ColsMoved(was.cols, s.cols, t, runs, a.done)
  }

  ghost predicate ColsMoved(was: map<string, Col>, cols: map<string, Col>, t: TxId, runs: Runs, done: map<string, nat>)
    requires done.Keys == runs.Keys
  {
    && cols.Keys == was.Keys
    && (forall c :: c in cols && c !in runs ==> cols[c] == was[c])
    && (forall c :: c in runs ==> c in cols && done[c] <= |runs[c]| && Gained(was[c], cols[c], runs[c], t, done[c]))
  }

  lemma BeginMoves(was: State, t: TxId, key: string, names: seq<string>, runs: Runs, s: State)
    requires Inv(was) && Next(was, Begin(t, key, names, runs), s) && JournalFree(was)
    ensures Underway(was, s, t, key, names, runs) && s.mode.attempts[t].phase == Appending(0, 0)
  {
    hide Core, AttemptOk, Apart, KeysFree, Installed, Locked, DistinctNames;
    assert t !in was.mode.attempts by {
      if t in was.mode.attempts {
        Shaped(was, t);
      }
    }
    assert s.mode.attempts - {t} == was.mode.attempts;
  }

  lemma Shaped(s: State, t: TxId)
    requires InPhase(s, t) && AttemptOk(s, t)
    ensures t in s.hist.plan && AttemptShape(t, s.mode.attempts[t], s.hist.plan) && AttemptPhase(t, s.mode.attempts[t], s.cols)
  {
  }

  lemma OwnPhase(s: State, t: TxId)
    requires Inv(s) && InPhase(s, t)
    ensures AttemptShape(t, s.mode.attempts[t], s.hist.plan) && AttemptPhase(t, s.mode.attempts[t], s.cols)
  {
    hide Core, AttemptOk, Apart, KeysFree, Installed;
    Shaped(s, t);
  }

  // ----- appending -----------------------------------------------------------------------------------------

  lemma GainedNext(was: Col, col: Col, es: seq<Entry>, t: TxId, n: nat)
    requires n < |es| && Gained(was, col, es, t, n)
    ensures Gained(was, col.(active := Push(col.active, Stamped(es, t)[n])), es, t, n + 1)
  {
    var next := Push(col.active, Stamped(es, t)[n]);
    forall i | 0 <= i < n + 1
      ensures next.cur[|was.active.cur| + i].entry == es[i] && next.cur[|was.active.cur| + i].tx == Some(Stamp(t, i, |es|))
    {
      if i < n {
        assert next.cur[|was.active.cur| + i] == col.active.cur[|was.active.cur| + i];
      }
    }
  }

  /** Appending to one participant, or syncing it, keeps the rest of the picture. */
  lemma ColMoves(was: State, s: State, t: TxId, key: string, names: seq<string>, runs: Runs, c: string, col: Col, a: Attempt)
    requires Underway(was, s, t, key, names, runs) && c in runs
    requires a.key == key && a.names == names && a.runs == runs && c in a.done && a.done == s.mode.attempts[t].done[c := a.done[c]]
    requires c in was.cols && a.done[c] <= |runs[c]| && Gained(was.cols[c], col, runs[c], t, a.done[c])
    ensures Underway(was, WithAttempt(WithCol(s, c, col), t, a), t, key, names, runs)
  {
    hide Gained, JournalFree, ColsMoved;
    var s' := WithAttempt(WithCol(s, c, col), t, a);
    assert s'.mode.attempts - {t} == s.mode.attempts - {t};
    MovedNext(was.cols, s.cols, t, runs, s.mode.attempts[t].done, c, col, a.done);
  }

  lemma MovedNext(was: map<string, Col>, cols: map<string, Col>, t: TxId, runs: Runs, done: map<string, nat>, c: string, col: Col,
                  done': map<string, nat>)
    requires done.Keys == runs.Keys && c in runs && c in done' && done' == done[c := done'[c]]
    requires c in was && ColsMoved(was, cols, t, runs, done) && done'[c] <= |runs[c]| && Gained(was[c], col, runs[c], t, done'[c])
    ensures ColsMoved(was, cols[c := col], t, runs, done')
  {
    hide Gained;
  }

  lemma ColThere(was: State, s: State, t: TxId, key: string, names: seq<string>, runs: Runs, c: string)
    requires Underway(was, s, t, key, names, runs) && c in runs
    ensures c in s.cols && c in was.cols && !s.cols[c].poisoned
    ensures
      var done := s.mode.attempts[t].done;
      c in done && done[c] <= |runs[c]| && Gained(was.cols[c], s.cols[c], runs[c], t, done[c])
  {
    hide JournalFree;
  }

  lemma AppendPlace(s: State, t: TxId)
    requires InPhase(s, t) && s.mode.attempts[t].phase.Appending? && AttemptShape(t, s.mode.attempts[t], s.hist.plan)
    requires AttemptPhase(t, s.mode.attempts[t], s.cols)
    ensures
      var a := s.mode.attempts[t];
      && a.phase.k < |a.names| && a.names[a.phase.k] in a.runs && a.phase.i < |a.runs[a.names[a.phase.k]]|
      && a.names[a.phase.k] in a.done && a.done[a.names[a.phase.k]] == a.phase.i
  {
    assert s.mode.attempts[t].names[s.mode.attempts[t].phase.k] in s.mode.attempts[t].names;
  }

  ghost function AppendedTo(a: Attempt, c: string, i: nat, size: nat): Attempt
    requires a.phase.Appending? && a.phase.k < |a.names| && a.names[a.phase.k] in a.runs
  {
    a.(phase := NextAppend(a), done := a.done[c := i + 1], start := if i == 0 then a.start[c := size] else a.start)
  }

  lemma AppendMoves(was: State, s: State, t: TxId, key: string, names: seq<string>, runs: Runs) returns (s': State)
    requires Inv(s) && Underway(was, s, t, key, names, runs) && s.mode.attempts[t].phase.Appending?
    ensures Next(s, AppendOk(t), s') && Underway(was, s', t, key, names, runs)
    ensures
      var a := s.mode.attempts[t];
      && a.phase.k < |names| && names[a.phase.k] in runs && a.phase.i < |runs[names[a.phase.k]]|
      && s'.mode.attempts[t].phase == NextAppend(a)
  {
    hide *;
    NamedIs(was, s, t, key, names, runs);
    OwnPhase(s, t);
    AppendPlace(s, t);
    var a := s.mode.attempts[t];
    var c, i := names[a.phase.k], a.phase.i;
    ColThere(was, s, t, key, names, runs, c);
    AppendEnabled(s, t);
    AppendGains(was.cols[c], s.cols[c], runs[c], t, i);
    DoneNext(a, c, i, |s.cols[c].active.cur|);
    ColMoves(was, s, t, key, names, runs, c, LineAdded(s.cols[c], runs[c], t, i), AppendedTo(a, c, i, |s.cols[c].active.cur|));
    s' := AppendedFrom(s, t);
    AppendedIs(s, t);
  }

  lemma NamedIs(was: State, s: State, t: TxId, key: string, names: seq<string>, runs: Runs)
    requires Underway(was, s, t, key, names, runs)
    ensures InPhase(s, t) && s.mode.Up? && t in s.mode.attempts
    ensures s.mode.attempts[t].names == names && s.mode.attempts[t].runs == runs && s.mode.attempts[t].key == key
  {
    hide ColsMoved, JournalFree;
  }

  ghost function LineAdded(col: Col, es: seq<Entry>, t: TxId, i: nat): Col
    requires i < |es|
  {
    col.(active := Push(col.active, StampedAt(es, t, i)))
  }

  lemma AppendGains(was: Col, col: Col, es: seq<Entry>, t: TxId, i: nat)
    requires i < |es| && Gained(was, col, es, t, i)
    ensures Gained(was, LineAdded(col, es, t, i), es, t, i + 1)
  {
    hide Gained;
    GainedNext(was, col, es, t, i);
  }

  lemma DoneNext(a: Attempt, c: string, i: nat, size: nat)
    requires a.phase.Appending? && a.phase.k < |a.names| && a.names[a.phase.k] in a.runs
    ensures
      var a' := AppendedTo(a, c, i, size);
      a'.key == a.key && a'.names == a.names && a'.runs == a.runs && a'.done == a.done[c := i + 1] && a'.phase == NextAppend(a)
  {
  }

  /** Where the attempt stands when it appends. */
  ghost predicate AtAppend(s: State, t: TxId) {
    && InPhase(s, t) && s.mode.attempts[t].phase.Appending?
    && var a := s.mode.attempts[t];
    && a.phase.k < |a.names| && a.names[a.phase.k] in a.runs && a.phase.i < |a.runs[a.names[a.phase.k]]|
    && a.names[a.phase.k] in s.cols
  }

  ghost function AppendedFrom(s: State, t: TxId): State
    requires AtAppend(s, t)
  {
    var a := s.mode.attempts[t];
    var c := a.names[a.phase.k];
    WithAttempt(WithCol(s, c, LineAdded(s.cols[c], a.runs[c], t, a.phase.i)), t, AppendedTo(a, c, a.phase.i, |s.cols[c].active.cur|))
  }

  ghost function StampedAt(es: seq<Entry>, t: TxId, i: nat): Line
    requires i < |es|
    ensures i < |Stamped(es, t)| && StampedAt(es, t, i) == Stamped(es, t)[i]
  {
    Stamped(es, t)[i]
  }

  lemma AppendEnabled(s: State, t: TxId)
    requires InPhase(s, t) && s.mode.attempts[t].phase.Appending?
    requires
      var a := s.mode.attempts[t];
      && a.phase.k < |a.names| && a.names[a.phase.k] in a.runs && a.phase.i < |a.runs[a.names[a.phase.k]]|
      && a.names[a.phase.k] in s.cols && !s.cols[a.names[a.phase.k]].poisoned
    ensures AtAppend(s, t) && Next(s, AppendOk(t), AppendedFrom(s, t))
  {
    hide Stamped, Push, NextAppend;
    assert AppendOkStep(s, t, AppendedFrom(s, t));
  }

  lemma AppendedIs(s: State, t: TxId)
    requires AtAppend(s, t)
    ensures
      var a := s.mode.attempts[t];
      var c := a.names[a.phase.k];
      AppendedFrom(s, t) ==
        WithAttempt(WithCol(s, c, LineAdded(s.cols[c], a.runs[c], t, a.phase.i)), t, AppendedTo(a, c, a.phase.i, |s.cols[c].active.cur|))
    ensures AppendedFrom(s, t).mode.Up? && t in AppendedFrom(s, t).mode.attempts
    ensures AppendedFrom(s, t).mode.attempts[t].phase == NextAppend(s.mode.attempts[t])
  {
    hide LineAdded, NextAppend;
  }

  lemma {:induction false} AllAppend(was: State, s: State, t: TxId, key: string, names: seq<string>, runs: Runs, k: nat, i: nat)
    returns (ss: seq<State>, es: seq<Event>)
    requires Inv(s) && Underway(was, s, t, key, names, runs) && s.mode.attempts[t].phase == Appending(k, i)
    ensures Path(ss, es) && |ss| == |es| + 1 && ss[0] == s
    ensures Inv(ss[|es|]) && Underway(was, ss[|es|], t, key, names, runs) && ss[|es|].mode.attempts[t].phase == Syncing(0)
    decreases |names| - k, if k < |names| && names[k] in runs then |runs[names[k]]| - i else 0
  {
    hide Inv, Underway, Next, Path;
    var s' := AppendMoves(was, s, t, key, names, runs);
    StepKeepsInv(s, AppendOk(t), s');
    NamedIs(was, s', t, key, names, runs);
    if s'.mode.attempts[t].phase.Syncing? {
      PathStep(s, AppendOk(t), s');
      ss, es := [s, s'], [AppendOk(t)];
    } else {
      ss, es := AllAppend(was, s', t, key, names, runs, s'.mode.attempts[t].phase.k, s'.mode.attempts[t].phase.i);
      ss, es := PathCons(s, AppendOk(t), ss, es);
    }
  }

  // ----- syncing -------------------------------------------------------------------------------------------

  lemma SyncMoves(was: State, s: State, t: TxId, key: string, names: seq<string>, runs: Runs) returns (s': State)
    requires Inv(s) && Underway(was, s, t, key, names, runs) && s.mode.attempts[t].phase.Syncing?
    ensures Next(s, SyncOk(t), s') && Underway(was, s', t, key, names, runs)
    ensures
      var k := s.mode.attempts[t].phase.k;
      k < |names| && s'.mode.attempts[t].phase == if k + 1 < |names| then Syncing(k + 1) else Deciding
  {
    hide *;
    NamedIs(was, s, t, key, names, runs);
    OwnPhase(s, t);
    SyncPlace(s, t);
    var a := s.mode.attempts[t];
    var c := names[a.phase.k];
    ColThere(was, s, t, key, names, runs, c);
    SyncEnabled(s, t);
    SyncGains(was.cols[c], s.cols[c], runs[c], t, a.done[c]);
    assert a.done[c := a.done[c]] == a.done;
    ColMoves(was, s, t, key, names, runs, c, FlatCol(s.cols[c]), SyncedTo(a));
    s' := FlatFrom(s, t);
  }

  lemma SyncPlace(s: State, t: TxId)
    requires InPhase(s, t) && s.mode.attempts[t].phase.Syncing? && AttemptShape(t, s.mode.attempts[t], s.hist.plan)
    requires AttemptPhase(t, s.mode.attempts[t], s.cols)
    ensures
      var a := s.mode.attempts[t];
      a.phase.k < |a.names| && a.names[a.phase.k] in a.runs
  {
    assert s.mode.attempts[t].names[s.mode.attempts[t].phase.k] in s.mode.attempts[t].names;
  }

  ghost function FlatCol(col: Col): Col {
    col.(active := Flushed(col.active))
  }

  ghost function SyncedTo(a: Attempt): (r: Attempt)
    requires a.phase.Syncing?
    ensures r == a.(phase := r.phase)
  {
    a.(phase := if a.phase.k + 1 < |a.names| then Syncing(a.phase.k + 1) else Deciding)
  }

  ghost predicate AtSync(s: State, t: TxId) {
    && InPhase(s, t) && s.mode.attempts[t].phase.Syncing?
    && s.mode.attempts[t].phase.k < |s.mode.attempts[t].names| && s.mode.attempts[t].names[s.mode.attempts[t].phase.k] in s.cols
  }

  ghost function FlatFrom(s: State, t: TxId): State
    requires AtSync(s, t)
  {
    var a := s.mode.attempts[t];
    var c := a.names[a.phase.k];
    WithAttempt(WithCol(s, c, FlatCol(s.cols[c])), t, SyncedTo(a))
  }

  lemma SyncGains(was: Col, col: Col, es: seq<Entry>, t: TxId, n: nat)
    requires n <= |es| && Gained(was, col, es, t, n)
    ensures Gained(was, FlatCol(col), es, t, n)
  {
  }

  lemma SyncEnabled(s: State, t: TxId)
    requires InPhase(s, t) && s.mode.attempts[t].phase.Syncing?
    requires
      var a := s.mode.attempts[t];
      a.phase.k < |a.names| && a.names[a.phase.k] in s.cols && !s.cols[a.names[a.phase.k]].poisoned
    ensures AtSync(s, t) && Next(s, SyncOk(t), FlatFrom(s, t))
    ensures
      var a, s' := s.mode.attempts[t], FlatFrom(s, t);
      && s' == WithAttempt(WithCol(s, a.names[a.phase.k], FlatCol(s.cols[a.names[a.phase.k]])), t, SyncedTo(a))
      && s'.mode.Up? && t in s'.mode.attempts
      && s'.mode.attempts[t].phase == if a.phase.k + 1 < |a.names| then Syncing(a.phase.k + 1) else Deciding
  {
    assert SyncOkStep(s, t, FlatFrom(s, t));
  }

  lemma {:induction false} AllSync(was: State, s: State, t: TxId, key: string, names: seq<string>, runs: Runs, k: nat)
    returns (ss: seq<State>, es: seq<Event>)
    requires Inv(s) && Underway(was, s, t, key, names, runs) && s.mode.attempts[t].phase == Syncing(k)
    ensures Path(ss, es) && |ss| == |es| + 1 && ss[0] == s
    ensures Inv(ss[|es|]) && Underway(was, ss[|es|], t, key, names, runs) && ss[|es|].mode.attempts[t].phase.Deciding?
    decreases |names| - k
  {
    hide Inv, Underway, Next, Path;
    var s' := SyncMoves(was, s, t, key, names, runs);
    StepKeepsInv(s, SyncOk(t), s');
    NamedIs(was, s', t, key, names, runs);
    if s'.mode.attempts[t].phase.Deciding? {
      PathStep(s, SyncOk(t), s');
      ss, es := [s, s'], [SyncOk(t)];
    } else {
      ss, es := AllSync(was, s', t, key, names, runs, k + 1);
      ss, es := PathCons(s, SyncOk(t), ss, es);
    }
  }

  // ----- deciding ------------------------------------------------------------------------------------------

  /** What a COMMIT record says of the participants: how many entries each got, and which. */
  ghost predicate Describes(parts: map<string, Part>, runs: Runs) {
    && parts.Keys == runs.Keys
    && forall c :: c in runs ==>
         && parts[c].n == |parts[c].digest| == |runs[c]|
         && forall i :: 0 <= i < |runs[c]| ==> parts[c].digest[i] == OpRef(runs[c][i].id, runs[c][i].op, runs[c][i].rev)
  }

  /** The whole effect of a commit: its runs at the ends of the active segments, one record, one acknowledgement. */
  ghost predicate Landed(was: State, s: State, t: TxId, key: string, runs: Runs) {
    && s.mode.Up? && was.mode.Up? && s.mode.attempts == was.mode.attempts && s.epoch == was.epoch
    && s.cols.Keys == was.cols.Keys
    && (forall c :: c in s.cols && c !in runs ==> s.cols[c] == was.cols[c])
    && (forall c :: c in runs ==> c in s.cols && Gained(was.cols[c], s.cols[c], runs[c], t, |runs[c]|))
    && s.hist.acked == was.hist.acked + {t} && s.hist.failed == was.hist.failed
    && exists parts ::
         && Describes(parts, runs)
         && s.journal.file.cur == was.journal.file.cur + [CommitRec(t, key, parts)]
         && s.mode.installed == was.mode.installed + [CommitRec(t, key, parts)]
  }

  lemma PartsDescribe(runs: Runs, t: TxId)
    ensures Describes(PartsOf(runs, t), runs)
  {
  }

  ghost function DecidedFrom(s: State, t: TxId): State
    requires InPhase(s, t)
  {
    var a := s.mode.attempts[t];
    WithAttempt(s.(journal := s.journal.(file := Push(s.journal.file, CommitRec(t, a.key, PartsOf(a.runs, t))))), t,
                a.(phase := DecisionWritten))
  }

  ghost function SyncedFrom(s: State, t: TxId): State
    requires InPhase(s, t)
  {
    var a := s.mode.attempts[t];
    var s1 := WithAttempt(s.(journal := s.journal.(file := Flushed(s.journal.file))), t, a.(phase := Decided));
    s1.(mode := s1.mode.(installed := s.mode.installed + [CommitRec(t, a.key, PartsOf(a.runs, t))]))
  }

  ghost function AckedFrom(s: State, t: TxId): State
    requires InPhase(s, t)
  {
    WithoutAttempt(s, t).(hist := s.hist.(acked := s.hist.acked + {t}))
  }

  lemma NoneDeciding(was: State, s: State, t: TxId, key: string, names: seq<string>, runs: Runs)
    requires Underway(was, s, t, key, names, runs) && s.mode.attempts[t].phase.Deciding?
    ensures JournalFree(s)
  {
    forall u | u in s.mode.attempts
      ensures !s.mode.attempts[u].phase.DecisionWritten?
    {
      if u != t {
        assert u in s.mode.attempts - {t} && (s.mode.attempts - {t})[u] == was.mode.attempts[u];
      }
    }
  }

  lemma DecisionLands(was: State, s: State, t: TxId, key: string, names: seq<string>, runs: Runs)
    requires Underway(was, s, t, key, names, runs) && AllAppended(s.mode.attempts[t])
    ensures Landed(was, AckedFrom(SyncedFrom(DecidedFrom(s, t), t), t), t, key, runs)
  {
    hide Gained, JournalFree, Describes, PartsOf;
    PartsDescribe(runs, t);
    var z := AckedFrom(SyncedFrom(DecidedFrom(s, t), t), t);
    assert z.mode.attempts == s.mode.attempts - {t};
    var r := CommitRec(t, key, PartsOf(runs, t));
    assert z.journal.file.cur == was.journal.file.cur + [r];
  }

  lemma DecideEnabled(s: State, t: TxId)
    requires InPhase(s, t) && s.mode.attempts[t].phase.Deciding? && JournalFree(s) && !s.journal.poisoned
    ensures Next(s, Decide(t), DecidedFrom(s, t)) && InPhase(DecidedFrom(s, t), t)
    ensures
      var s1 := DecidedFrom(s, t);
      Next(s1, Durable(t), SyncedFrom(s1, t)) && InPhase(SyncedFrom(s1, t), t)
    ensures
      var s2 := SyncedFrom(DecidedFrom(s, t), t);
      Next(s2, Acknowledge(t), AckedFrom(s2, t))
  {
    hide JournalFree, PartsOf;
    var s1 := DecidedFrom(s, t);
    var s2 := SyncedFrom(s1, t);
    assert DecideStep(s, t, s1);
    assert DurableStep(s1, t, s2);
    assert AcknowledgeStep(s2, t, AckedFrom(s2, t));
  }

  lemma Decides(was: State, s: State, t: TxId, key: string, names: seq<string>, runs: Runs) returns (ss: seq<State>, es: seq<Event>)
    requires Inv(s) && Underway(was, s, t, key, names, runs) && s.mode.attempts[t].phase.Deciding?
    ensures Path(ss, es) && |ss| == |es| + 1 && ss[0] == s && Landed(was, ss[|es|], t, key, runs)
  {
    NoneDeciding(was, s, t, key, names, runs);
    OwnPhase(s, t);
    DecisionLands(was, s, t, key, names, runs);
    assert !s.journal.poisoned;
    hide *;
    DecideEnabled(s, t);
    var s1 := DecidedFrom(s, t);
    var s2 := SyncedFrom(s1, t);
    var s3 := AckedFrom(s2, t);
    PathStep(s2, Acknowledge(t), s3);
    ss, es := PathCons(s1, Durable(t), [s2, s3], [Acknowledge(t)]);
    ss, es := PathCons(s, Decide(t), ss, es);
  }

  // ----- the theorems ----------------------------------------------------------------------------------------

  /**
   From every reachable state in which a commit may begin and the journal is not mid-decision, the commit can run to
   its acknowledgement, and then every participant has gained exactly the entries the caller gave, in order.
   */
  lemma CommitSucceeds(ss: seq<State>, es: seq<Event>, i: nat, t: TxId, key: string, names: seq<string>, runs: Runs, s': State)
    returns (ps: seq<State>, pe: seq<Event>)
    requires IsRun(ss, es) && i < |ss| && Next(ss[i], Begin(t, key, names, runs), s') && JournalFree(ss[i])
    ensures Reaches(ps, pe) && Calm(pe) && ps[0] == ss[i] && Landed(ss[i], ps[|pe|], t, key, runs)
  {
    RunInv(ss, es, i);
    hide Inv, Next, IsRun, Underway, Landed, JournalFree, Path;
    var was := ss[i];
    BeginMoves(was, t, key, names, runs, s');
    StepKeepsInv(was, Begin(t, key, names, runs), s');
    ps, pe := AllAppend(was, s', t, key, names, runs, 0, 0);
    var qs, qe := AllSync(was, ps[|pe|], t, key, names, runs, 0);
    ps, pe := PathPlus(ps, pe, qs, qe);
    qs, qe := Decides(was, ps[|pe|], t, key, names, runs);
    ps, pe := PathPlus(ps, pe, qs, qe);
    ps, pe := PathCons(was, Begin(t, key, names, runs), ps, pe);
    assert Reaches(ps, pe) && Calm(pe) by { PathParts(ps, pe); }
  }

  lemma PathParts(ss: seq<State>, es: seq<Event>)
    requires Path(ss, es)
    ensures Reaches(ss, es) && Calm(es)
  {
  }

  lemma PathPlus(ss: seq<State>, es: seq<Event>, ts: seq<State>, fs: seq<Event>) returns (us: seq<State>, gs: seq<Event>)
    requires Path(ss, es) && |ss| == |es| + 1 && Path(ts, fs) && |ts| == |fs| + 1 && ts[0] == ss[|es|]
    ensures Path(us, gs) && |us| == |gs| + 1 && us[0] == ss[0] && us[|gs|] == ts[|fs|]
  {
    hide Path;
    PathJoin(ss, es, ts, fs);
    us, gs := ss + ts[1..], es + fs;
  }

  lemma PlanStep(s: State, e: Event, s': State, t: TxId)
    requires Next(s, e, s') && t in s'.hist.plan
    ensures (e.Begin? && e.t == t && s'.hist.plan[t].runs == e.runs && s'.hist.plan[t].key == e.key)
         || (t in s.hist.plan && s'.hist.plan[t] == s.hist.plan[t])
  {
    hide Locked, DistinctNames, Traced, BeginStep, OpenStep, AppendOkStep, AppendFailStep, SyncOkStep, SyncFailStep, DecideStep,
         DecideFailStep, DurableStep, DurableFailStep, AcknowledgeStep, RollbackStep, GiveUpStep, CompactStep, CrashStep,
         RecTruncateStep, RecAbortStep, RecCheckStep, UnlockedCol, DecisionsOf, WithCol, Flushed, Push, Cut;
    if e.Begin? {
      PlanBegins(s, e.t, e.key, e.names, e.runs, s', t);
    } else if e.Open? {
      PlanForgets(s, e.next, e.pending, s', t);
    } else {
      PlanSame(s, e, s');
    }
  }

  lemma PlanBegins(s: State, u: TxId, key: string, names: seq<string>, runs: Runs, s': State, t: TxId)
    requires BeginStep(s, u, key, names, runs, s') && t in s'.hist.plan
    ensures (u == t && s'.hist.plan[t].runs == runs && s'.hist.plan[t].key == key) || (t in s.hist.plan && s'.hist.plan[t] == s.hist.plan[t])
  {
    hide Locked, DistinctNames;
  }

  lemma PlanForgets(s: State, next: nat, pending: set<TxId>, s': State, t: TxId)
    requires OpenStep(s, next, pending, s') && t in s'.hist.plan
    ensures t in s.hist.plan && s'.hist.plan[t] == s.hist.plan[t]
  {
    hide Traced;
  }

  lemma PlanSame(s: State, e: Event, s': State)
    requires Next(s, e, s') && !e.Begin? && !e.Open?
    ensures s'.hist.plan == s.hist.plan
  {
    hide DecisionsOf, Locked, IsCompaction, DistinctNames, Stamped, PartsOf, EvidenceOk, ActiveTail, FirstOf, JournalFree,
         JournalAppend, Run, Traced, BeginStep, OpenStep, Push, Cut, Flushed, NextAppend;
  }

  /** What the theorems say of a transaction is said of a call of the run: its plan is what some Begin was given. */
  lemma {:induction false} PlannedWasBegun(ss: seq<State>, es: seq<Event>, i: nat, t: TxId) returns (k: nat)
    requires IsRun(ss, es) && i < |ss| && t in ss[i].hist.plan
    ensures k < i && es[k].Begin? && es[k].t == t && es[k].runs == ss[i].hist.plan[t].runs && es[k].key == ss[i].hist.plan[t].key
  {
    hide Next;
    if i == 0 {
      assert false;
    } else {
      assert Next(ss[i - 1], es[i - 1], ss[i]);
      PlanStep(ss[i - 1], es[i - 1], ss[i], t);
      if t in ss[i - 1].hist.plan && ss[i].hist.plan[t] == ss[i - 1].hist.plan[t] {
        k := PlannedWasBegun(ss, es, i - 1, t);
      } else {
        k := i - 1;
      }
    }
  }

  // ----- what a crash may undo, and what recovery does about it -----------------------------------------------

  /** Writing without syncing takes nothing back from a crash: whatever it could leave before, it can still leave. */
  lemma UnsyncedMayVanish(s: State, e: Event, s': State, left: map<string, seq<Line>>, recs: seq<Record>)
    requires Next(s, e, s') && MayLeave(s, left, recs)
    requires e.AppendOk? || e.PlainAppend? || e.Decide? || e.PlainCut? || e.Rollback? || e.RecTruncate?
    ensures MayLeave(s', left, recs)
  {
    hide DecisionsOf, Locked, Stamped, PartsOf, ActiveTail, FirstOf, JournalFree, NextAppend, DistinctNames;
  }

  /** A sync takes everything but the present content from it. */
  lemma SyncedStays(s: State, e: Event, s': State, left: map<string, seq<Line>>, recs: seq<Record>)
    requires Next(s, e, s') && MayLeave(s', left, recs)
    ensures e.SyncOk? ==>
      var a := s.mode.attempts[e.t];
      left[a.names[a.phase.k]] == s.cols[a.names[a.phase.k]].active.cur
    ensures e.SyncCol? || e.RecSync? ==> left[e.c] == s.cols[e.c].active.cur
    ensures e.Durable? ==> recs == s.journal.file.cur
  {
    hide DecisionsOf, Locked, Stamped, PartsOf, ActiveTail, FirstOf, JournalFree, NextAppend, DistinctNames, IsCompaction, EvidenceOk,
         Traced, JournalAppend;
  }

  /** Recovery cuts exactly the run of an uncommitted transaction off the end of an active segment, and nothing else. */
  lemma TruncateRemovesRun(s: State, t: TxId, c: string, s': State)
    requires Inv(s) && Next(s, RecTruncate(t, c), s')
    ensures
      var was, now := s.cols[c].active.cur, s'.cols[c].active.cur;
      && now <= was && |now| < |was| && Run(now, t) == [] && (forall i :: |now| <= i < |was| ==> IsOf(was[i], t))
      && s' == s.(cols := s.cols[c := s.cols[c].(active := s'.cols[c].active)])
  {
    hide *;
    TruncateIs(s, t, c, s');
    ActiveContiguous(s, t, c);
    var v := s.cols[c].active.cur;
    TailBlock(v, t);
    assert v[..FirstOf(v, t)] <= v;
  }

  lemma ActiveContiguous(s: State, t: TxId, c: string)
    requires Inv(s) && c in s.cols
    ensures Contiguous(s.cols[c].active.cur, t)
  {
    hide CommitsOk, JournalOk, HistOk, PlansCover, UpOk, DownOk, RecoveringOk, Run, Full, Contiguous;
    assert ColOk(s.cols[c], c, s.hist.plan);
    assert TraceOk(s.cols[c].sealed, s.cols[c].active.cur, Full(s.hist.plan, t, c), t);
  }

  lemma TruncateIs(s: State, t: TxId, c: string, s': State)
    requires Next(s, RecTruncate(t, c), s')
    ensures c in s.cols && c in s'.cols
    ensures
      var was := s.cols[c].active.cur;
      && was != [] && IsOf(was[|was| - 1], t) && s'.cols[c].active.cur == was[..FirstOf(was, t)]
      && s' == s.(cols := s.cols[c := s.cols[c].(active := s'.cols[c].active)])
  {
    hide Run, FirstOf, IsOf, DecisionsOf, Committed;
  }

  /** That is possible exactly for a run that no sealed segment has a line of and that ends the active one. */
  lemma TruncateExactlyWhen(s: State, t: TxId, c: string)
    requires s.mode.Recovering? && t in s.mode.pending && !Committed(DecisionsOf(s.mode.table), t) && c in s.cols
    ensures
      var sealed, cur := s.cols[c].sealed, s.cols[c].active.cur;
      (exists s' :: Next(s, RecTruncate(t, c), s')) <==>
        cur != [] && IsOf(cur[|cur| - 1], t) && forall i :: 0 <= i < |sealed| ==> !IsOf(sealed[i], t)
  {
    hide *;
    var sealed, cur := s.cols[c].sealed, s.cols[c].active.cur;
    NoLineNoRun(sealed, t);
    TailIs(sealed, cur, t);
    if ActiveTail(sealed, cur, t) {
      var s' := TruncateCan(s, t, c);
    }
    forall s' | Next(s, RecTruncate(t, c), s')
      ensures ActiveTail(sealed, cur, t)
    {
      TruncateNeeds(s, t, c, s');
    }
  }

  lemma TailIs(sealed: seq<Line>, v: seq<Line>, t: TxId)
    ensures ActiveTail(sealed, v, t) <==> Run(sealed, t) == [] && v != [] && IsOf(v[|v| - 1], t)
  {
    hide Run, IsOf;
  }

  lemma TruncateCan(s: State, t: TxId, c: string) returns (s': State)
    requires s.mode.Recovering? && t in s.mode.pending && !Committed(DecisionsOf(s.mode.table), t) && c in s.cols
    requires ActiveTail(s.cols[c].sealed, s.cols[c].active.cur, t)
    ensures Next(s, RecTruncate(t, c), s')
  {
    hide ActiveTail, Run, FirstOf, IsOf, DecisionsOf, Committed, Cut;
    s' := WithCol(s, c, s.cols[c].(active := Cut(s.cols[c].active, FirstOf(s.cols[c].active.cur, t))));
    assert RecTruncateStep(s, t, c, s');
  }

  lemma TruncateNeeds(s: State, t: TxId, c: string, s': State)
    requires Next(s, RecTruncate(t, c), s') && c in s.cols
    ensures ActiveTail(s.cols[c].sealed, s.cols[c].active.cur, t)
  {
    hide ActiveTail, Run, FirstOf, IsOf, DecisionsOf, Committed, Cut;
  }

  lemma {:induction false} NoLineNoRun(log: seq<Line>, t: TxId)
    ensures Run(log, t) == [] <==> forall i :: 0 <= i < |log| ==> !IsOf(log[i], t)
  {
    if |log| > 0 {
      NoLineNoRun(log[..|log| - 1], t);
    }
  }

  /** The lines name the given entries, in order, each stamped with its place among them. */
  ghost predicate Names(run: seq<Line>, es: seq<Entry>) {
    && |run| == |es|
    && forall i :: 0 <= i < |es| ==>
         && run[i].tx.Some? && run[i].tx.value.i == i && run[i].tx.value.n == |es|
         && run[i].entry.id == es[i].id && run[i].entry.op == es[i].op && run[i].entry.rev == es[i].rev
  }

  lemma NamesByDigest(run: seq<Line>, es: seq<Entry>, part: Part)
    requires part.n == |part.digest| == |es|
    requires forall i :: 0 <= i < |es| ==> part.digest[i] == OpRef(es[i].id, es[i].op, es[i].rev)
    ensures CompleteRun(run) && |run| == part.n && Refs(run) == part.digest <==> es != [] && Names(run, es)
  {
    assert |Refs(run)| == |run|;
    if Refs(run) == part.digest {
      forall i | 0 <= i < |run|
        ensures run[i].entry.id == es[i].id && run[i].entry.op == es[i].op && run[i].entry.rev == es[i].rev
      {
        assert Refs(run)[i] == part.digest[i];
      }
    }
  }

  /**
   Recovery accepts a COMMIT record exactly if every participant it describes holds the whole run, entry by entry and
   in order, and no other collection holds a line of the transaction.
   */
  lemma EvidenceExactlyWhen(t: TxId, parts: map<string, Part>, runs: Runs, scan: map<string, seq<Line>>)
    requires Describes(parts, runs)
    ensures EvidenceOk(t, parts, scan) <==>
      && (forall c :: c in runs ==> c in scan && runs[c] != [] && Names(Run(scan[c], t), runs[c]))
      && (forall c :: c in scan && Run(scan[c], t) != [] ==> c in runs)
  {
    hide Run, CompleteRun, Refs, Names;
    forall c | c in runs && c in scan
      ensures CompleteRun(Run(scan[c], t)) && |Run(scan[c], t)| == parts[c].n && Refs(Run(scan[c], t)) == parts[c].digest <==>
        runs[c] != [] && Names(Run(scan[c], t), runs[c])
    {
      NamesByDigest(Run(scan[c], t), runs[c], parts[c]);
    }
  }
}
