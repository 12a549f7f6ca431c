/**
 Opening a collection from a persisted index: deciding from recorded segment coverage
 which bytes are still to be replayed, and replaying them.

 Offsets count lines, and a checksum is represented by the lines it was taken over.
 */
module IndexRecovery {
  import opened Values
  import opened Log
  import opened Query
  import opened SecondaryIndex
  import opened Scan

  /** A segment file name, by its number when it has one. */
  datatype Name = Numbered(n: nat) | Unnumbered(s: string)

  datatype Seg = Seg(name: Name, lines: seq<Line>)

  /** What a persisted index says it covers of one segment, and the transactions visible in those lines. */
  datatype Coverage = Coverage(name: Name, size: nat, sum: Option<seq<Line>>, applied: seq<TxId>, epoch: string)

  datatype Step = Step(seg: Seg, from: nat)

  predicate NameLess(a: Name, b: Name) {
    match (a, b)
    case (Numbered(m), Numbered(n)) => m < n
    case (Numbered(_), Unnumbered(_)) => true
    case (Unnumbered(_), Numbered(_)) => false
    case (Unnumbered(s), Unnumbered(t)) => CompareStr(s, t) < 0
  }

  /** Replay order: numbered segments by number, before all others, and those by name. */
  lemma NameLessExactly(a: Name, b: Name)
    ensures NameLess(a, b) <==>
      || (a.Numbered? && (b.Numbered? ==> a.n < b.n))
      || (a.Unnumbered? && b.Unnumbered? && exists n :: DiffersAt(a.s, b.s, n))
  {
    if a.Unnumbered? && b.Unnumbered? {
      CompareStrIsLexicographic(a.s, b.s);
    }
  }

  /** Numeric order; unnumbered names last, by name. */
  ghost predicate Ordered(all: seq<Seg>) {
    forall i, j :: 0 <= i < j < |all| ==> NameLess(all[i].name, all[j].name)
  }

  // ----- the lines of a set of segments ---------------------------------------------------------------

  /** A line and where it stands. */
  datatype Spot = Spot(name: Name, off: nat, line: Line)

  function Spots(name: Name, lines: seq<Line>, from: nat): (r: seq<Spot>)
    requires from <= |lines|
    ensures |r| == |lines| - from && forall i :: 0 <= i < |r| ==> r[i] == Spot(name, from + i, lines[from + i])
  {
    seq(|lines| - from, i requires 0 <= i < |lines| - from => Spot(name, from + i, lines[from + i]))
  }

  function AllSpots(all: seq<Seg>): seq<Spot> {
    if all == [] then []
    else
      var n := |all| - 1;
      AllSpots(all[..n]) + Spots(all[n].name, all[n].lines, 0)
  }

  function PlanSpots(plan: seq<Step>): seq<Spot>
    requires forall st :: st in plan ==> st.from <= |st.seg.lines|
  {
    if plan == [] then []
    else
      var n := |plan| - 1;
      assert plan[n] in plan;
      PlanSpots(plan[..n]) + Spots(plan[n].seg.name, plan[n].seg.lines, plan[n].from)
  }

  /** The recorded coverage of a name. */
  function CovOf(cov: seq<Coverage>, name: Name): Option<Coverage> {
    if cov == [] then None
    else if cov[|cov| - 1].name == name then Some(cov[|cov| - 1])
    else CovOf(cov[..|cov| - 1], name)
  }

  /** The lines a checksum was taken over. */
  function Recorded(cv: Coverage): seq<Line> {
    if cv.sum.Some? then cv.sum.value else []
  }

  /** What the persisted index was built from: the recorded lines, in numeric order of their segments. */
  function RecordedSpots(all: seq<Seg>, cov: seq<Coverage>): seq<Spot> {
    if all == [] then []
    else
      var n := |all| - 1;
      var cv := CovOf(cov, all[n].name);
      RecordedSpots(all[..n], cov) + if cv.Some? then Spots(all[n].name, Recorded(cv.value), 0) else []
  }

  // ----- when a persisted index may be trusted --------------------------------------------------------

  function MaxCovered(cov: seq<Coverage>): nat {
    if cov == [] then 0
    else
      var m, last := MaxCovered(cov[..|cov| - 1]), cov[|cov| - 1].name;
      if last.Numbered? && last.n >= m then last.n else m
  }

  predicate HasCommitted(lines: seq<Line>, dec: Decisions) {
    exists i :: 0 <= i < |lines| && lines[i].tx.Some? && Committed(dec, lines[i].tx.value.t)
  }

  /** The listed transactions are still committed under this journal; without a list no covered run is committed. */
  ghost predicate DecisionsAgree(cv: Coverage, seg: Seg, dec: Decisions, epoch: string)
    requires cv.size <= |seg.lines|
  {
    if cv.applied != [] then
      && (forall t :: t in cv.applied ==> Committed(dec, t))
      && !(epoch != "" && cv.epoch != "" && cv.epoch != epoch)
    else !HasCommitted(seg.lines[..cv.size], dec)
  }

  /** One coverage record holds of its segment. */
  ghost predicate Proves(cv: Coverage, seg: Seg, cov: seq<Coverage>, dec: Decisions, epoch: string) {
    && cv.name == seg.name && cv.name.Numbered?
    && cv.size <= |seg.lines|
    && DecisionsAgree(cv, seg, dec, epoch)
    && (cv.size < |seg.lines| ==> cv.name.n == MaxCovered(cov))
    && cv.sum == Some(seg.lines[..cv.size])
  }

  ghost predicate HasName(all: seq<Seg>, name: Name) {
    exists i :: 0 <= i < |all| && all[i].name == name
  }

  ghost predicate Acceptable(all: seq<Seg>, known: bool, cov: seq<Coverage>, entries: nat, dec: Decisions, epoch: string) {
    && known && (cov == [] ==> entries == 0)
    && (forall i, j :: 0 <= i < j < |cov| ==> cov[i].name != cov[j].name)
    && (forall cv :: cv in cov ==> HasName(all, cv.name))
    && (forall cv, seg :: cv in cov && seg in all && seg.name == cv.name ==> Proves(cv, seg, cov, dec, epoch))
    && (forall seg :: seg in all && CovOf(cov, seg.name).None? ==> seg.name.Numbered? && seg.name.n > MaxCovered(cov))
  }

  // ----- an accepted coverage splits the log -----------------------------------------------------------

  lemma {:induction false} CovOfFinds(cov: seq<Coverage>, name: Name)
    ensures CovOf(cov, name).Some? ==> CovOf(cov, name).value in cov && CovOf(cov, name).value.name == name
    ensures CovOf(cov, name).None? ==> forall cv :: cv in cov ==> cv.name != name
  {
    if cov != [] {
      CovOfFinds(cov[..|cov| - 1], name);
      assert cov == cov[..|cov| - 1] + [cov[|cov| - 1]];
    }
  }

  lemma {:induction false} MaxCoveredBounds(cov: seq<Coverage>, cv: Coverage)
    requires cv in cov && cv.name.Numbered?
    ensures cv.name.n <= MaxCovered(cov)
  {
    var front := cov[..|cov| - 1];
    assert cov == front + [cov[|cov| - 1]];
    if cv in front {
      MaxCoveredBounds(front, cv);
    }
  }

  /** The lines a covered segment gained since; none for an uncovered one. */
  function Gained(seg: Seg, cov: seq<Coverage>): seq<Spot> {
    var cv := CovOf(cov, seg.name);
    if cv.Some? && cv.value.size <= |seg.lines| then Spots(seg.name, seg.lines, cv.value.size) else []
  }

  function GainedSpots(all: seq<Seg>, cov: seq<Coverage>): seq<Spot> {
    if all == [] then []
    else GainedSpots(all[..|all| - 1], cov) + Gained(all[|all| - 1], cov)
  }

  /** The lines of the segments no coverage mentions. */
  function NewSpots(all: seq<Seg>, cov: seq<Coverage>): seq<Spot> {
    if all == [] then []
    else
      var seg := all[|all| - 1];
      NewSpots(all[..|all| - 1], cov) + if CovOf(cov, seg.name).None? then Spots(seg.name, seg.lines, 0) else []
  }

  /** What acceptance says segment by segment, in order. */
  ghost predicate Layered(all: seq<Seg>, cov: seq<Coverage>) {
    && (forall i :: 0 <= i < |all| && CovOf(cov, all[i].name).Some? ==>
          var cv := CovOf(cov, all[i].name).value;
          cv.size <= |all[i].lines| && cv.sum == Some(all[i].lines[..cv.size]))
    && (forall i, j :: 0 <= i < j < |all| && CovOf(cov, all[j].name).Some? ==>
          CovOf(cov, all[i].name).Some? && CovOf(cov, all[i].name).value.size == |all[i].lines|)
  }

  lemma AcceptableLayers(all: seq<Seg>, known: bool, cov: seq<Coverage>, entries: nat, dec: Decisions, epoch: string)
    requires Ordered(all) && Acceptable(all, known, cov, entries, dec, epoch)
    ensures Layered(all, cov)
  {
    forall i | 0 <= i < |all|
      ensures CovOf(cov, all[i].name).Some? ==> Proves(CovOf(cov, all[i].name).value, all[i], cov, dec, epoch)
    {
      CovOfFinds(cov, all[i].name);
      assert all[i] in all;
    }
    forall i, j | 0 <= i < j < |all| && CovOf(cov, all[j].name).Some?
      ensures CovOf(cov, all[i].name).Some? && CovOf(cov, all[i].name).value.size == |all[i].lines|
    {
      CovOfFinds(cov, all[j].name);
      CovOfFinds(cov, all[i].name);
      MaxCoveredBounds(cov, CovOf(cov, all[j].name).value);
      assert NameLess(all[i].name, all[j].name) && all[i] in all;
    }
  }

  lemma {:induction false} NothingLeft(all: seq<Seg>, cov: seq<Coverage>)
    requires forall i :: 0 <= i < |all| ==>
      CovOf(cov, all[i].name).Some? && CovOf(cov, all[i].name).value.size == |all[i].lines|
    ensures GainedSpots(all, cov) == [] && NewSpots(all, cov) == []
  {
    if all != [] {
      NothingLeft(all[..|all| - 1], cov);
    }
  }

  lemma LayeredFront(all: seq<Seg>, cov: seq<Coverage>)
    requires Layered(all, cov) && all != []
    ensures Layered(all[..|all| - 1], cov)
    ensures
      var seg := all[|all| - 1];
      CovOf(cov, seg.name).Some? ==>
        var cv := CovOf(cov, seg.name).value;
        && cv.size <= |seg.lines| && cv.sum == Some(seg.lines[..cv.size])
        && GainedSpots(all[..|all| - 1], cov) == [] && NewSpots(all[..|all| - 1], cov) == []
  {
    var n := |all| - 1;
    if CovOf(cov, all[n].name).Some? {
      forall i | 0 <= i < n
        ensures CovOf(cov, all[..n][i].name).Some?
        ensures CovOf(cov, all[..n][i].name).value.size == |all[..n][i].lines|
      {
        assert all[..n][i] == all[i];
      }
      NothingLeft(all[..n], cov);
    }
  }

  lemma CoveredSpots(seg: Seg, cv: Coverage)
    requires cv.size <= |seg.lines| && cv.sum == Some(seg.lines[..cv.size])
    ensures Spots(seg.name, seg.lines, 0) == Spots(seg.name, Recorded(cv), 0) + Spots(seg.name, seg.lines, cv.size)
  {
  }

  lemma Interleave(r: seq<Spot>, g: seq<Spot>, w: seq<Spot>, a: seq<Spot>, b: seq<Spot>, c: seq<Spot>)
    requires (g == [] && w == [] && c == []) || (a == [] && b == [])
    ensures (r + g + w) + (a + b + c) == (r + a) + (g + b) + (w + c)
  {
  }

  /** Recorded lines, then what the newest covered segment gained, then the new segments: that is the whole log. */
  lemma {:induction false} CoverageSplitsLog(all: seq<Seg>, cov: seq<Coverage>)
    requires Layered(all, cov)
    ensures AllSpots(all) == RecordedSpots(all, cov) + GainedSpots(all, cov) + NewSpots(all, cov)
  {
    if all != [] {
      var n := |all| - 1;
      var front, seg := all[..n], all[n];
      hide Layered, Spots;
      LayeredFront(all, cov);
      CoverageSplitsLog(front, cov);
      var r, g, w := RecordedSpots(front, cov), GainedSpots(front, cov), NewSpots(front, cov);
      var s := Spots(seg.name, seg.lines, 0);
      if CovOf(cov, seg.name).Some? {
        var cv := CovOf(cov, seg.name).value;
        CoveredSpots(seg, cv);
        Interleave(r, g, w, Spots(seg.name, Recorded(cv), 0), Spots(seg.name, seg.lines, cv.size), []);
        assert s == Spots(seg.name, Recorded(cv), 0) + Spots(seg.name, seg.lines, cv.size) + [];
      } else {
        Interleave(r, g, w, [], [], s);
        assert s == [] + [] + s;
      }
    }
  }

  // ----- planning --------------------------------------------------------------------------------------

  ghost predicate NameTable(table: map<Name, Seg>, all: seq<Seg>) {
    && (forall i :: 0 <= i < |all| ==> all[i].name in table && table[all[i].name] == all[i])
    && (forall name :: name in table ==> HasName(all, name))
  }

  method ByName(all: seq<Seg>) returns (table: map<Name, Seg>)
    requires Ordered(all)
    ensures NameTable(table, all)
  {
    table := map[];
    for i := 0 to |all|
      invariant NameTable(table, all[..i])
    {
      assert all[..i + 1][..i] == all[..i];
      forall k | 0 <= k < i
        ensures all[k].name != all[i].name
      {
        assert NameLess(all[k].name, all[i].name);
        NameIrreflexive(all[i].name);
      }
      table := table[all[i].name := all[i]];
    }
    assert all[..|all|] == all;
  }

  lemma NameIrreflexive(a: Name)
    ensures !NameLess(a, a)
  {
    if a.Unnumbered? {
      CompareStrSwap(a.s, a.s);
    }
  }

  method AnyCommitted(lines: seq<Line>, size: nat, dec: Decisions) returns (has: bool)
    requires size <= |lines|
    ensures has <==> HasCommitted(lines[..size], dec)
  {
    for i := 0 to size
      invariant !HasCommitted(lines[..i], dec)
    {
      if lines[i].tx.Some? && EntryVisible(lines[i].tx, dec) {
        assert lines[..size][i] == lines[i];
        return true;
      }
    }
    has := false;
  }

  method AllCommitted(applied: seq<TxId>, dec: Decisions) returns (ok: bool)
    ensures ok <==> forall t :: t in applied ==> Committed(dec, t)
  {
    for i := 0 to |applied|
      invariant forall k :: 0 <= k < i ==> Committed(dec, applied[k])
    {
      if !Committed(dec, applied[i]) {
        assert applied[i] in applied;
        return false;
      }
    }
    ok := true;
  }

  ghost predicate NameSound(cv: Coverage, table: map<Name, Seg>) {
    cv.name in table && cv.name.Numbered? && cv.size <= |table[cv.name].lines|
  }

  ghost predicate NamesSound(cov: seq<Coverage>, table: map<Name, Seg>) {
    && (forall i, j :: 0 <= i < j < |cov| ==> cov[i].name != cov[j].name)
    && (forall i :: 0 <= i < |cov| ==> NameSound(cov[i], table))
  }

  /** Position of the newest covered segment. */
  ghost predicate IsNewest(cov: seq<Coverage>, last: Option<nat>) {
    if last.None? then cov == []
    else last.value < |cov| && cov[last.value].name == Numbered(MaxCovered(cov))
  }

  function Names(cov: seq<Coverage>): set<Name> {
    set i | 0 <= i < |cov| :: cov[i].name
  }

  lemma NamesNext(cov: seq<Coverage>, i: nat)
    requires i < |cov|
    ensures Names(cov[..i + 1]) == Names(cov[..i]) + {cov[i].name}
    ensures cov[..i + 1][..i] == cov[..i]
  {
    var a, b := cov[..i], cov[..i + 1];
    assert b[i] == cov[i];
    forall k | 0 <= k < i
      ensures a[k].name in Names(b)
    {
      assert b[k] == a[k];
    }
    forall k | 0 <= k < |b|
      ensures b[k].name in Names(a) + {cov[i].name}
    {
      assert k < i ==> a[k] == b[k];
    }
  }

  method CheckNames(cov: seq<Coverage>, table: map<Name, Seg>)
    returns (ok: bool, covered: set<Name>, maxCovered: nat, last: Option<nat>)
    ensures ok <==> NamesSound(cov, table)
    ensures ok ==> covered == Names(cov) && maxCovered == MaxCovered(cov) && IsNewest(cov, last)
  {
    ok, covered, maxCovered, last := true, {}, 0, None;
    for i := 0 to |cov|
      invariant NamesSound(cov[..i], table) && covered == Names(cov[..i])
      invariant maxCovered == MaxCovered(cov[..i]) && IsNewest(cov[..i], last)
    {
      var cv := cov[i];
      NamesNext(cov, i);
      if cv.name !in table || cv.name in covered {
        if cv.name in covered {
          var k :| 0 <= k < i && cov[..i][k].name == cv.name;
          assert cov[k].name == cov[i].name;
        } else {
          assert !NameSound(cov[i], table);
        }
        return false, covered, maxCovered, last;
      }
      covered := covered + {cv.name};
      if !cv.name.Numbered? || |table[cv.name].lines| < cv.size {
        assert !NameSound(cov[i], table);
        return false, covered, maxCovered, last;
      }
      if cv.name.n >= maxCovered {
        maxCovered, last := cv.name.n, Some(i);
      }
      NamesSoundNext(cov, i, table);
    }
    assert cov[..|cov|] == cov;
  }

  lemma NamesSoundNext(cov: seq<Coverage>, i: nat, table: map<Name, Seg>)
    requires i < |cov| && NamesSound(cov[..i], table) && NameSound(cov[i], table) && cov[i].name !in Names(cov[..i])
    ensures NamesSound(cov[..i + 1], table)
  {
    forall k | 0 <= k < i
      ensures NameSound(cov[k], table) && cov[k].name != cov[i].name
    {
      assert cov[..i][k] == cov[k];
      assert cov[..i][k].name in Names(cov[..i]);
    }
    forall k, l | 0 <= k < l < i
      ensures cov[k].name != cov[l].name
    {
      assert cov[..i][k].name != cov[..i][l].name;
    }
  }

  method CheckProof(cv: Coverage, seg: Seg, cov: seq<Coverage>, newest: Name, dec: Decisions, epoch: string) returns (ok: bool)
    requires cv.name == seg.name && cv.name.Numbered? && cv.size <= |seg.lines| && newest == Numbered(MaxCovered(cov))
    ensures ok <==> Proves(cv, seg, cov, dec, epoch)
  {
    if |cv.applied| > 0 {
      var all := AllCommitted(cv.applied, dec);
      if !all || (epoch != "" && cv.epoch != "" && cv.epoch != epoch) {
        return false;
      }
    } else {
      var has := AnyCommitted(seg.lines, cv.size, dec);
      if has {
        return false;
      }
    }
    if |seg.lines| > cv.size && cv.name != newest {
      return false;
    }
    ok := cv.sum == Some(seg.lines[..cv.size]);
  }

  ghost predicate UncoveredOk(seg: Seg, covered: set<Name>, max: nat) {
    seg.name !in covered ==> seg.name.Numbered? && seg.name.n > max
  }

  /** The new segments, all of them above everything covered. */
  method CollectNew(all: seq<Seg>, covered: set<Name>, max: nat, ghost cov: seq<Coverage>) returns (plan: seq<Step>, ok: bool)
    requires covered == Names(cov)
    ensures ok <==> forall i :: 0 <= i < |all| ==> UncoveredOk(all[i], covered, max)
    ensures ok ==> (forall st :: st in plan ==> st.from == 0) && PlanSpots(plan) == NewSpots(all, cov)
  {
    plan, ok := [], true;
    for i := 0 to |all|
      invariant forall k :: 0 <= k < i ==> UncoveredOk(all[k], covered, max)
      invariant (forall st :: st in plan ==> st.from == 0) && PlanSpots(plan) == NewSpots(all[..i], cov)
    {
      var seg := all[i];
      assert all[..i + 1][..i] == all[..i];
      CoveredIffNamed(cov, seg.name);
      if seg.name !in covered {
        if !seg.name.Numbered? || seg.name.n <= max {
          assert !UncoveredOk(all[i], covered, max);
          return [], false;
        }
        if |seg.lines| > 0 {
          ghost var longer := plan + [Step(seg, 0)];
          assert longer[..|plan|] == plan;
          plan := plan + [Step(seg, 0)];
        } else {
          assert Spots(seg.name, seg.lines, 0) == [];
        }
      }
    }
    assert all[..|all|] == all;
  }

  lemma CoveredIffNamed(cov: seq<Coverage>, name: Name)
    ensures CovOf(cov, name).Some? <==> name in Names(cov)
  {
    CovOfFinds(cov, name);
    if CovOf(cov, name).Some? {
      var k :| 0 <= k < |cov| && cov[k] == CovOf(cov, name).value;
      assert cov[k].name in Names(cov);
    }
  }

  ghost predicate AllProve(cov: seq<Coverage>, table: map<Name, Seg>, dec: Decisions, epoch: string) {
    forall i :: 0 <= i < |cov| ==> cov[i].name in table && Proves(cov[i], table[cov[i].name], cov, dec, epoch)
  }

  method CheckProofs(cov: seq<Coverage>, table: map<Name, Seg>, last: Option<nat>, dec: Decisions, epoch: string, ghost all: seq<Seg>)
    returns (ok: bool)
    requires NameTable(table, all) && NamesSound(cov, table) && IsNewest(cov, last)
    ensures ok <==> AllProve(cov, table, dec, epoch)
  {
    hide NameTable, NamesSound, IsNewest, Proves;
    for i := 0 to |cov|
      invariant forall k :: 0 <= k < i ==> cov[k].name in table && Proves(cov[k], table[cov[k].name], cov, dec, epoch)
    {
      CoveredRow(all, table, cov, last, i);
      var proof := CheckProof(cov[i], table[cov[i].name], cov, cov[last.value].name, dec, epoch);
      if !proof {
        return false;
      }
    }
    ok := true;
  }

  /** What the newest covered segment gained. */
  method GrownTail(cov: seq<Coverage>, table: map<Name, Seg>, last: Option<nat>, ghost all: seq<Seg>, ghost dec: Decisions,
                   ghost epoch: string)
    returns (plan: seq<Step>)
    requires NameTable(table, all) && Ordered(all) && NamesSound(cov, table) && IsNewest(cov, last)
    requires AllProve(cov, table, dec, epoch)
    ensures (forall st :: st in plan ==> st.from <= |st.seg.lines|) && PlanSpots(plan) == GainedSpots(all, cov)
  {
    plan := [];
    if last.Some? && |table[cov[last.value].name].lines| > cov[last.value].size {
      plan := [Step(table[cov[last.value].name], cov[last.value].size)];
    }
    NewestGained(all, cov, table, last, plan, dec, epoch);
  }

  /** Decides whether a coverage list can be trusted and, if so, what is left to replay. */
  method PlanReplayFor(all: seq<Seg>, known: bool, cov: seq<Coverage>, entries: nat, dec: Decisions, epoch: string)
    returns (plan: seq<Step>, ok: bool)
    requires Ordered(all)
    ensures ok <==> Acceptable(all, known, cov, entries, dec, epoch)
    ensures ok ==>
      && (forall st :: st in plan ==> st.from <= |st.seg.lines|)
      && RecordedSpots(all, cov) + PlanSpots(plan) == AllSpots(all)
  {
    plan, ok := [], false;
    if !known || (|cov| == 0 && entries > 0) {
      return;
    }
    hide Ordered, NameTable, NamesSound, Acceptable, AllProve, Layered, UncoveredOk, PlanSpots, IsNewest, Names;
    var table := ByName(all);
    var sound, covered, maxCovered, last := CheckNames(cov, table);
    if !sound {
      UnsoundRefused(all, known, cov, entries, dec, epoch, table);
      return;
    }
    var proven := CheckProofs(cov, table, last, dec, epoch, all);
    if !proven {
      UnprovenRefused(all, known, cov, entries, dec, epoch, table);
      return;
    }
    var added, above := CollectNew(all, covered, maxCovered, cov);
    AcceptableWhen(all, known, cov, entries, dec, epoch, table);
    if !above {
      return;
    }
    AcceptableLayers(all, known, cov, entries, dec, epoch);
    CoverageSplitsLog(all, cov);
    var tail := GrownTail(cov, table, last, all, dec, epoch);
    PlanConcat(tail, added);
    plan, ok := tail + added, true;
    Associate(RecordedSpots(all, cov), GainedSpots(all, cov), NewSpots(all, cov));
  }

  lemma CoveredRow(all: seq<Seg>, table: map<Name, Seg>, cov: seq<Coverage>, last: Option<nat>, i: nat)
    requires NameTable(table, all) && NamesSound(cov, table) && IsNewest(cov, last) && i < |cov|
    ensures
      var cv := cov[i];
      && cv.name in table && table[cv.name].name == cv.name && cv.name.Numbered? && cv.size <= |table[cv.name].lines|
      && last.Some? && last.value < |cov| && cov[last.value].name == Numbered(MaxCovered(cov))
  {
    assert NameSound(cov[i], table);
    TableNames(all, table, cov[i].name);
  }

  lemma TableNames(all: seq<Seg>, table: map<Name, Seg>, name: Name)
    requires NameTable(table, all) && name in table
    ensures table[name].name == name && table[name] in all
    ensures forall seg :: seg in all && seg.name == name ==> seg == table[name]
  {
    var i :| 0 <= i < |all| && all[i].name == name;
    assert table[all[i].name] == all[i];
  }

  lemma {:induction false} UnsoundRefused(all: seq<Seg>, known: bool, cov: seq<Coverage>, entries: nat, dec: Decisions, epoch: string, table: map<Name, Seg>)
    requires NameTable(table, all) && !NamesSound(cov, table)
    ensures !Acceptable(all, known, cov, entries, dec, epoch)
  {
    if Acceptable(all, known, cov, entries, dec, epoch) {
      forall i | 0 <= i < |cov|
        ensures NameSound(cov[i], table)
      {
        assert cov[i] in cov;
        var k :| 0 <= k < |all| && all[k].name == cov[i].name;
        assert all[k] in all;
        assert Proves(cov[i], all[k], cov, dec, epoch);
      }
    }
  }

  lemma {:induction false} UnprovenRefused(all: seq<Seg>, known: bool, cov: seq<Coverage>, entries: nat, dec: Decisions, epoch: string,
                                           table: map<Name, Seg>)
    requires NameTable(table, all) && NamesSound(cov, table) && !AllProve(cov, table, dec, epoch)
    ensures !Acceptable(all, known, cov, entries, dec, epoch)
  {
    var i :| 0 <= i < |cov| && !(cov[i].name in table && Proves(cov[i], table[cov[i].name], cov, dec, epoch));
    assert NameSound(cov[i], table);
    TableNames(all, table, cov[i].name);
    assert cov[i] in cov;
  }

  lemma {:induction false} AcceptableWhen(all: seq<Seg>, known: bool, cov: seq<Coverage>, entries: nat, dec: Decisions, epoch: string,
                       table: map<Name, Seg>)
    requires NameTable(table, all) && NamesSound(cov, table) && known && (cov == [] ==> entries == 0)
    requires AllProve(cov, table, dec, epoch)
    ensures Acceptable(all, known, cov, entries, dec, epoch) <==>
      forall i :: 0 <= i < |all| ==> UncoveredOk(all[i], Names(cov), MaxCovered(cov))
  {
    forall seg: Seg
      ensures CovOf(cov, seg.name).None? <==> seg.name !in Names(cov)
    {
      CoveredIffNamed(cov, seg.name);
    }
    forall cv | cv in cov
      ensures HasName(all, cv.name)
      ensures forall seg :: seg in all && seg.name == cv.name ==> Proves(cv, seg, cov, dec, epoch)
    {
      var i :| 0 <= i < |cov| && cov[i] == cv;
      assert NameSound(cov[i], table);
      TableNames(all, table, cv.name);
    }
    if Acceptable(all, known, cov, entries, dec, epoch) {
      forall i | 0 <= i < |all|
        ensures UncoveredOk(all[i], Names(cov), MaxCovered(cov))
      {
        assert all[i] in all;
      }
    }
    assert forall seg :: seg in all ==> exists i :: 0 <= i < |all| && all[i] == seg;
  }

  lemma PlanFits(a: seq<Step>, b: seq<Step>)
    requires forall st :: st in a ==> st.from <= |st.seg.lines|
    requires forall st :: st in b ==> st.from <= |st.seg.lines|
    ensures forall st :: st in a + b ==> st.from <= |st.seg.lines|
  {
  }

  lemma PlanLast(plan: seq<Step>)
    requires plan != [] && forall st :: st in plan ==> st.from <= |st.seg.lines|
    ensures
      var front, st := plan[..|plan| - 1], plan[|plan| - 1];
      PlanSpots(plan) == PlanSpots(front) + Spots(st.seg.name, st.seg.lines, st.from)
  {
    hide Spots;
  }

  lemma {:induction false} PlanConcat(a: seq<Step>, b: seq<Step>)
    requires forall st :: st in a ==> st.from <= |st.seg.lines|
    requires forall st :: st in b ==> st.from <= |st.seg.lines|
    ensures PlanSpots(a + b) == PlanSpots(a) + PlanSpots(b)
  {
    if b == [] {
      assert a + b == a;
    } else {
      hide PlanSpots, Spots;
      var front, st := b[..|b| - 1], b[|b| - 1];
      PlanFits(a, b);
      assert (a + b)[..|a + b| - 1] == a + front;
      PlanConcat(a, front);
      PlanLast(b);
      PlanLast(a + b);
      Associate(PlanSpots(a), PlanSpots(front), Spots(st.seg.name, st.seg.lines, st.from));
    }
  }

  /** Only the newest covered segment can have gained lines. */
  lemma {:induction false} NewestGained(all: seq<Seg>, cov: seq<Coverage>, table: map<Name, Seg>, last: Option<nat>, plan: seq<Step>,
                     dec: Decisions, epoch: string)
    requires NameTable(table, all) && Ordered(all) && NamesSound(cov, table) && IsNewest(cov, last)
    requires AllProve(cov, table, dec, epoch)
    requires plan ==
      if last.Some? && |table[cov[last.value].name].lines| > cov[last.value].size
      then [Step(table[cov[last.value].name], cov[last.value].size)] else []
    ensures PlanSpots(plan) == GainedSpots(all, cov)
  {
    hide Ordered, NameTable, Proves, CovOf, Gained, GainedSpots, PlanSpots, Spots;
    if last.None? {
      NothingCovered(all, cov);
      NoneGained(all, cov);
      NothingPlanned();
    } else {
      var cv := cov[last.value];
      CovOfAt(cov, last.value);
      TableNames(all, table, cv.name);
      var k :| 0 <= k < |all| && all[k] == table[cv.name];
      forall i | 0 <= i < |all| && i != k
        ensures Gained(all[i], cov) == []
      {
        OthersGainNothing(all, cov, table, i, k, dec, epoch);
      }
      OneGained(all, cov, k);
      GainedIs(all[k], cov, cv);
      PlanOne(all[k], cv.size);
      NothingPlanned();
    }
  }

  lemma NothingCovered(all: seq<Seg>, cov: seq<Coverage>)
    requires cov == []
    ensures forall i :: 0 <= i < |all| ==> Gained(all[i], cov) == []
  {
  }

  lemma NothingPlanned()
    ensures PlanSpots([]) == []
  {
  }

  lemma GainedIs(seg: Seg, cov: seq<Coverage>, cv: Coverage)
    requires CovOf(cov, seg.name) == Some(cv) && cv.size <= |seg.lines|
    ensures Gained(seg, cov) == Spots(seg.name, seg.lines, cv.size)
  {
  }

  lemma PlanOne(seg: Seg, from: nat)
    requires from <= |seg.lines|
    ensures PlanSpots([Step(seg, from)]) == Spots(seg.name, seg.lines, from)
    ensures from == |seg.lines| ==> Spots(seg.name, seg.lines, from) == []
  {
    assert [Step(seg, from)][..0] == [];
  }

  lemma {:induction false} OthersGainNothing(all: seq<Seg>, cov: seq<Coverage>, table: map<Name, Seg>, i: nat, k: nat, dec: Decisions, epoch: string)
    requires NameTable(table, all) && Ordered(all) && i < |all| && k < |all| && i != k
    requires all[k].name == Numbered(MaxCovered(cov))
    requires forall i :: 0 <= i < |cov| ==> NameSound(cov[i], table) && Proves(cov[i], table[cov[i].name], cov, dec, epoch)
    ensures Gained(all[i], cov) == []
  {
    CovOfFinds(cov, all[i].name);
    if CovOf(cov, all[i].name).Some? {
      var c :| 0 <= c < |cov| && cov[c] == CovOf(cov, all[i].name).value;
      assert table[all[i].name] == all[i];
      NameIrreflexive(all[i].name);
      assert all[i].name != all[k].name by {
        assert if i < k then NameLess(all[i].name, all[k].name) else NameLess(all[k].name, all[i].name);
      }
      assert Proves(cov[c], all[i], cov, dec, epoch);
    }
  }

  lemma {:induction false} CovOfAt(cov: seq<Coverage>, i: nat)
    requires i < |cov| && forall k, l :: 0 <= k < l < |cov| ==> cov[k].name != cov[l].name
    ensures CovOf(cov, cov[i].name) == Some(cov[i])
  {
    if i < |cov| - 1 {
      CovOfAt(cov[..|cov| - 1], i);
    }
  }

  lemma {:induction false} NoneGained(all: seq<Seg>, cov: seq<Coverage>)
    requires forall i :: 0 <= i < |all| ==> Gained(all[i], cov) == []
    ensures GainedSpots(all, cov) == []
  {
    if all != [] {
      NoneGained(all[..|all| - 1], cov);
    }
  }

  lemma {:induction false} OneGained(all: seq<Seg>, cov: seq<Coverage>, k: nat)
    requires k < |all| && forall i :: 0 <= i < |all| && i != k ==> Gained(all[i], cov) == []
    ensures GainedSpots(all, cov) == Gained(all[k], cov)
  {
    var n := |all| - 1;
    if k == n {
      NoneGained(all[..n], cov);
    } else {
      OneGained(all[..n], cov, k);
    }
  }

  // ----- the primary index -------------------------------------------------------------------------------

  datatype IndexEntry = IndexEntry(name: Name, off: nat, rev: nat, expiresAt: int, epoch: nat)

  type Entries = map<nat, IndexEntry>

  function ApplySpot(m: Entries, s: Spot, dec: Decisions): Entries {
    var e := s.line.entry;
    if !EntryVisible(s.line.tx, dec) then m
    else if e.op.Delete? then m - {e.id}
    else
      var rev := (if e.id in m then m[e.id].rev else 0) + 1;
      m[e.id := IndexEntry(s.name, s.off, Max(rev, e.rev), e.expiresAt, e.epoch)]
  }

  function FoldSpots(m: Entries, spots: seq<Spot>, dec: Decisions): Entries {
    if spots == [] then m
    else ApplySpot(FoldSpots(m, spots[..|spots| - 1], dec), spots[|spots| - 1], dec)
  }

  function LinesOf(spots: seq<Spot>): (r: seq<Line>)
    ensures |r| == |spots| && forall i :: 0 <= i < |r| ==> r[i] == spots[i].line
  {
    seq(|spots|, i requires 0 <= i < |spots| => spots[i].line)
  }

  /** An index entry describes a row, and points at the line that wrote it. */
  ghost predicate Describes(e: IndexEntry, row: Row, id: nat, spots: seq<Spot>) {
    && e.rev == row.rev && e.expiresAt == row.expiresAt && e.epoch == row.epoch
    && exists i :: 0 <= i < |spots| && spots[i].name == e.name && spots[i].off == e.off
        && spots[i].line.entry.id == id && spots[i].line.entry.data == row.data
  }

  /** The index of a log holds exactly the rows the log means. */
  lemma {:induction false} EntriesMeanLog(spots: seq<Spot>, dec: Decisions)
    ensures FoldSpots(map[], spots, dec).Keys == Rebuilt(LinesOf(spots), dec).Keys
    ensures forall id :: id in FoldSpots(map[], spots, dec) ==>
      Describes(FoldSpots(map[], spots, dec)[id], Rebuilt(LinesOf(spots), dec)[id], id, spots)
  {
    if spots != [] {
      var n := |spots| - 1;
      var front, s := spots[..n], spots[n];
      EntriesMeanLog(front, dec);
      assert LinesOf(spots)[..n] == LinesOf(front);
      var m, v := FoldSpots(map[], front, dec), Rebuilt(LinesOf(front), dec);
      assert FoldSpots(map[], spots, dec) == ApplySpot(m, s, dec) && Rebuilt(LinesOf(spots), dec) == ApplyLine(v, s.line, dec);
      hide FoldSpots, Rebuilt, LinesOf, Describes, ApplySpot, ApplyLine;
      forall id | id in m
        ensures Describes(m[id], v[id], id, spots)
      {
        DescribesMore(m[id], v[id], id, spots);
      }
      SpotMeansLine(m, v, spots, dec);
    }
  }

  lemma DescribesMore(e: IndexEntry, row: Row, id: nat, spots: seq<Spot>)
    requires spots != [] && Describes(e, row, id, spots[..|spots| - 1])
    ensures Describes(e, row, id, spots)
  {
    var front := spots[..|spots| - 1];
    var i :| 0 <= i < |front| && front[i].name == e.name && front[i].off == e.off
      && front[i].line.entry.id == id && front[i].line.entry.data == row.data;
    assert spots[i] == front[i];
  }

  lemma SpotMeansLine(m: Entries, v: View, spots: seq<Spot>, dec: Decisions)
    requires spots != [] && m.Keys == v.Keys && forall id :: id in m ==> Describes(m[id], v[id], id, spots)
    ensures
      var s := spots[|spots| - 1];
      var m', v' := ApplySpot(m, s, dec), ApplyLine(v, s.line, dec);
      m'.Keys == v'.Keys && forall id :: id in m' ==> Describes(m'[id], v'[id], id, spots)
  {
    var s := spots[|spots| - 1];
    var e := s.line.entry;
    assert e.id in m <==> e.id in v;
    assert e.id in m ==> m[e.id].rev == v[e.id].rev;
    if EntryVisible(s.line.tx, dec) && !e.op.Delete? {
      assert Describes(ApplySpot(m, s, dec)[e.id], ApplyLine(v, s.line, dec)[e.id], e.id, spots);
    }
    hide Describes;
  }

  lemma {:induction false} FoldSpotsConcat(m: Entries, a: seq<Spot>, b: seq<Spot>, dec: Decisions)
    ensures FoldSpots(m, a + b, dec) == FoldSpots(FoldSpots(m, a, dec), b, dec)
  {
    if b == [] {
      assert a + b == a;
    } else {
      assert (a + b)[..|a + b| - 1] == a + b[..|b| - 1];
      FoldSpotsConcat(m, a, b[..|b| - 1], dec);
    }
  }

  ghost predicate SameVisible(spots: seq<Spot>, dec: Decisions, dec': Decisions) {
    forall i :: 0 <= i < |spots| ==> EntryVisible(spots[i].line.tx, dec) == EntryVisible(spots[i].line.tx, dec')
  }

  lemma {:induction false} FoldSameVisible(m: Entries, spots: seq<Spot>, dec: Decisions, dec': Decisions)
    requires SameVisible(spots, dec, dec')
    ensures FoldSpots(m, spots, dec) == FoldSpots(m, spots, dec')
  {
    if spots != [] {
      FoldSameVisible(m, spots[..|spots| - 1], dec, dec');
    }
  }

  // ----- what the persisted lists say ----------------------------------------------------------------

  ghost predicate StampedIn(lines: seq<Line>, t: TxId) {
    exists i :: 0 <= i < |lines| && lines[i].tx.Some? && lines[i].tx.value.t == t
  }

  /** How coverage is captured: the list holds the transactions visible in the recorded lines at that time. */
  ghost predicate Captured(cov: seq<Coverage>, dec: Decisions) {
    forall cv, t :: cv in cov ==> (t in cv.applied <==> StampedIn(Recorded(cv), t) && Committed(dec, t))
  }

  /** No transaction in the recorded lines was committed after a list was taken. */
  ghost predicate ListsComplete(cov: seq<Coverage>, dec: Decisions) {
    forall cv, t :: cv in cov && cv.applied != [] && StampedIn(Recorded(cv), t) && Committed(dec, t) ==> t in cv.applied
  }

  lemma CoveredVisible(cv: Coverage, seg: Seg, cov: seq<Coverage>, i: nat, dec: Decisions, dec': Decisions, epoch: string)
    requires cv in cov && Proves(cv, seg, cov, dec', epoch) && Captured(cov, dec) && ListsComplete(cov, dec')
    requires i < |Recorded(cv)|
    ensures EntryVisible(Recorded(cv)[i].tx, dec) == EntryVisible(Recorded(cv)[i].tx, dec')
  {
    if Recorded(cv)[i].tx.Some? {
      var t := Recorded(cv)[i].tx.value.t;
      assert StampedIn(Recorded(cv), t);
      assert t in cv.applied <==> Committed(dec, t);
      assert Committed(dec', t) ==> HasCommitted(seg.lines[..cv.size], dec');
    }
  }

  lemma {:induction false} RecordedVisible(all: seq<Seg>, cov: seq<Coverage>, dec: Decisions, dec': Decisions, epoch: string)
    requires Captured(cov, dec) && ListsComplete(cov, dec')
    requires forall cv, seg :: cv in cov && seg in all && seg.name == cv.name ==> Proves(cv, seg, cov, dec', epoch)
    ensures SameVisible(RecordedSpots(all, cov), dec, dec')
  {
    if all != [] {
      var n := |all| - 1;
      var front, seg := all[..n], all[n];
      assert forall x :: x in front ==> x in all;
      RecordedVisible(front, cov, dec, dec', epoch);
      CovOfFinds(cov, seg.name);
      var cv := CovOf(cov, seg.name);
      if cv.Some? {
        assert seg in all;
        forall i | 0 <= i < |Recorded(cv.value)|
          ensures EntryVisible(Recorded(cv.value)[i].tx, dec) == EntryVisible(Recorded(cv.value)[i].tx, dec')
        {
          CoveredVisible(cv.value, seg, cov, i, dec, dec', epoch);
        }
      }
    }
  }

  /** Replaying an accepted plan onto what the persisted index was built from gives the index of the whole log. */
  lemma ReplayIsRebuild(all: seq<Seg>, known: bool, cov: seq<Coverage>, entries: Entries, dec: Decisions, dec': Decisions, epoch: string,
                        plan: seq<Spot>)
    requires Acceptable(all, known, cov, |entries|, dec', epoch) && Captured(cov, dec) && ListsComplete(cov, dec')
    requires entries == FoldSpots(map[], RecordedSpots(all, cov), dec)
    requires RecordedSpots(all, cov) + plan == AllSpots(all)
    ensures FoldSpots(entries, plan, dec') == FoldSpots(map[], AllSpots(all), dec')
  {
    RecordedVisible(all, cov, dec, dec', epoch);
    FoldSameVisible(map[], RecordedSpots(all, cov), dec, dec');
    FoldSpotsConcat(map[], RecordedSpots(all, cov), plan, dec');
  }

  // A run committed after the coverage was taken: `first` was visible then, `second` was not yet.

  function StaleLine(id: nat, t: TxId, d: Data): Line {
    Line(Entry(id, Insert, 1, d, 0, 0), Some(Stamp(t, 0, 1)))
  }

  function StaleSeg(first: TxId, second: TxId, d: Data): Seg {
    Seg(Numbered(1), [StaleLine(1, first, d), StaleLine(2, second, d)])
  }

  function StaleCov(first: TxId, second: TxId, d: Data): Coverage {
    Coverage(Numbered(1), 2, Some(StaleSeg(first, second, d).lines), [first], "")
  }

  lemma StaleSpots(first: TxId, second: TxId, d: Data)
    ensures
      var all, cov := [StaleSeg(first, second, d)], [StaleCov(first, second, d)];
      RecordedSpots(all, cov) == AllSpots(all) ==
        [Spot(Numbered(1), 0, StaleLine(1, first, d)), Spot(Numbered(1), 1, StaleLine(2, second, d))]
  {
    var seg, cv := StaleSeg(first, second, d), StaleCov(first, second, d);
    assert [cv][..0] == [] && [seg][..0] == [];
    assert CovOf([cv], Numbered(1)) == Some(cv);
    assert AllSpots([]) == [] && RecordedSpots([], [cv]) == [];
    assert AllSpots([seg]) == [] + Spots(Numbered(1), seg.lines, 0);
    assert RecordedSpots([seg], [cv]) == [] + Spots(Numbered(1), Recorded(cv), 0);
  }

  lemma StaleAcceptable(first: TxId, second: TxId, d: Data, entries: nat, dec: Decisions)
    requires Committed(dec, first)
    ensures Acceptable([StaleSeg(first, second, d)], true, [StaleCov(first, second, d)], entries, dec, "")
  {
    var seg, cv := StaleSeg(first, second, d), StaleCov(first, second, d);
    assert [cv][..0] == [] && MaxCovered([cv]) == 1;
    assert seg.lines[..2] == seg.lines;
    assert Proves(cv, seg, [cv], dec, "");
    assert [seg][0].name == cv.name;
    assert CovOf([cv], Numbered(1)) == Some(cv);
  }

  /** Without complete lists an accepted index can be stale: record 2 is in the log and missing from the index. */
  lemma StaleListAccepted(first: TxId, second: TxId, d: Data)
    requires first != second
    ensures
      var all, cov := [StaleSeg(first, second, d)], [StaleCov(first, second, d)];
      var dec: Decisions := map[first := Decision(Commit, false)];
      var dec': Decisions := dec[second := Decision(Commit, false)];
      var entries := FoldSpots(map[], RecordedSpots(all, cov), dec);
      && Captured(cov, dec) && Acceptable(all, true, cov, |entries|, dec', "")
      && RecordedSpots(all, cov) + [] == AllSpots(all)
      && 2 !in entries && 2 in FoldSpots(map[], AllSpots(all), dec')
  {
    var dec: Decisions := map[first := Decision(Commit, false)];
    var dec': Decisions := dec[second := Decision(Commit, false)];
    var all, cv := [StaleSeg(first, second, d)], StaleCov(first, second, d);
    StaleSpots(first, second, d);
    StaleAcceptable(first, second, d, |FoldSpots(map[], RecordedSpots(all, [cv]), dec)|, dec');
    assert Recorded(cv)[0].tx == Some(Stamp(first, 0, 1));
    assert Captured([cv], dec);
    hide Acceptable, Captured, RecordedSpots, AllSpots;
    var one, two := Spot(Numbered(1), 0, StaleLine(1, first, d)), Spot(Numbered(1), 1, StaleLine(2, second, d));
    assert [one, two][..1] == [one] && [one][..0] == [];
    assert FoldSpots(map[], [one], dec) == ApplySpot(map[], one, dec);
    assert FoldSpots(map[], [one, two], dec) == ApplySpot(FoldSpots(map[], [one], dec), two, dec);
    assert FoldSpots(map[], [one, two], dec') == ApplySpot(FoldSpots(map[], [one], dec'), two, dec');
  }

  class Index {
    var entries: Entries

    constructor ()
      ensures entries == map[]
    {
      entries := map[];
    }

    /** Replays one segment from a line on. */
    method ApplyEntries(seg: Seg, from: nat, dec: Decisions)
      requires from <= |seg.lines|
      modifies this
      ensures entries == FoldSpots(old(entries), Spots(seg.name, seg.lines, from), dec)
    {
      ghost var spots := Spots(seg.name, seg.lines, from);
      for off := from to |seg.lines|
        invariant entries == FoldSpots(old(entries), spots[..off - from], dec)
      {
        var l := seg.lines[off];
        assert spots[..off + 1 - from][..off - from] == spots[..off - from];
        if EntryVisible(l.tx, dec) {
          if l.entry.op.Delete? {
            entries := entries - {l.entry.id};
          } else {
            var rev := (if l.entry.id in entries then entries[l.entry.id].rev else 0) + 1;
            if l.entry.rev > rev {
              rev := l.entry.rev;
            }
            entries := entries[l.entry.id := IndexEntry(seg.name, off, rev, l.entry.expiresAt, l.entry.epoch)];
          }
        }
      }
      assert spots[..|seg.lines| - from] == spots;
    }

    method Rebuild(all: seq<Seg>, dec: Decisions)
      modifies this
      ensures entries == FoldSpots(map[], AllSpots(all), dec)
    {
      entries := map[];
      for i := 0 to |all|
        invariant entries == FoldSpots(map[], AllSpots(all[..i]), dec)
      {
        assert all[..i + 1][..i] == all[..i];
        FoldSpotsConcat(map[], AllSpots(all[..i]), Spots(all[i].name, all[i].lines, 0), dec);
        ApplyEntries(all[i], 0, dec);
      }
      assert all[..|all|] == all;
    }

    method Replay(plan: seq<Step>, dec: Decisions)
      requires forall st :: st in plan ==> st.from <= |st.seg.lines|
      modifies this
      ensures entries == FoldSpots(old(entries), PlanSpots(plan), dec)
    {
      for i := 0 to |plan|
        invariant forall st :: st in plan[..i] ==> st.from <= |st.seg.lines|
        invariant entries == FoldSpots(old(entries), PlanSpots(plan[..i]), dec)
      {
        assert plan[..i + 1][..i] == plan[..i] && plan[i] in plan;
        FoldSpotsConcat(old(entries), PlanSpots(plan[..i]), Spots(plan[i].seg.name, plan[i].seg.lines, plan[i].from), dec);
        ApplyEntries(plan[i].seg, plan[i].from, dec);
      }
      assert plan[..|plan|] == plan;
    }

    /**
     Brings the index up to date at open. `file` is the loaded index, if it could be loaded;
     `sampled` is the verdict of the random spot checks.
     */
    method Recover(all: seq<Seg>, file: Option<IndexFile>, force: bool, sampled: bool, dec: Decisions, epoch: string,
                   ghost before: Decisions)
      returns (changed: bool)
      requires Ordered(all)
      requires file.Some? ==>
        && Captured(file.value.cov, before) && ListsComplete(file.value.cov, dec)
        && file.value.entries == FoldSpots(map[], RecordedSpots(all, file.value.cov), before)
      modifies this
      ensures entries == FoldSpots(map[], AllSpots(all), dec)
      ensures !changed ==> file.Some? && entries == file.value.entries
      ensures !changed ==> !force && sampled && Acceptable(all, file.value.known, file.value.cov, |file.value.entries|, dec, epoch)
    {
      if force || file.None? {
        Rebuild(all, dec);
        return true;
      }
      entries := file.value.entries;
      var plan, ok := PlanReplayFor(all, file.value.known, file.value.cov, |file.value.entries|, dec, epoch);
      if !ok {
        Rebuild(all, dec);
        return true;
      }
      Replay(plan, dec);
      ReplayIsRebuild(all, file.value.known, file.value.cov, file.value.entries, before, dec, epoch, PlanSpots(plan));
      if !sampled {
        Rebuild(all, dec);
        return true;
      }
      changed := |plan| != 0;
    }
  }

  /** A loaded index file: its entries, whether it records coverage at all, and the coverage. */
  datatype IndexFile = IndexFile(entries: Entries, known: bool, cov: seq<Coverage>)

  // ----- secondary indexes -----------------------------------------------------------------------------

  function ApplyValue(vals: map<nat, Value>, l: Line, field: string, dec: Decisions): map<nat, Value> {
    var e := l.entry;
    if !EntryVisible(l.tx, dec) then vals
    else if e.op.Delete? || field !in e.data || !Accepts(field, e.data[field]) then vals - {e.id}
    else vals[e.id := e.data[field]]
  }

  function FoldValues(vals: map<nat, Value>, spots: seq<Spot>, field: string, dec: Decisions): map<nat, Value> {
    if spots == [] then vals
    else ApplyValue(FoldValues(vals, spots[..|spots| - 1], field, dec), spots[|spots| - 1].line, field, dec)
  }

  /** Replaying values keeps a secondary index in step with the rows the log means. */
  lemma {:induction false} ValuesMeanLog(spots: seq<Spot>, field: string, dec: Decisions)
    ensures FoldValues(map[], spots, field, dec) == Indexed(Rebuilt(LinesOf(spots), dec), field)
  {
    if spots != [] {
      var n := |spots| - 1;
      ValuesMeanLog(spots[..n], field, dec);
      assert LinesOf(spots)[..n] == LinesOf(spots[..n]);
      ValueStep(Rebuilt(LinesOf(spots[..n]), dec), spots[n].line, field, dec);
    }
  }

  lemma ValueStep(v: View, l: Line, field: string, dec: Decisions)
    ensures ApplyValue(Indexed(v, field), l, field, dec) == Indexed(ApplyLine(v, l, dec), field)
  {
  }

  lemma {:induction false} FoldValuesConcat(vals: map<nat, Value>, a: seq<Spot>, b: seq<Spot>, field: string, dec: Decisions)
    ensures FoldValues(vals, a + b, field, dec) == FoldValues(FoldValues(vals, a, field, dec), b, field, dec)
  {
    if b == [] {
      assert a + b == a;
    } else {
      assert (a + b)[..|a + b| - 1] == a + b[..|b| - 1];
      FoldValuesConcat(vals, a, b[..|b| - 1], field, dec);
    }
  }

  lemma {:induction false} ValuesSameVisible(vals: map<nat, Value>, spots: seq<Spot>, field: string, dec: Decisions, dec': Decisions)
    requires SameVisible(spots, dec, dec')
    ensures FoldValues(vals, spots, field, dec) == FoldValues(vals, spots, field, dec')
  {
    if spots != [] {
      ValuesSameVisible(vals, spots[..|spots| - 1], field, dec, dec');
    }
  }

  /** Replays one segment onto a secondary index from a line on. */
  method ReplaySecondary(sidx: SecondaryIndex.Index, seg: Seg, from: nat, dec: Decisions)
    requires sidx.Valid() && from <= |seg.lines|
    modifies sidx
    ensures sidx.Valid() && sidx.vals == FoldValues(old(sidx.vals), Spots(seg.name, seg.lines, from), sidx.field, dec)
  {
    hide SecondaryIndex.Index.Valid;
    ghost var spots := Spots(seg.name, seg.lines, from);
    for off := from to |seg.lines|
      invariant sidx.Valid() && sidx.vals == FoldValues(old(sidx.vals), spots[..off - from], sidx.field, dec)
    {
      var l := seg.lines[off];
      assert spots[..off + 1 - from][..off - from] == spots[..off - from];
      if EntryVisible(l.tx, dec) {
        if !l.entry.op.Delete? && sidx.field in l.entry.data {
          sidx.Update(l.entry.id, l.entry.data[sidx.field]);
        } else {
          sidx.Remove(l.entry.id);
        }
      }
    }
    assert spots[..|seg.lines| - from] == spots;
  }

  /** The last visible data of every record; none once deleted. */
  function Latest(m: map<nat, Option<Data>>, spots: seq<Spot>, dec: Decisions): map<nat, Option<Data>> {
    if spots == [] then m
    else
      var n := |spots| - 1;
      var l, front := spots[n].line, Latest(m, spots[..n], dec);
      if !EntryVisible(l.tx, dec) then front
      else front[l.entry.id := if l.entry.op.Delete? then None else Some(l.entry.data)]
  }

  function LatestValues(m: map<nat, Option<Data>>, field: string): map<nat, Value> {
    map id | id in m && m[id].Some? && field in m[id].value && Accepts(field, m[id].value[field]) :: m[id].value[field]
  }

  lemma {:induction false} LatestIsFold(spots: seq<Spot>, field: string, dec: Decisions)
    ensures LatestValues(Latest(map[], spots, dec), field) == FoldValues(map[], spots, field, dec)
  {
    if spots != [] {
      LatestIsFold(spots[..|spots| - 1], field, dec);
    }
  }

  lemma {:induction false} LatestConcat(m: map<nat, Option<Data>>, a: seq<Spot>, b: seq<Spot>, dec: Decisions)
    ensures Latest(m, a + b, dec) == Latest(Latest(m, a, dec), b, dec)
  {
    if b == [] {
      assert a + b == a;
    } else {
      assert (a + b)[..|a + b| - 1] == a + b[..|b| - 1];
      LatestConcat(m, a, b[..|b| - 1], dec);
    }
  }

  /** Collects the last version of every record over all segments. */
  method CollectLatest(all: seq<Seg>, dec: Decisions) returns (latest: map<nat, Option<Data>>)
    ensures latest == Latest(map[], AllSpots(all), dec)
  {
    latest := map[];
    for i := 0 to |all|
      invariant latest == Latest(map[], AllSpots(all[..i]), dec)
    {
      assert all[..i + 1][..i] == all[..i];
      ghost var spots, m := Spots(all[i].name, all[i].lines, 0), latest;
      for off := 0 to |all[i].lines|
        invariant latest == Latest(m, spots[..off], dec)
      {
        var l := all[i].lines[off];
        assert spots[..off + 1][..off] == spots[..off];
        if EntryVisible(l.tx, dec) {
          latest := latest[l.entry.id := if l.entry.op.Delete? then None else Some(l.entry.data)];
        }
      }
      assert spots[..|all[i].lines|] == spots;
      LatestConcat(map[], AllSpots(all[..i]), spots, dec);
    }
    assert all[..|all|] == all;
  }

  /** A secondary index built from every segment. */
  method RebuildSecondary(all: seq<Seg>, field: string, c: Codec, dec: Decisions) returns (sidx: SecondaryIndex.Index)
    requires ValidCodec(c)
    ensures fresh(sidx) && sidx.Valid() && sidx.field == field && sidx.codec == c
    ensures sidx.vals == FoldValues(map[], AllSpots(all), field, dec)
  {
    hide SecondaryIndex.Index.Valid;
    var latest := CollectLatest(all, dec);
    sidx := new SecondaryIndex.Index(field, c);
    var rest := latest.Keys;
    while rest != {}
      invariant fresh(sidx) && sidx.Valid() && sidx.field == field && sidx.codec == c && rest <= latest.Keys
      invariant sidx.vals == LatestValues(latest, field) - rest
      decreases rest
    {
      var id :| id in rest;
      rest := rest - {id};
      if latest[id].Some? && field in latest[id].value {
        sidx.Add(latest[id].value[field], id);
      }
    }
    assert LatestValues(latest, field) - {} == LatestValues(latest, field);
    LatestIsFold(AllSpots(all), field, dec);
  }

  /** Brings a loaded secondary index up to date at open, or replaces it. */
  method RecoverSecondary(loaded: SecondaryIndex.Index, known: bool, cov: seq<Coverage>, all: seq<Seg>, force: bool,
                          dec: Decisions, epoch: string, ghost before: Decisions)
    returns (sidx: SecondaryIndex.Index)
    requires Ordered(all) && loaded.Valid() && Captured(cov, before) && ListsComplete(cov, dec)
    requires loaded.vals == FoldValues(map[], RecordedSpots(all, cov), loaded.field, before)
    modifies loaded
    ensures sidx.Valid() && sidx.field == loaded.field
    ensures sidx.vals == Indexed(Rebuilt(LinesOf(AllSpots(all)), dec), sidx.field)
  {
    ValuesMeanLog(AllSpots(all), loaded.field, dec);
    assert ValidCodec(loaded.codec);
    hide SecondaryIndex.Index.Valid, Acceptable, Captured, ListsComplete, Ordered;
    if force {
      sidx := RebuildSecondary(all, loaded.field, loaded.codec, dec);
      return;
    }
    var plan, ok := PlanReplayFor(all, known, cov, |loaded.buckets|, dec, epoch);
    if !ok {
      sidx := RebuildSecondary(all, loaded.field, loaded.codec, dec);
      return;
    }
    ghost var base := loaded.vals;
    for i := 0 to |plan|
      invariant loaded.Valid() && forall st :: st in plan[..i] ==> st.from <= |st.seg.lines|
      invariant loaded.vals == FoldValues(base, PlanSpots(plan[..i]), loaded.field, dec)
    {
      assert plan[..i + 1][..i] == plan[..i] && plan[i] in plan;
      FoldValuesConcat(base, PlanSpots(plan[..i]), Spots(plan[i].seg.name, plan[i].seg.lines, plan[i].from), loaded.field, dec);
      ReplaySecondary(loaded, plan[i].seg, plan[i].from, dec);
    }
    assert plan[..|plan|] == plan;
    sidx := loaded;
    ValuesReplayed(all, known, cov, |old(loaded.buckets)|, base, loaded.field, before, dec, epoch, PlanSpots(plan));
  }

  lemma ValuesReplayed(all: seq<Seg>, known: bool, cov: seq<Coverage>, entries: nat, vals: map<nat, Value>, field: string,
                       dec: Decisions, dec': Decisions, epoch: string, plan: seq<Spot>)
    requires Acceptable(all, known, cov, entries, dec', epoch) && Captured(cov, dec) && ListsComplete(cov, dec')
    requires vals == FoldValues(map[], RecordedSpots(all, cov), field, dec)
    requires RecordedSpots(all, cov) + plan == AllSpots(all)
    ensures FoldValues(vals, plan, field, dec') == FoldValues(map[], AllSpots(all), field, dec')
  {
    RecordedVisible(all, cov, dec, dec', epoch);
    ValuesSameVisible(map[], RecordedSpots(all, cov), field, dec, dec');
    FoldValuesConcat(map[], RecordedSpots(all, cov), plan, field, dec');
  }
}
