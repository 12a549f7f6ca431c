/**
 Repair of a damaged collection: records of damaged segments move to a new last segment,
 segments without a number are adopted behind the numbered ones. Both change the replay
 order; the plan is refused unless no record's history is affected.
 */
module Repair {
  import opened Values
  import opened Log

  /** A segment as the tolerant scan sees it: its number, its valid records, and whether other bytes are damaged. */
  datatype Seg = Seg(number: Option<nat>, entries: seq<Line>, damaged: bool)

  /** Why segments are moved: salvage takes the damaged ones, adoption those without a number. */
  datatype Plan = Salvage | Adoption

  predicate Moves(s: Seg, plan: Plan) {
    if plan.Salvage? then s.damaged else s.number.None?
  }

  function Whole(segs: seq<Seg>): seq<Line> {
    if segs == [] then [] else Whole(segs[..|segs| - 1]) + segs[|segs| - 1].entries
  }

  /** The records of the segments that move, or of those that stay, in segment order. */
  function Picked(segs: seq<Seg>, plan: Plan, move: bool): seq<Line> {
    if segs == [] then []
    else Picked(segs[..|segs| - 1], plan, move) + if Moves(segs[|segs| - 1], plan) == move then segs[|segs| - 1].entries else []
  }

  /** The log once the segments to be moved stand behind all others. */
  function Reordered(segs: seq<Seg>, plan: Plan): seq<Line> {
    Picked(segs, plan, false) + Picked(segs, plan, true)
  }

  function Ids(ls: seq<Line>): set<nat> {
    set i | 0 <= i < |ls| :: ls[i].entry.id
  }

  /** No segment that stays shares a record with a moved segment before it. */
  ghost predicate Movable(segs: seq<Seg>, plan: Plan) {
    forall i, j :: 0 <= i < j < |segs| && Moves(segs[i], plan) && !Moves(segs[j], plan) ==> Ids(segs[i].entries) !! Ids(segs[j].entries)
  }

  // ----- reordering keeps every history -----------------------------------------------------------------

  lemma {:induction false} UntouchedElsewhere(ls: seq<Line>, dec: Decisions, id: nat)
    requires id !in Ids(ls)
    ensures Touching(ls, dec, id) == []
  {
    if ls != [] {
      var front := ls[..|ls| - 1];
      assert forall i :: 0 <= i < |front| ==> front[i] == ls[i] && ls[i].entry.id in Ids(ls);
      assert ls[|ls| - 1].entry.id in Ids(ls);
      UntouchedElsewhere(front, dec, id);
    }
  }

  lemma {:induction false} PickedUntouched(segs: seq<Seg>, plan: Plan, move: bool, dec: Decisions, id: nat)
    requires forall i :: 0 <= i < |segs| && Moves(segs[i], plan) == move ==> id !in Ids(segs[i].entries)
    ensures Touching(Picked(segs, plan, move), dec, id) == []
  {
    if segs != [] {
      var n := |segs| - 1;
      PickedUntouched(segs[..n], plan, move, dec, id);
      var last := if Moves(segs[n], plan) == move then segs[n].entries else [];
      TouchingConcat(Picked(segs[..n], plan, move), last, dec, id);
      if Moves(segs[n], plan) == move {
        UntouchedElsewhere(segs[n].entries, dec, id);
      }
    }
  }

  lemma PickNext(segs: seq<Seg>, plan: Plan, move: bool, dec: Decisions, id: nat)
    requires segs != []
    ensures
      var n := |segs| - 1;
      Touching(Picked(segs, plan, move), dec, id) ==
      Touching(Picked(segs[..n], plan, move), dec, id) + if Moves(segs[n], plan) == move then Touching(segs[n].entries, dec, id) else []
  {
    var n := |segs| - 1;
    TouchingConcat(Picked(segs[..n], plan, move), if Moves(segs[n], plan) == move then segs[n].entries else [], dec, id);
  }

  lemma LastStays(segs: seq<Seg>, plan: Plan, dec: Decisions, id: nat)
    requires Movable(segs, plan) && segs != [] && !Moves(segs[|segs| - 1], plan)
    ensures
      var n := |segs| - 1;
      Touching(Picked(segs[..n], plan, true), dec, id) == [] || Touching(segs[n].entries, dec, id) == []
  {
    var n := |segs| - 1;
    hide Touching, Picked;
    if id in Ids(segs[n].entries) {
      forall i | 0 <= i < n && Moves(segs[..n][i], plan)
        ensures id !in Ids(segs[..n][i].entries)
      {
        assert segs[..n][i] == segs[i];
      }
      PickedUntouched(segs[..n], plan, true, dec, id);
    } else {
      UntouchedElsewhere(segs[n].entries, dec, id);
    }
  }

  lemma MovableFront(segs: seq<Seg>, plan: Plan)
    requires Movable(segs, plan) && segs != []
    ensures Movable(segs[..|segs| - 1], plan)
  {
  }

  lemma WholeNext(segs: seq<Seg>, dec: Decisions, id: nat)
    requires segs != []
    ensures
      var n := |segs| - 1;
      Touching(Whole(segs), dec, id) == Touching(Whole(segs[..n]), dec, id) + Touching(segs[n].entries, dec, id)
  {
    TouchingConcat(Whole(segs[..|segs| - 1]), segs[|segs| - 1].entries, dec, id);
  }

  lemma NothingYet(plan: Plan, dec: Decisions, id: nat)
    ensures Touching(Whole([]), dec, id) == [] && forall move :: Touching(Picked([], plan, move), dec, id) == []
  {
  }

  /** Each record's history reads the same before and after. */
  lemma {:induction false} HistoryKept(segs: seq<Seg>, plan: Plan, dec: Decisions, id: nat)
    requires Movable(segs, plan)
    ensures Touching(Whole(segs), dec, id) ==
      Touching(Picked(segs, plan, false), dec, id) + Touching(Picked(segs, plan, true), dec, id)
  {
    hide *;
    if segs == [] {
      NothingYet(plan, dec, id);
    } else {
      var n := |segs| - 1;
      var front, last := segs[..n], Touching(segs[n].entries, dec, id);
      MovableFront(segs, plan);
      HistoryKept(front, plan, dec, id);
      WholeNext(segs, dec, id);
      PickNext(segs, plan, true, dec, id);
      PickNext(segs, plan, false, dec, id);
      var stay, gone := Touching(Picked(front, plan, false), dec, id), Touching(Picked(front, plan, true), dec, id);
      if Moves(segs[n], plan) {
        assert (stay + gone) + last == (stay + []) + (gone + last);
      } else {
        LastStays(segs, plan, dec, id);
        Commute(stay, gone, last);
      }
    }
  }

  lemma Commute(a: seq<Log.Entry>, b: seq<Log.Entry>, t: seq<Log.Entry>)
    requires b == [] || t == []
    ensures (a + b) + t == (a + t) + (b + [])
  {
  }

  /** A plan that is not refused leaves every record's data and revision as they were. */
  lemma ReorderKeepsMeaning(segs: seq<Seg>, plan: Plan, dec: Decisions)
    requires Movable(segs, plan)
    ensures Rebuilt(Reordered(segs, plan), dec) == Rebuilt(Whole(segs), dec)
  {
    forall id: nat
      ensures Touching(Reordered(segs, plan), dec, id) == Touching(Whole(segs), dec, id)
    {
      HistoryKept(segs, plan, dec, id);
      TouchingConcat(Picked(segs, plan, false), Picked(segs, plan, true), dec, id);
    }
    SameHistoriesSameMeaning(map[], Reordered(segs, plan), Whole(segs), dec);
  }

  /** The refusal is needed: an update kept behind a moved insert of the same record would be undone. */
  lemma RefusedReorderChanges(id: nat, before: Data, after: Data)
    requires before != after
    ensures
      var segs := [Seg(Some(1), [Line(Entry(id, Insert, 1, before, 0, 0), None)], true),
                   Seg(Some(2), [Line(Entry(id, Update, 2, after, 0, 0), None)], false)];
      !Movable(segs, Salvage) && Rebuilt(Reordered(segs, Salvage), map[]) != Rebuilt(Whole(segs), map[])
  {
    hide *;
    var ins, upd := Line(Entry(id, Insert, 1, before, 0, 0), None), Line(Entry(id, Update, 2, after, 0, 0), None);
    var first, second := Seg(Some(1), [ins], true), Seg(Some(2), [upd], false);
    TwoSegments(first, second);
    Overlap(first, second, ins, upd);
    assert [ins] + [upd] == [ins, upd] && [upd] + [ins] == [upd, ins];
    LastWins(ins, upd);
    LastWins(upd, ins);
  }

  lemma TwoSegments(a: Seg, b: Seg)
    requires a.damaged && !b.damaged
    ensures Whole([a, b]) == a.entries + b.entries && Reordered([a, b], Salvage) == b.entries + a.entries
  {
    assert [a, b][..1] == [a];
    PickedOne(a);
    assert Picked([a, b], Salvage, false) == [] + b.entries;
    assert Picked([a, b], Salvage, true) == a.entries + [];
  }

  lemma Overlap(a: Seg, b: Seg, x: Line, y: Line)
    requires a.damaged && !b.damaged && a.entries == [x] && b.entries == [y] && x.entry.id == y.entry.id
    ensures !Movable([a, b], Salvage)
  {
    var segs := [a, b];
    assert a.entries[0].entry.id in Ids(segs[0].entries) && b.entries[0].entry.id in Ids(segs[1].entries);
  }

  lemma PickedOne(s: Seg)
    ensures Whole([s]) == s.entries
    ensures forall move :: Picked([s], Salvage, move) == if s.damaged == move then s.entries else []
  {
    assert [s][..0] == [];
  }

  lemma LastWins(a: Line, b: Line)
    requires a.tx.None? && b.tx.None? && a.entry.id == b.entry.id && !a.entry.op.Delete? && !b.entry.op.Delete?
    ensures b.entry.id in Rebuilt([a, b], map[]) && Rebuilt([a, b], map[])[b.entry.id].data == b.entry.data
  {
    assert [a, b][..1] == [a] && [a][..0] == [];
  }

  // ----- planning ------------------------------------------------------------------------------------------

  method CollectIds(ls: seq<Line>) returns (ids: set<nat>)
    ensures ids == Ids(ls)
  {
    ids := {};
    for i := 0 to |ls|
      invariant ids == Ids(ls[..i])
    {
      IdsNext(ls, i);
      ids := ids + {ls[i].entry.id};
    }
    assert ls[..|ls|] == ls;
  }

  lemma IdsNext(ls: seq<Line>, i: nat)
    requires i < |ls|
    ensures Ids(ls[..i + 1]) == Ids(ls[..i]) + {ls[i].entry.id}
  {
    var a, b := ls[..i], ls[..i + 1];
    assert b[i] == ls[i];
    assert forall k :: 0 <= k < i ==> a[k] == b[k];
    forall k | 0 <= k < i
      ensures a[k].entry.id in Ids(b)
    {
      assert b[k] == a[k];
    }
  }

  /** Whether a segment shares a record with a set of ids. */
  method Shares(ids: set<nat>, ls: seq<Line>) returns (shares: bool)
    ensures shares <==> !(ids !! Ids(ls))
  {
    for i := 0 to |ls|
      invariant forall k :: 0 <= k < i ==> ls[k].entry.id !in ids
    {
      if ls[i].entry.id in ids {
        assert ls[i].entry.id in Ids(ls);
        return true;
      }
    }
    shares := false;
  }

  /** Salvage: damaged segments move unless a later intact segment shares a record with one of them. */
  method PlanSalvage(segs: seq<Seg>) returns (ok: bool)
    ensures ok <==> Movable(segs, Salvage)
  {
    for i := 0 to |segs|
      invariant forall a, b :: 0 <= a < i && a < b < |segs| && segs[a].damaged && !segs[b].damaged ==>
        Ids(segs[a].entries) !! Ids(segs[b].entries)
    {
      if segs[i].damaged {
        var mine := CollectIds(segs[i].entries);
        for j := i + 1 to |segs|
          invariant forall b :: i < b < j && !segs[b].damaged ==> mine !! Ids(segs[b].entries)
        {
          if !segs[j].damaged {
            var shares := Shares(mine, segs[j].entries);
            if shares {
              return false;
            }
          }
        }
      }
    }
    ok := true;
  }

  /** The bytes of the new segment: the valid records of the damaged ones, in segment order. */
  method WriteSalvage(segs: seq<Seg>) returns (out: seq<Line>)
    ensures out == Picked(segs, Salvage, true)
  {
    out := [];
    for i := 0 to |segs|
      invariant out == Picked(segs[..i], Salvage, true)
    {
      assert segs[..i + 1][..i] == segs[..i];
      if segs[i].damaged {
        out := out + segs[i].entries;
      }
    }
    assert segs[..|segs|] == segs;
  }

  /** Adoption: unnumbered segments get numbers above all others, unless one shares a record with any other segment. */
  method PlanAdoption(segs: seq<Seg>) returns (ok: bool, next: nat)
    ensures ok <==> forall i, j :: 0 <= i < |segs| && 0 <= j < |segs| && i != j && segs[i].number.None? ==>
      Ids(segs[i].entries) !! Ids(segs[j].entries)
    ensures forall i :: 0 <= i < |segs| && segs[i].number.Some? ==> segs[i].number.value < next
    ensures next == 1 || exists i :: 0 <= i < |segs| && segs[i].number == Some(next - 1)
    ensures ok ==> Movable(segs, Adoption)
  {
    next := 1;
    for i := 0 to |segs|
      invariant forall k :: 0 <= k < i && segs[k].number.Some? ==> segs[k].number.value < next
      invariant next == 1 || exists k :: 0 <= k < i && segs[k].number == Some(next - 1)
    {
      if segs[i].number.Some? && segs[i].number.value >= next {
        next := segs[i].number.value + 1;
      }
    }
    for i := 0 to |segs|
      invariant forall a, b :: 0 <= a < i && 0 <= b < |segs| && a != b && segs[a].number.None? ==>
        Ids(segs[a].entries) !! Ids(segs[b].entries)
    {
      if segs[i].number.None? {
        var mine := CollectIds(segs[i].entries);
        for j := 0 to |segs|
          invariant forall b :: 0 <= b < j && b != i ==> mine !! Ids(segs[b].entries)
        {
          if j != i {
            var shares := Shares(mine, segs[j].entries);
            if shares {
              return false, next;
            }
          }
        }
      }
    }
    ok := true;
  }
}
