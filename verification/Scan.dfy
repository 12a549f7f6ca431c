/**
 Reading a captured view: the full scan of the log, the scan of index candidates,
 and counting. All three must agree on what the view holds.
 */
module Scan {
  import opened Values
  import opened Log
  import opened Query
  import opened SecondaryIndex

  // ----- the primary index ---------------------------------------------------------------------------

  /** Where a record's current line is, as a position in the concatenated segments, with its row. */
  datatype Loc = Loc(pos: nat, row: Row)

  type Locs = map<nat, Loc>

  function PlaceLine(locs: Locs, pos: nat, l: Line, dec: Decisions): Locs {
    var e := l.entry;
    if !EntryVisible(l.tx, dec) then locs
    else
      var was := if e.id in locs then Some(locs[e.id].row) else None;
      match Stepped(was, e)
      case None => locs - {e.id}
      case Some(row) => locs[e.id := Loc(pos, row)]
  }

  /** The primary index of a log. */
  function Placed(log: seq<Line>, dec: Decisions): Locs {
    if |log| == 0 then map[]
    else PlaceLine(Placed(log[..|log| - 1], dec), |log| - 1, log[|log| - 1], dec)
  }

  /** The line an index entry points at really is that record's current version. */
  ghost predicate PointsAt(log: seq<Line>, id: nat, loc: Loc) {
    && loc.pos < |log|
    && log[loc.pos].entry.id == id
    && !log[loc.pos].entry.op.Delete?
    && log[loc.pos].entry.data == loc.row.data
  }

  /** The index holds the rows the log means, each pointing at the line it came from. */
  lemma {:induction false} PlacedIsRebuilt(log: seq<Line>, dec: Decisions)
    ensures Placed(log, dec).Keys == Rebuilt(log, dec).Keys
    ensures forall id :: id in Placed(log, dec) ==>
      Placed(log, dec)[id].row == Rebuilt(log, dec)[id] && PointsAt(log, id, Placed(log, dec)[id])
  {
    if |log| > 0 {
      var front := log[..|log| - 1];
      PlacedIsRebuilt(front, dec);
      forall id | id in Placed(front, dec)
        ensures PointsAt(log, id, Placed(front, dec)[id])
      {
        assert log[Placed(front, dec)[id].pos] == front[Placed(front, dec)[id].pos];
      }
    }
  }

  // ----- what a scan should return -----------------------------------------------------------------

  datatype Hit = Hit(id: nat, rev: nat, data: Data)

  /** The unexpired records of a view that match a filter. */
  function Matching(v: View, now: int, f: Filter, c: Codec): set<nat> {
    set id | id in v && !Expired(v[id].expiresAt, now) && Match(f, v[id].data, c)
  }

  /** A disjunction selects what any of its children selects, so nothing when it has none. */
  lemma OrSelects(v: View, now: int, fs: seq<Filter>, c: Codec, id: nat)
    ensures id in Matching(v, now, Or(fs), c) <==> exists i :: 0 <= i < |fs| && id in Matching(v, now, fs[i], c)
  {
  }

  /** A conjunction selects, of the unexpired records, what all of its children select. */
  lemma AndSelects(v: View, now: int, fs: seq<Filter>, c: Codec, id: nat)
    ensures id in Matching(v, now, And(fs), c) <==>
      && id in v && (v[id].expiresAt == 0 || now < v[id].expiresAt)
      && forall i :: 0 <= i < |fs| ==> id in Matching(v, now, fs[i], c)
  {
  }

  /**
   On a field, a record without it is never selected, equality and inequality split the others, and so do each strict
   comparison and its complement.
   */
  lemma FieldSelects(v: View, now: int, field: string, q: Value, c: Codec, id: nat)
    requires ValidCodec(c)
    ensures
      var any := id in v && (v[id].expiresAt == 0 || now < v[id].expiresAt) && field in v[id].data;
      var eq, neq := id in Matching(v, now, Filter.Field(field, Eq, q), c), id in Matching(v, now, Filter.Field(field, Neq, q), c);
      var gt, gte := id in Matching(v, now, Filter.Field(field, Gt, q), c), id in Matching(v, now, Filter.Field(field, Gte, q), c);
      var lt, lte := id in Matching(v, now, Filter.Field(field, Lt, q), c), id in Matching(v, now, Filter.Field(field, Lte, q), c);
      && (eq || neq <==> any) && !(eq && neq) && (gt || lte <==> any) && !(gt && lte) && (lt || gte <==> any) && !(lt && gte)
      && (gte <==> gt || eq) && (lte <==> lt || eq)
      && (lt <==> any && if v[id].data[field].Num? && q.Num? then v[id].data[field].rank < q.rank
                         else exists n :: DiffersAt(Render(v[id].data[field], c), Render(q, c), n))
      && (eq <==> any && Render(v[id].data[field], c) == Render(q, c))
  {
    if id in v && field in v[id].data {
      EqualIsRendered(v[id].data[field], q, c);
      CompareStrIsLexicographic(Render(v[id].data[field], c), Render(q, c));
    }
  }

  function Ids(hits: seq<Hit>): (ids: seq<nat>)
    ensures |ids| == |hits| && forall i :: 0 <= i < |hits| ==> ids[i] == hits[i].id
  {
    seq(|hits|, i requires 0 <= i < |hits| => hits[i].id)
  }

  /** The hits carry the records of `ids`, each once, as the view holds them. */
  ghost predicate Answers(hits: seq<Hit>, ids: set<nat>, v: View) {
    && EachOnce(Ids(hits))
    && (forall id :: id in Ids(hits) <==> id in ids)
    && (forall h :: h in hits ==> h.id in v && h.rev == v[h.id].rev && h.data == v[h.id].data)
  }

  lemma {:induction false} EachOnceCounts(ids: seq<nat>, s: set<nat>)
    requires EachOnce(ids) && forall id :: id in ids <==> id in s
    ensures |ids| == |s|
  {
    if |ids| > 0 {
      var last := ids[|ids| - 1];
      var front := ids[..|ids| - 1];
      forall id
        ensures id in front <==> id in s - {last}
      {
        if id in front {
          var i :| 0 <= i < |front| && front[i] == id;
          assert ids[i] == id && id in ids;
        }
        if id in s - {last} {
          var i :| 0 <= i < |ids| && ids[i] == id;
          assert front[i] == id;
        }
      }
      EachOnceCounts(front, s - {last});
      assert last in ids;
    } else {
      assert forall id :: id !in s;
    }
  }

  // ----- the full scan ---------------------------------------------------------------------------------

  datatype Outcome = Ok | IntegrityError(id: nat)

  /** Those of `ids` whose current line lies before `pos`. */
  function Before(ids: set<nat>, locs: Locs, pos: nat): set<nat> {
    set id | id in ids && id in locs && locs[id].pos < pos
  }

  /**
   Walks the log up to the end captured with the view, yielding each line the
   captured index points at. Lines appended after the capture are not looked at.
   */
  method StreamLive(log: seq<Line>, end: nat, locs: Locs, now: int, f: Filter, c: Codec, ghost dec: Decisions)
    returns (hits: seq<Hit>, r: Outcome)
    requires end <= |log| && locs == Placed(log[..end], dec)
    ensures r.Ok?
    ensures Answers(hits, Matching(Rebuilt(log[..end], dec), now, f, c), Rebuilt(log[..end], dec))
    ensures
      var v := Rebuilt(log[..end], dec);
      && (f.Or? ==> forall i, id :: 0 <= i < |f.any| && id in Matching(v, now, f.any[i], c) ==> id in Ids(hits))
      && (f.And? ==> forall i, id :: 0 <= i < |f.all| && id in Ids(hits) ==> id in Matching(v, now, f.all[i], c))
  {
    ghost var v := Rebuilt(log[..end], dec);
    PlacedIsRebuilt(log[..end], dec);
    hide Rebuilt, Placed, Expired;
    hits := [];
    var pos := 0;
    while pos < |log| && pos < end
      invariant pos <= end
      invariant Answers(hits, Before(Matching(v, now, f, c), locs, pos), v)
    {
      var e := log[pos].entry;
      var yes := Evaluate(f, e.data, c);
      if e.id !in locs {
      } else if locs[e.id].pos != pos {
        var target := locs[e.id].pos;
        if target >= |log| || log[target].entry.id != e.id {
          return hits, IntegrityError(e.id);
        }
      } else if e.op.Delete? || Expired(locs[e.id].row.expiresAt, now) || !yes {
      } else {
        Yielded(hits, Hit(e.id, locs[e.id].row.rev, e.data), Before(Matching(v, now, f, c), locs, pos), v);
        hits := hits + [Hit(e.id, locs[e.id].row.rev, e.data)];
      }
      pos := pos + 1;
    }
    r := Ok;
    assert Before(Matching(v, now, f, c), locs, end) == Matching(v, now, f, c);
  }

  lemma Yielded(hits: seq<Hit>, h: Hit, ids: set<nat>, v: View)
    requires Answers(hits, ids, v) && h.id !in ids
    requires h.id in v && h.rev == v[h.id].rev && h.data == v[h.id].data
    ensures Answers(hits + [h], ids + {h.id}, v)
  {
    assert Ids(hits + [h]) == Ids(hits) + [h.id];
    EachOnceConcat(Ids(hits), [h.id]);
  }

  // ----- the scan of index candidates ----------------------------------------------------------------

  ghost predicate Ascending(ids: seq<nat>) {
    forall i, j :: 0 <= i < j < |ids| ==> ids[i] < ids[j]
  }

  lemma InsertKeeps(sorted: seq<nat>, id: nat, i: nat)
    requires Ascending(sorted) && i <= |sorted|
    requires forall k :: 0 <= k < i ==> sorted[k] < id
    requires forall k :: i <= k < |sorted| ==> id < sorted[k]
    ensures Ascending(sorted[..i] + [id] + sorted[i..])
  {
    var r := sorted[..i] + [id] + sorted[i..];
    forall a, b | 0 <= a < b < |r|
      ensures r[a] < r[b]
    {
      assert r[a] == if a < i then sorted[a] else if a == i then id else sorted[a - 1];
      assert r[b] == if b < i then sorted[b] else if b == i then id else sorted[b - 1];
    }
  }

  lemma InsertMembers(sorted: seq<nat>, id: nat, i: nat)
    requires i <= |sorted|
    ensures forall x :: x in sorted[..i] + [id] + sorted[i..] <==> x in sorted || x == id
  {
    assert sorted == sorted[..i] + sorted[i..];
  }

  method SortIds(ids: seq<nat>) returns (r: seq<nat>)
    requires EachOnce(ids)
    ensures Ascending(r) && forall x :: x in r <==> x in ids
  {
    r := [];
    for i := 0 to |ids|
      invariant Ascending(r) && forall x :: x in r <==> x in ids[..i]
    {
      assert ids[..i + 1] == ids[..i] + [ids[i]];
      assert ids[i] !in r;
      var at := |r|;
      while at > 0 && r[at - 1] > ids[i]
        invariant 0 <= at <= |r|
        invariant forall k :: at <= k < |r| ==> ids[i] < r[k]
      {
        at := at - 1;
      }
      InsertKeeps(r, ids[i], at);
      InsertMembers(r, ids[i], at);
      r := r[..at] + [ids[i]] + r[at..];
    }
    assert ids[..|ids|] == ids;
  }

  /** Re-validates candidates against the captured locations and the filter, in ascending id order. */
  method VisitCandidates(log: seq<Line>, end: nat, locs: Locs, now: int, f: Filter, c: Codec, ids: seq<nat>, ghost dec: Decisions)
    returns (hits: seq<Hit>, r: Outcome)
    requires end <= |log| && locs == Placed(log[..end], dec) && EachOnce(ids)
    ensures r.Ok? && Ascending(Ids(hits))
    ensures
      var v := Rebuilt(log[..end], dec);
      Answers(hits, Among(Matching(v, now, f, c), ids), v)
  {
    ghost var v := Rebuilt(log[..end], dec);
    PlacedIsRebuilt(log[..end], dec);
    var sorted := SortIds(ids);
    hits := [];
    for i := 0 to |sorted|
      invariant Answers(hits, Among(Matching(v, now, f, c), sorted[..i]), v) && Ascending(Ids(hits))
    {
      var id := sorted[i];
      ghost var seen := Among(Matching(v, now, f, c), sorted[..i]);
      AmongNext(Matching(v, now, f, c), sorted, i);
      if id in locs && !Expired(locs[id].row.expiresAt, now) {
        if locs[id].pos >= |log| || log[locs[id].pos].entry.id != id {
          return hits, IntegrityError(id);
        }
        var e := log[locs[id].pos].entry;
        var yes := Evaluate(f, e.data, c);
        if yes {
          Yielded(hits, Hit(id, locs[id].row.rev, e.data), seen, v);
          AscendingNext(hits, Hit(id, locs[id].row.rev, e.data), sorted, i, seen);
          hits := hits + [Hit(id, locs[id].row.rev, e.data)];
        }
      }
    }
    r := Ok;
    assert sorted[..|sorted|] == sorted;
    assert Among(Matching(v, now, f, c), sorted) == Among(Matching(v, now, f, c), ids);
  }

  function Among(ids: set<nat>, list: seq<nat>): set<nat> {
    set id | id in ids && id in list
  }

  lemma AmongNext(ids: set<nat>, sorted: seq<nat>, i: nat)
    requires Ascending(sorted) && i < |sorted|
    ensures sorted[i] !in Among(ids, sorted[..i])
    ensures Among(ids, sorted[..i + 1]) == Among(ids, sorted[..i]) + (if sorted[i] in ids then {sorted[i]} else {})
  {
    assert sorted[..i + 1] == sorted[..i] + [sorted[i]];
  }

  lemma AscendingNext(hits: seq<Hit>, h: Hit, sorted: seq<nat>, i: nat, seen: set<nat>)
    requires Ascending(sorted) && i < |sorted| && h.id == sorted[i] && Ascending(Ids(hits))
    requires forall id :: id in Ids(hits) ==> id in sorted[..i]
    ensures Ascending(Ids(hits + [h]))
  {
    assert Ids(hits + [h]) == Ids(hits) + [h.id];
    forall k | 0 <= k < |hits|
      ensures Ids(hits)[k] < h.id
    {
      assert Ids(hits)[k] in sorted[..i];
    }
  }

  // ----- choosing a route -----------------------------------------------------------------------------

  /** What the index of a field holds of a view: the accepted values of that field. */
  function Indexed(v: View, field: string): map<nat, Value> {
    map id | id in v && field in v[id].data && Accepts(field, v[id].data[field]) :: v[id].data[field]
  }

  /** Every index of the collection is in step with the view. */
  ghost predicate InStep(sidx: map<string, Index>, v: View, c: Codec)
    reads sidx.Values
  {
    forall field :: field in sidx ==>
      && sidx[field].Valid() && sidx[field].field == field && sidx[field].codec == c
      && sidx[field].vals == Indexed(v, field)
  }

  /** Whether an index can serve a filter: equality always, a comparison if the index is empty or holds the value's kind only. */
  ghost predicate CanServe(sidx: map<string, Index>, f: Filter)
    reads sidx.Values
  {
    && f.Field? && f.field in sidx && !f.op.Neq?
    && (!f.op.Eq? ==> sidx[f.field].kind.Empty? || sidx[f.field].kind == if f.value.Num? then Numeric else Text)
  }

  /** The candidates an index offers for a filter, if one can serve it. */
  method IndexCandidates(sidx: map<string, Index>, f: Filter, c: Codec, ghost v: View)
    returns (ids: seq<nat>, hit: bool)
    requires InStep(sidx, v, c) && ValidCodec(c)
    ensures hit ==> f.Field? && !f.op.Neq? && f.field in sidx && EachOnce(ids)
    ensures hit ==> forall id ::
      id in ids <==> id in Indexed(v, f.field) && Holds(f.op, Indexed(v, f.field)[id], f.value, c)
    ensures hit <==> CanServe(sidx, f)
  {
    ids, hit := [], false;
    if f.Field? && f.field in sidx {
      var index := sidx[f.field];
      if f.op.Eq? {
        ids := index.Lookup(Render(f.value, c));
        hit := true;
        forall id | id in index.vals
          ensures Equal(index.vals[id], f.value, c) <==> Render(index.vals[id], c) == Render(f.value, c)
        {
          EqualIsRendered(index.vals[id], f.value, c);
        }
      } else if IsRange(f.op) {
        ids, hit := index.LookupRange(f.op, f.value);
      }
    }
  }

  /** What a route returns: everything that matches, or, served from an index, what the index accepts of it. */
  function Returned(v: View, now: int, f: Filter, served: bool, c: Codec): set<nat> {
    set id | id in Matching(v, now, f, c) && (served && f.Field? ==> id in Indexed(v, f.field))
  }

  method ForEachMatch(log: seq<Line>, end: nat, locs: Locs, sidx: map<string, Index>, now: int, f: Filter, c: Codec,
                      ghost dec: Decisions)
    returns (hits: seq<Hit>, r: Outcome, served: bool)
    requires end <= |log| && locs == Placed(log[..end], dec)
    requires InStep(sidx, Rebuilt(log[..end], dec), c) && ValidCodec(c)
    ensures r.Ok?
    ensures served <==> CanServe(sidx, f)
    ensures
      var v := Rebuilt(log[..end], dec);
      Answers(hits, Returned(v, now, f, served, c), v)
  {
    ghost var v := Rebuilt(log[..end], dec);
    var ids, hit := IndexCandidates(sidx, f, c, v);
    served := hit;
    if hit {
      hits, r := VisitCandidates(log, end, locs, now, f, c, ids, dec);
      assert Among(Matching(v, now, f, c), ids) == Returned(v, now, f, served, c);
    } else {
      hits, r := StreamLive(log, end, locs, now, f, c, dec);
      assert Matching(v, now, f, c) == Returned(v, now, f, served, c);
    }
  }

  /**
   An index-served answer is the full-scan answer exactly if the field is not the
   reserved key, or no matching record carries a non-string there.
   */
  lemma ServedIsComplete(v: View, now: int, f: Filter, c: Codec)
    requires f.Field?
    ensures Returned(v, now, f, true, c) == Matching(v, now, f, c) <==>
      forall id :: id in Matching(v, now, f, c) ==> Accepts(f.field, v[id].data[f.field])
    ensures f.field != KEY_FIELD ==> Returned(v, now, f, true, c) == Matching(v, now, f, c)
  {
    forall id | id in Matching(v, now, f, c)
      ensures id in Indexed(v, f.field) <==> Accepts(f.field, v[id].data[f.field])
    {
    }
    if Returned(v, now, f, true, c) == Matching(v, now, f, c) {
      forall id | id in Matching(v, now, f, c)
        ensures Accepts(f.field, v[id].data[f.field])
      {
        assert id in Returned(v, now, f, true, c);
      }
    }
  }

  /** A stored non-string key is found by the full scan and missed by the index: the number 5 under the key field. */
  lemma KeyIndexMissesNumbers(c: Codec)
    ensures
      var v := map[1 := Row(1, map[KEY_FIELD := Num(5)], 0, 0)];
      var f := Filter.Field(KEY_FIELD, Eq, Num(5));
      1 in Matching(v, 0, f, c) && 1 !in Returned(v, 0, f, true, c)
  {
  }

  // ----- counting ---------------------------------------------------------------------------------------

  method LiveCount(locs: Locs, mayExpire: bool, now: int) returns (n: nat)
    requires mayExpire || forall id :: id in locs ==> locs[id].row.expiresAt == 0
    ensures n == |set id | id in locs && !Expired(locs[id].row.expiresAt, now)|
  {
    if !mayExpire {
      assert (set id | id in locs && !Expired(locs[id].row.expiresAt, now)) == locs.Keys;
      return |locs|;
    }
    n := 0;
    var rest := locs.Keys;
    ghost var seen: set<nat> := {};
    while rest != {}
      invariant rest <= locs.Keys && seen == (set id | id in locs.Keys - rest && !Expired(locs[id].row.expiresAt, now))
      invariant n == |seen|
      decreases rest
    {
      var id :| id in rest;
      if !Expired(locs[id].row.expiresAt, now) {
        n, seen := n + 1, seen + {id};
      }
      rest := rest - {id};
    }
    assert seen == (set id | id in locs && !Expired(locs[id].row.expiresAt, now));
  }

  method Count(log: seq<Line>, end: nat, locs: Locs, mayExpire: bool, sidx: map<string, Index>, now: int, f: Filter, c: Codec,
               ghost dec: Decisions)
    returns (n: nat, r: Outcome)
    requires end <= |log| && locs == Placed(log[..end], dec)
    requires mayExpire || forall id :: id in locs ==> locs[id].row.expiresAt == 0
    requires InStep(sidx, Rebuilt(log[..end], dec), c) && ValidCodec(c)
    ensures r.Ok?
    ensures
      var v := Rebuilt(log[..end], dec);
      (forall id :: id in Matching(v, now, f, c) && f.Field? && f.field in sidx ==> Accepts(f.field, v[id].data[f.field])) ==>
      n == |Matching(v, now, f, c)|
    ensures
      var v := Rebuilt(log[..end], dec);
      n == |Returned(v, now, f, CanServe(sidx, f), c)|
    ensures
      var v := Rebuilt(log[..end], dec);
      && (f.Or? ==> forall i :: 0 <= i < |f.any| ==> n >= |Matching(v, now, f.any[i], c)|)
      && (f.And? ==> forall i :: 0 <= i < |f.all| ==> n <= |Matching(v, now, f.all[i], c)|)
  {
    ghost var v := Rebuilt(log[..end], dec);
    PlacedIsRebuilt(log[..end], dec);
    if f.MatchAll? {
      n := LiveCount(locs, mayExpire, now);
      assert (set id | id in locs && !Expired(locs[id].row.expiresAt, now)) == Matching(v, now, f, c);
      assert Returned(v, now, f, CanServe(sidx, f), c) == Matching(v, now, f, c);
      return n, Ok;
    }
    if f.Field? && f.op.Eq? {
      var ids, hit := IndexCandidates(sidx, f, c, v);
      if hit {
        var live := LiveIds(ids, locs, now);
        forall id
          ensures id in live <==> id in Returned(v, now, f, true, c)
        {
        }
        EachOnceCounts(live, Returned(v, now, f, true, c));
        ServedIsComplete(v, now, f, c);
        return |live|, Ok;
      }
    }
    var hits, o, served := ForEachMatch(log, end, locs, sidx, now, f, c, dec);
    EachOnceCounts(Ids(hits), Returned(v, now, f, served, c));
    if served {
      ServedIsComplete(v, now, f, c);
    } else {
      assert Returned(v, now, f, served, c) == Matching(v, now, f, c);
    }
    n, r := |hits|, o;
    ChildrenBound(v, now, f, c);
  }

  lemma {:induction false} SmallerSet(a: set<nat>, b: set<nat>)
    requires a <= b
    ensures |a| <= |b|
  {
    if a != {} {
      var x :| x in a;
      SmallerSet(a - {x}, b - {x});
    }
  }

  lemma ChildrenBound(v: View, now: int, f: Filter, c: Codec)
    ensures f.Or? ==> forall i :: 0 <= i < |f.any| ==> |Matching(v, now, f, c)| >= |Matching(v, now, f.any[i], c)|
    ensures f.And? ==> forall i :: 0 <= i < |f.all| ==> |Matching(v, now, f, c)| <= |Matching(v, now, f.all[i], c)|
  {
    if f.Or? {
      forall i | 0 <= i < |f.any|
        ensures |Matching(v, now, f, c)| >= |Matching(v, now, f.any[i], c)|
      {
        SmallerSet(Matching(v, now, f.any[i], c), Matching(v, now, f, c));
      }
    }
    if f.And? {
      forall i | 0 <= i < |f.all|
        ensures |Matching(v, now, f, c)| <= |Matching(v, now, f.all[i], c)|
      {
        SmallerSet(Matching(v, now, f, c), Matching(v, now, f.all[i], c));
      }
    }
  }

  /** The ids present in the primary index and unexpired. */
  method LiveIds(ids: seq<nat>, locs: Locs, now: int) returns (live: seq<nat>)
    requires EachOnce(ids)
    ensures EachOnce(live)
    ensures forall id :: id in live <==> id in ids && id in locs && !Expired(locs[id].row.expiresAt, now)
  {
    live := [];
    for i := 0 to |ids|
      invariant EachOnce(live)
      invariant forall id :: id in live <==> id in ids[..i] && id in locs && !Expired(locs[id].row.expiresAt, now)
    {
      assert ids[..i + 1] == ids[..i] + [ids[i]];
      if ids[i] in locs && !Expired(locs[ids[i]].row.expiresAt, now) {
        EachOnceConcat(live, [ids[i]]);
        live := live + [ids[i]];
      }
    }
    assert ids[..|ids|] == ids;
  }
}
