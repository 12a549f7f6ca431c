/**
 Compaction of sealed segments: which lines survive, how they are re-packed, and
 why the result means the same as the log it replaces.
 */
module Compaction {
  import opened Values
  import opened Log

  // ----- the scan ---------------------------------------------------------------

  /** The maps a pass keeps while it replays the sealed segments. */
  datatype Scan = Scan(latest: map<nat, Entry>, evidence: seq<Line>, has: set<nat>)

  predicate Undecided(dec: Decisions, t: TxId) {
    t !in dec
  }

  function ScanStep(s: Scan, l: Line, dec: Decisions): Scan {
    var e := l.entry;
    if l.tx.None? then s.(latest := s.latest[e.id := e])
    else if Committed(dec, l.tx.value.t) then
      Scan(s.latest - {e.id}, s.evidence + [l], s.has + {e.id})
    else if Undecided(dec, l.tx.value.t) then
      s.(evidence := s.evidence + [l], has := s.has + {e.id})
    else s
  }

  function ScanAll(log: seq<Line>, dec: Decisions): Scan {
    if |log| == 0 then Scan(map[], [], {})
    else ScanStep(ScanAll(log[..|log| - 1], dec), log[|log| - 1], dec)
  }

  predicate Dropped(e: Entry, now: int) {
    e.op.Delete? || Expired(e.expiresAt, now)
  }

  predicate Survives(s: Scan, id: nat, now: int) {
    id in s.latest && (id in s.has || !Dropped(s.latest[id], now))
  }

  predicate Ascending(ids: seq<nat>) {
    forall i, j :: 0 <= i < j < |ids| ==> ids[i] < ids[j]
  }

  /** `ids` are the records whose newest plain line survives, in id order. */
  ghost predicate IsLive(ids: seq<nat>, s: Scan, now: int) {
    && Ascending(ids)
    && (forall id :: id in ids <==> Survives(s, id, now))
  }

  function Plain(ids: seq<nat>, latest: map<nat, Entry>): (ls: seq<Line>)
    requires forall id :: id in ids ==> id in latest
    ensures |ls| == |ids|
  {
    seq(|ids|, i requires 0 <= i < |ids| => Line(latest[ids[i]], None))
  }

  /** `out` is what a pass at time `now` writes in place of `log`. */
  ghost predicate IsCompaction(out: seq<Line>, log: seq<Line>, dec: Decisions, now: int) {
    var s := ScanAll(log, dec);
    exists ids :: IsLive(ids, s, now) && out == s.evidence + Plain(ids, s.latest)
  }

  lemma AscendingFront(a: seq<nat>)
    requires Ascending(a) && |a| > 0
    ensures forall x :: x in a ==> x <= a[|a| - 1]
    ensures forall x :: x in a[..|a| - 1] <==> x in a && x != a[|a| - 1]
  {
    assert a == a[..|a| - 1] + [a[|a| - 1]];
  }

  lemma {:induction false} AscendingUnique(a: seq<nat>, b: seq<nat>)
    requires Ascending(a) && Ascending(b)
    requires forall x :: x in a <==> x in b
    ensures a == b
  {
    if |a| > 0 { assert a[0] in b; }
    if |b| > 0 { assert b[0] in a; }
    if |a| > 0 {
      AscendingFront(a);
      AscendingFront(b);
      assert a[|a| - 1] in b && b[|b| - 1] in a;
      assert a[|a| - 1] == b[|b| - 1];
      var fa, fb := a[..|a| - 1], b[..|b| - 1];
      forall x: nat
        ensures x in fa <==> x in fb
      {
        assert x in fa <==> x in a && x != a[|a| - 1];
        assert x in fb <==> x in b && x != a[|a| - 1];
      }
      AscendingUnique(fa, fb);
      assert a == a[..|a| - 1] + [a[|a| - 1]];
    }
  }

  /** The same input always yields the same output. */
  lemma CompactionDeterministic(a: seq<Line>, b: seq<Line>, log: seq<Line>, dec: Decisions, now: int)
    requires IsCompaction(a, log, dec, now) && IsCompaction(b, log, dec, now)
    ensures a == b
  {
    var s := ScanAll(log, dec);
    var la :| IsLive(la, s, now) && a == s.evidence + Plain(la, s.latest);
    var lb :| IsLive(lb, s, now) && b == s.evidence + Plain(lb, s.latest);
    AscendingUnique(la, lb);
  }

  // ----- the pass ---------------------------------------------------------------

  function Flatten(segs: seq<seq<Line>>): seq<Line> {
    if |segs| == 0 then [] else Flatten(segs[..|segs| - 1]) + segs[|segs| - 1]
  }

  /** Where a new id goes among ascending ones. */
  function Position(id: nat, ids: seq<nat>): (p: nat)
    requires Ascending(ids)
    ensures p <= |ids|
    ensures forall i :: 0 <= i < p ==> ids[i] < id
    ensures forall i :: p <= i < |ids| ==> ids[i] >= id
  {
    if |ids| == 0 || ids[|ids| - 1] < id then |ids| else Position(id, ids[..|ids| - 1])
  }

  method ScanSegments(segs: seq<seq<Line>>, dec: Decisions)
    returns (latest: map<nat, Entry>, evidence: seq<Line>, has: set<nat>)
    ensures Scan(latest, evidence, has) == ScanAll(Flatten(segs), dec)
  {
    hide ScanAll, Flatten;
    latest, evidence, has := map[], [], {};
    ScanNone(dec);
    ghost var done := [];
    for k := 0 to |segs|
      invariant done == Flatten(segs[..k])
      invariant Scan(latest, evidence, has) == ScanAll(done, dec)
    {
      ghost var start := done;
      for j := 0 to |segs[k]|
        invariant done == start + segs[k][..j]
        invariant Scan(latest, evidence, has) == ScanAll(done, dec)
      {
        var l := segs[k][j];
        var e := l.entry;
        ScanNext(done, l, dec);
        TakeLine(start, segs[k], j);
        if l.tx.None? {
          latest := latest[e.id := e];
        } else if EntryVisible(l.tx, dec) {
          evidence, has := evidence + [l], has + {e.id};
          latest := latest - {e.id};
        } else if Undecided(dec, l.tx.value.t) {
          evidence, has := evidence + [l], has + {e.id};
        }
        done := done + [l];
      }
      FlattenNext(segs, k);
    }
    assert segs[..|segs|] == segs;
  }

  lemma ScanNone(dec: Decisions)
    ensures ScanAll([], dec) == Scan(map[], [], {}) && Flatten([]) == []
  {
  }

  lemma ScanNext(log: seq<Line>, l: Line, dec: Decisions)
    ensures ScanAll(log + [l], dec) == ScanStep(ScanAll(log, dec), l, dec)
  {
    assert (log + [l])[..|log|] == log;
  }

  lemma TakeLine(start: seq<Line>, seg: seq<Line>, j: nat)
    requires j < |seg|
    ensures start + seg[..j] + [seg[j]] == start + seg[..j + 1]
  {
  }

  lemma FlattenNext(segs: seq<seq<Line>>, k: nat)
    requires k < |segs|
    ensures Flatten(segs[..k + 1]) == Flatten(segs[..k]) + segs[k] && segs[k][..|segs[k]|] == segs[k]
  {
    assert segs[..k + 1][..k] == segs[..k];
  }

  lemma InsertAscending(ids: seq<nat>, id: nat, p: nat)
    requires Ascending(ids) && p <= |ids| && id !in ids
    requires (forall i :: 0 <= i < p ==> ids[i] < id) && (forall i :: p <= i < |ids| ==> ids[i] >= id)
    ensures
      var more := ids[..p] + [id] + ids[p..];
      Ascending(more) && forall x :: x in more <==> x in ids || x == id
  {
    assert ids == ids[..p] + ids[p..];
    assert forall i :: p <= i < |ids| ==> ids[i] != id;
  }

  method CollectLive(s: Scan, now: int) returns (ids: seq<nat>)
    ensures IsLive(ids, s, now)
  {
    ids := [];
    var todo := s.latest.Keys;
    while todo != {}
      invariant todo <= s.latest.Keys
      invariant Ascending(ids)
      invariant forall id :: id in ids <==> Survives(s, id, now) && id !in todo
      decreases |todo|
    {
      hide Ascending;
      var id :| id in todo;
      var e := s.latest[id];
      if id in s.has || !(e.op.Delete? || Expired(e.expiresAt, now)) {
        var p := Position(id, ids);
        InsertAscending(ids, id, p);
        ids := ids[..p] + [id] + ids[p..];
      }
      todo := todo - {id};
    }
  }

  method ResolveCompactEntries(segs: seq<seq<Line>>, dec: Decisions, now: int) returns (out: seq<Line>)
    ensures IsCompaction(out, Flatten(segs), dec, now)
  {
    var latest, evidence, has := ScanSegments(segs, dec);
    var ids := CollectLive(Scan(latest, evidence, has), now);
    out := evidence;
    for k := 0 to |ids|
      invariant out == evidence + Plain(ids, latest)[..k]
    {
      assert ids[k] in ids;
      out := out + [Line(latest[ids[k]], None)];
    }
    assert Plain(ids, latest)[..|ids|] == Plain(ids, latest);
  }

  lemma {:induction false} LatestKeys(log: seq<Line>, dec: Decisions)
    ensures forall id :: id in ScanAll(log, dec).latest ==> ScanAll(log, dec).latest[id].id == id
  {
    if |log| > 0 {
      LatestKeys(log[..|log| - 1], dec);
    }
  }

  // ----- what each record keeps ---------------------------------------------------

  /** `dec2` is a later decision table: recorded outcomes never change. */
  ghost predicate Extends(dec: Decisions, dec2: Decisions) {
    forall t :: t in dec ==> t in dec2 && dec2[t].outcome == dec[t].outcome
  }

  /**
   For each undecided transaction, its last entry for `id` that comes after the
   newest plain line of `id`. Compaction writes that plain line last, so these are
   the entries it moves from after the plain line to before it.
   */
  function Exposed(log: seq<Line>, dec: Decisions, id: nat): map<TxId, Entry> {
    if |log| == 0 then map[]
    else
      var front, l := Exposed(log[..|log| - 1], dec, id), log[|log| - 1];
      if l.entry.id != id then front
      else if EntryVisible(l.tx, dec) then map[]
      else if Undecided(dec, l.tx.value.t) then front[l.tx.value.t := l.entry]
      else front
  }

  function Last(es: seq<Entry>): Entry
    requires es != []
  {
    es[|es| - 1]
  }

  lemma {:induction false} EvidenceStep(s: Scan, l: Line, dec: Decisions, dec2: Decisions, id: nat)
    requires Extends(dec, dec2)
    ensures
      var ev := Touching(s.evidence, dec2, id);
      Touching(ScanStep(s, l, dec).evidence, dec2, id) ==
      if l.tx.Some? && l.entry.id == id && EntryVisible(l.tx, dec2) then ev + [l.entry] else ev
  {
    var t := ScanStep(s, l, dec);
    if t.evidence != s.evidence {
      assert t.evidence[..|t.evidence| - 1] == s.evidence;
    }
  }

  /** A scan, a record's history, its kept part and its exposed entries fit together. */
  ghost predicate Fitting(s: Scan, es: seq<Entry>, ev: seq<Entry>, ex: map<TxId, Entry>, dec: Decisions, dec2: Decisions, id: nat) {
    && (id !in s.latest ==> (es == [] <==> ev == []) && (es != [] ==> Last(es) == Last(ev)))
    && (id in s.latest ==>
          && es != []
          && ((forall t :: t in ex ==> !Committed(dec2, t)) ==> Last(es) == s.latest[id])
          && ((exists t :: t in ex && Committed(dec2, t)) ==>
                exists t :: t in ex && Committed(dec2, t) && ex[t] == Last(es)))
    && (id !in s.has ==> ev == [] && ex == map[])
    && (forall t :: t in ex ==> Undecided(dec, t))
  }

  /** The shape every record's history has after the scan, for any later table. */
  ghost predicate Shape(log: seq<Line>, dec: Decisions, dec2: Decisions, id: nat) {
    var s := ScanAll(log, dec);
    Fitting(s, Touching(log, dec2, id), Touching(s.evidence, dec2, id), Exposed(log, dec, id), dec, dec2, id)
  }

  lemma {:induction false} ShapeHolds(log: seq<Line>, dec: Decisions, dec2: Decisions, id: nat)
    requires Extends(dec, dec2)
    ensures Shape(log, dec, dec2, id)
  {
    if |log| > 0 {
      var front, l := log[..|log| - 1], log[|log| - 1];
      ShapeHolds(front, dec, dec2, id);
      hide Shape, Extends;
      assert log == front + [l];
      if l.entry.id == id && l.tx.Some? && Undecided(dec, l.tx.value.t) {
        ShapeUndecided(front, l, dec, dec2, id);
      } else {
        ShapeDecided(front, l, dec, dec2, id);
      }
    }
  }

  lemma ExposedNext(log: seq<Line>, l: Line, dec: Decisions, id: nat)
    ensures
      var front := Exposed(log, dec, id);
      Exposed(log + [l], dec, id) ==
      if l.entry.id != id then front
      else if EntryVisible(l.tx, dec) then map[]
      else if Undecided(dec, l.tx.value.t) then front[l.tx.value.t := l.entry]
      else front
  {
    hide EntryVisible, Undecided;
    assert (log + [l])[..|log|] == log;
  }

  /** One line that is decided, or of another record. */
  lemma FittingStep(s: Scan, es: seq<Entry>, ev: seq<Entry>, ex: map<TxId, Entry>, l: Line, dec: Decisions, dec2: Decisions, id: nat)
    requires Extends(dec, dec2) && Fitting(s, es, ev, ex, dec, dec2, id)
    requires !(l.entry.id == id && l.tx.Some? && Undecided(dec, l.tx.value.t))
    ensures
      var seen := l.entry.id == id && EntryVisible(l.tx, dec2);
      Fitting(ScanStep(s, l, dec), if seen then es + [l.entry] else es, if seen && l.tx.Some? then ev + [l.entry] else ev,
              if l.entry.id == id && EntryVisible(l.tx, dec) then map[] else ex, dec, dec2, id)
  {
  }

  lemma {:induction false} ShapeDecided(front: seq<Line>, l: Line, dec: Decisions, dec2: Decisions, id: nat)
    requires Extends(dec, dec2) && Shape(front, dec, dec2, id)
    requires !(l.entry.id == id && l.tx.Some? && Undecided(dec, l.tx.value.t))
    ensures Shape(front + [l], dec, dec2, id)
  {
    hide ScanAll, Touching, Exposed, Fitting, ScanStep, Extends;
    var s := ScanAll(front, dec);
    ScanNext(front, l, dec);
    TouchingNext(front, l, dec2, id);
    EvidenceStep(s, l, dec, dec2, id);
    ExposedNext(front, l, dec, id);
    FittingStep(s, Touching(front, dec2, id), Touching(s.evidence, dec2, id), Exposed(front, dec, id), l, dec, dec2, id);
  }

  /** One undecided line of the record. */
  lemma FittingExposed(s: Scan, es: seq<Entry>, ev: seq<Entry>, fx: map<TxId, Entry>, l: Line, dec: Decisions, dec2: Decisions, id: nat)
    requires Extends(dec, dec2) && Fitting(s, es, ev, fx, dec, dec2, id)
    requires l.entry.id == id && l.tx.Some? && Undecided(dec, l.tx.value.t)
    ensures
      var seen := EntryVisible(l.tx, dec2);
      Fitting(ScanStep(s, l, dec), if seen then es + [l.entry] else es, if seen then ev + [l.entry] else ev,
              fx[l.tx.value.t := l.entry], dec, dec2, id)
  {
    var u := l.tx.value.t;
    var ex := fx[u := l.entry];
    if id in ScanStep(s, l, dec).latest {
      if Committed(dec2, u) {
        assert u in ex && ex[u] == Last(es + [l.entry]);
      } else {
        assert forall t :: t in ex && Committed(dec2, t) ==> t in fx && ex[t] == fx[t];
        if t :| t in ex && Committed(dec2, t) {
          var w :| w in fx && Committed(dec2, w) && fx[w] == Last(es);
          assert w in ex && ex[w] == Last(es);
        } else {
          assert forall t :: t in fx ==> t in ex;
        }
      }
    }
  }

  lemma {:induction false} ShapeUndecided(front: seq<Line>, l: Line, dec: Decisions, dec2: Decisions, id: nat)
    requires Extends(dec, dec2) && Shape(front, dec, dec2, id)
    requires l.entry.id == id && l.tx.Some? && Undecided(dec, l.tx.value.t)
    ensures Shape(front + [l], dec, dec2, id)
  {
    hide ScanAll, Touching, Exposed, Fitting, ScanStep, Extends;
    var s := ScanAll(front, dec);
    ScanNext(front, l, dec);
    TouchingNext(front, l, dec2, id);
    EvidenceStep(s, l, dec, dec2, id);
    ExposedNext(front, l, dec, id);
    FittingExposed(s, Touching(front, dec2, id), Touching(s.evidence, dec2, id), Exposed(front, dec, id), l, dec, dec2, id);
  }

  lemma TouchingNext(log: seq<Line>, l: Line, dec: Decisions, id: nat)
    ensures Touching(log + [l], dec, id) ==
      if l.entry.id == id && EntryVisible(l.tx, dec) then Touching(log, dec, id) + [l.entry] else Touching(log, dec, id)
  {
    hide EntryVisible;
    assert (log + [l])[..|log|] == log;
  }

  lemma PlainNext(ids: seq<nat>, latest: map<nat, Entry>)
    requires |ids| > 0 && forall x :: x in ids ==> x in latest
    ensures
      var front, last := ids[..|ids| - 1], ids[|ids| - 1];
      last in ids && (forall x :: x in front ==> x in latest) && Plain(ids, latest) == Plain(front, latest) + [Line(latest[last], None)]
  {
  }

  lemma {:induction false} TouchingPlain(ids: seq<nat>, latest: map<nat, Entry>, dec: Decisions, id: nat)
    requires Ascending(ids)
    requires forall x :: x in ids ==> x in latest && latest[x].id == x
    ensures Touching(Plain(ids, latest), dec, id) == if id in ids then [latest[id]] else []
  {
    if |ids| > 0 {
      var front, last := ids[..|ids| - 1], ids[|ids| - 1];
      AscendingFront(ids);
      assert Ascending(front);
      hide Touching, Plain, Ascending;
      PlainNext(ids, latest);
      TouchingPlain(front, latest, dec, id);
      TouchingNext(Plain(front, latest), Line(latest[last], None), dec, id);
    }
  }

  /** A record's history in the compacted output: its evidence, then at most one plain line. */
  lemma TouchingOut(out: seq<Line>, log: seq<Line>, dec: Decisions, now: int, dec2: Decisions, id: nat)
    requires IsCompaction(out, log, dec, now)
    ensures
      var s := ScanAll(log, dec);
      Touching(out, dec2, id) ==
      Touching(s.evidence, dec2, id) + (if Survives(s, id, now) then [s.latest[id]] else [])
  {
    var s := ScanAll(log, dec);
    var ids :| IsLive(ids, s, now) && out == s.evidence + Plain(ids, s.latest);
    TouchingConcat(s.evidence, Plain(ids, s.latest), dec2, id);
    LatestKeys(log, dec);
    TouchingPlain(ids, s.latest, dec2, id);
  }

  // ----- contents: the exact condition ---------------------------------------------

  /** What an entry leaves for readers from `now` on: nothing, or its contents. */
  datatype Content = Content(data: Data, expiresAt: int, epoch: nat)

  function Residue(e: Entry, now: int): Option<Content> {
    if Dropped(e, now) then None else Some(Content(e.data, e.expiresAt, e.epoch))
  }

  /** The contents of the unexpired rows, leaving revisions aside. */
  function Contents(v: View): map<nat, Content> {
    map id | id in v :: Content(v[id].data, v[id].expiresAt, v[id].epoch)
  }

  function ContentAt(v: View, id: nat, t: int): Option<Content> {
    if id in v && !Expired(v[id].expiresAt, t)
    then Some(Content(v[id].data, v[id].expiresAt, v[id].epoch)) else None
  }

  function LastResidue(es: seq<Entry>, t: int): Option<Content> {
    if es == [] then None else Residue(Last(es), t)
  }

  lemma ContentFromLast(log: seq<Line>, dec: Decisions, id: nat, t: int)
    ensures ContentAt(Rebuilt(log, dec), id, t) == LastResidue(Touching(log, dec, id), t)
  {
    FoldPerId(map[], log, dec, id);
  }

  lemma ContentsByPoint(v: View, w: View, t: int)
    ensures (forall id: nat :: ContentAt(v, id, t) == ContentAt(w, id, t)) <==>
            Contents(Live(v, t)) == Contents(Live(w, t))
  {
    var cv, cw := Contents(Live(v, t)), Contents(Live(w, t));
    assert forall id: nat :: ContentAt(v, id, t) == if id in cv then Some(cv[id]) else None;
    assert forall id: nat :: ContentAt(w, id, t) == if id in cw then Some(cw[id]) else None;
    if forall id: nat :: ContentAt(v, id, t) == ContentAt(w, id, t) {
      assert forall id: nat :: id in cv ==> ContentAt(v, id, t) == Some(cv[id]);
      assert forall id: nat :: id in cw ==> ContentAt(w, id, t) == Some(cw[id]);
      assert cv == cw;
    }
  }

  /**
   No undecided entry that follows a record's newest plain line would change what
   readers see of that record. Checkable from the log and the table alone.
   */
  ghost predicate OrderSafe(log: seq<Line>, dec: Decisions, now: int) {
    forall id, t ::
      id in ScanAll(log, dec).latest && t in Exposed(log, dec, id) ==>
      Residue(Exposed(log, dec, id)[t], now) == Residue(ScanAll(log, dec).latest[id], now)
  }

  lemma ResidueLater(a: Entry, b: Entry, now: int, t: int)
    requires t >= now && Residue(a, now) == Residue(b, now)
    ensures Residue(a, t) == Residue(b, t)
  {
  }

  lemma OrderSafeKeepsResidue(out: seq<Line>, log: seq<Line>, dec: Decisions, now: int, dec2: Decisions, id: nat, t: int)
    requires IsCompaction(out, log, dec, now) && Extends(dec, dec2) && t >= now
    requires OrderSafe(log, dec, now)
    ensures LastResidue(Touching(out, dec2, id), t) == LastResidue(Touching(log, dec2, id), t)
  {
    var s := ScanAll(log, dec);
    var ex := Exposed(log, dec, id);
    var es := Touching(log, dec2, id);
    ShapeHolds(log, dec, dec2, id);
    TouchingOut(out, log, dec, now, dec2, id);
    if id in s.latest {
      if w :| w in ex && Committed(dec2, w) {
        var x :| x in ex && Committed(dec2, x) && ex[x] == Last(es);
        ResidueLater(ex[x], s.latest[id], now, t);
      }
    }
  }

  /**
   Compaction keeps what readers see, for every later suffix, decision table and
   clock, exactly when no undecided entry would be moved in front of a plain line
   that it changes.
   */
  lemma CompactionKeepsContents(out: seq<Line>, log: seq<Line>, dec: Decisions, now: int)
    requires IsCompaction(out, log, dec, now)
    ensures OrderSafe(log, dec, now) <==>
            forall suffix: seq<Line>, dec2: Decisions, t: int :: Extends(dec, dec2) && t >= now ==>
              Contents(Live(Rebuilt(out + suffix, dec2), t)) == Contents(Live(Rebuilt(log + suffix, dec2), t))
  {
    if OrderSafe(log, dec, now) {
      forall suffix: seq<Line>, dec2: Decisions, t: int | Extends(dec, dec2) && t >= now
        ensures Contents(Live(Rebuilt(out + suffix, dec2), t)) == Contents(Live(Rebuilt(log + suffix, dec2), t))
      {
        forall id: nat
          ensures ContentAt(Rebuilt(out + suffix, dec2), id, t) == ContentAt(Rebuilt(log + suffix, dec2), id, t)
        {
          OrderSafeKeepsResidue(out, log, dec, now, dec2, id, t);
          TouchingConcat(out, suffix, dec2, id);
          TouchingConcat(log, suffix, dec2, id);
          ContentFromLast(out + suffix, dec2, id, t);
          ContentFromLast(log + suffix, dec2, id, t);
        }
        ContentsByPoint(Rebuilt(out + suffix, dec2), Rebuilt(log + suffix, dec2), t);
      }
    } else {
      UnsafeChangesContents(out, log, dec, now);
    }
  }

  /** Some later table and clock at which the contents differ. */
  ghost predicate ContentsDiffer(out: seq<Line>, log: seq<Line>, dec: Decisions, now: int) {
    exists suffix: seq<Line>, dec2: Decisions, t: int :: Extends(dec, dec2) && t >= now &&
      Contents(Live(Rebuilt(out + suffix, dec2), t)) != Contents(Live(Rebuilt(log + suffix, dec2), t))
  }

  lemma ResidueDiffers(out: seq<Line>, log: seq<Line>, dec: Decisions, dec2: Decisions, now: int, id: nat)
    requires Extends(dec, dec2) && LastResidue(Touching(out, dec2, id), now) != LastResidue(Touching(log, dec2, id), now)
    ensures ContentsDiffer(out, log, dec, now)
  {
    hide Touching, LastResidue, Rebuilt, Contents, ContentAt, Live, Extends;
    assert out + [] == out && log + [] == log;
    ContentFromLast(out, dec2, id, now);
    ContentFromLast(log, dec2, id, now);
    ContentsByPoint(Rebuilt(out + [], dec2), Rebuilt(log + [], dec2), now);
    assert ContentAt(Rebuilt(out, dec2), id, now) != ContentAt(Rebuilt(log, dec2), id, now);
  }

  lemma UnsafeChangesContents(out: seq<Line>, log: seq<Line>, dec: Decisions, now: int)
    requires IsCompaction(out, log, dec, now) && !OrderSafe(log, dec, now)
    ensures ContentsDiffer(out, log, dec, now)
  {
    hide ContentsDiffer, Touching, ScanAll, Exposed, IsCompaction;
    var s := ScanAll(log, dec);
    var id, u :| id in s.latest && u in Exposed(log, dec, id) &&
                 Residue(Exposed(log, dec, id)[u], now) != Residue(s.latest[id], now);
    var ex := Exposed(log, dec, id);
    ShapeHolds(log, dec, dec, id);
    var dec2 := dec[u := Decision(Commit, false)];
    ShapeHolds(log, dec, dec2, id);
    TouchingOut(out, log, dec, now, dec2, id);
    assert Committed(dec2, u);
    var x :| x in ex && Committed(dec2, x) && ex[x] == Last(Touching(log, dec2, id));
    assert x == u;
    assert Survives(s, id, now);
    ResidueDiffers(out, log, dec, dec2, now, id);
  }

  /** The failing input: a plain insert, then an update of the same record by a transaction that is still undecided. */
  lemma UndecidedUpdateUnsafe(t: TxId, a: Data, b: Data)
    requires a != b
    ensures !OrderSafe([Line(Entry(1, Insert, 1, a, 0, 0), None), Line(Entry(1, Update, 2, b, 0, 0), Some(Stamp(t, 0, 1)))], map[], 0)
  {
    var x, y := Line(Entry(1, Insert, 1, a, 0, 0), None), Line(Entry(1, Update, 2, b, 0, 0), Some(Stamp(t, 0, 1)));
    var dec: Decisions := map[];
    ScanNone(dec);
    ScanNext([], x, dec);
    ScanNext([x], y, dec);
    assert Exposed([], dec, 1) == map[];
    ExposedNext([], x, dec, 1);
    ExposedNext([x], y, dec, 1);
    hide ScanAll, Exposed;
    assert [] + [x] == [x] && [x] + [y] == [x, y];
    assert ScanAll([x, y], dec).latest == map[1 := x.entry];
    assert t in Exposed([x, y], dec, 1) && Exposed([x, y], dec, 1)[t] == y.entry;
  }

  // ----- revisions -------------------------------------------------------------------

  /** The highest revision any insert or update of the history carries. */
  function MaxRev(es: seq<Entry>): nat {
    if |es| == 0 then 0
    else
      var e, m := es[|es| - 1], MaxRev(es[..|es| - 1]);
      if e.op.Delete? then m else Max(m, e.rev)
  }

  /** Every insert or update carries a revision above all its predecessors'. */
  predicate RevsRise(es: seq<Entry>) {
    |es| > 0 ==>
      var front, e := es[..|es| - 1], es[|es| - 1];
      RevsRise(front) && (e.op.Delete? || e.rev > MaxRev(front))
  }

  /** The row a history with rising revisions ends in: that of its last entry. */
  function LastRow(es: seq<Entry>): Option<Row> {
    if es == [] || Last(es).op.Delete? then None
    else Some(Row(Last(es).rev, Last(es).data, Last(es).expiresAt, Last(es).epoch))
  }

  lemma {:induction false} RisingRow(es: seq<Entry>)
    requires RevsRise(es)
    ensures RowAfter(None, es) == LastRow(es)
    ensures RevOf(RowAfter(None, es)) <= MaxRev(es)
  {
    if |es| > 0 {
      RisingRow(es[..|es| - 1]);
    }
  }

  /** `kept` can stand for `all` in front of any suffix: no revision restarts. */
  ghost predicate Stands(kept: seq<Entry>, all: seq<Entry>) {
    RevsRise(kept) && MaxRev(kept) <= MaxRev(all)
  }

  lemma {:induction false} StandsConcat(kept: seq<Entry>, all: seq<Entry>, ss: seq<Entry>)
    requires Stands(kept, all) && RevsRise(all + ss)
    ensures Stands(kept + ss, all + ss)
  {
    if |ss| == 0 {
      assert kept + ss == kept && all + ss == all;
    } else {
      var front := ss[..|ss| - 1];
      assert (all + ss)[..|all + ss| - 1] == all + front;
      assert (kept + ss)[..|kept + ss| - 1] == kept + front;
      StandsConcat(kept, all, front);
    }
  }

  lemma StandsPush(kept: seq<Entry>, all: seq<Entry>, e: Entry)
    requires Stands(kept, all) && RevsRise(all + [e])
    ensures Stands(kept + [e], all + [e])
    ensures Stands(kept, all + [e])
  {
    assert (kept + [e])[..|kept|] == kept;
    assert (all + [e])[..|all|] == all;
  }

  ghost predicate AllDecided(log: seq<Line>, dec: Decisions) {
    forall i :: 0 <= i < |log| && log[i].tx.Some? ==> log[i].tx.value.t in dec
  }

  /** With decided stamps, evidence alone stands for the history, and so does evidence plus the newest plain line. */
  lemma {:induction false} EvidenceStands(log: seq<Line>, dec: Decisions, id: nat)
    requires AllDecided(log, dec) && RevsRise(Touching(log, dec, id))
    ensures
      var s := ScanAll(log, dec);
      var ev := Touching(s.evidence, dec, id);
      && Stands(ev, Touching(log, dec, id))
      && (id in s.latest ==> Stands(ev + [s.latest[id]], Touching(log, dec, id)))
  {
    if |log| > 0 {
      var front, l := log[..|log| - 1], log[|log| - 1];
      var fs := Touching(front, dec, id);
      var fv := Touching(ScanAll(front, dec).evidence, dec, id);
      EvidenceStep(ScanAll(front, dec), l, dec, dec, id);
      if l.entry.id == id && EntryVisible(l.tx, dec) {
        assert (fs + [l.entry])[..|fs|] == fs;
        EvidenceStands(front, dec, id);
        StandsPush(fv, fs, l.entry);
      } else {
        EvidenceStands(front, dec, id);
      }
    }
  }

  lemma {:induction false} DecidedTouching(log: seq<Line>, dec: Decisions, dec2: Decisions, id: nat)
    requires AllDecided(log, dec) && Extends(dec, dec2)
    ensures Touching(log, dec2, id) == Touching(log, dec, id)
  {
    if |log| > 0 {
      DecidedTouching(log[..|log| - 1], dec, dec2, id);
    }
  }

  lemma {:induction false} EvidenceDecided(log: seq<Line>, dec: Decisions)
    requires AllDecided(log, dec)
    ensures AllDecided(ScanAll(log, dec).evidence, dec)
  {
    if |log| > 0 {
      EvidenceDecided(log[..|log| - 1], dec);
    }
  }

  lemma {:induction false} NothingExposed(log: seq<Line>, dec: Decisions, id: nat)
    requires AllDecided(log, dec)
    ensures Exposed(log, dec, id) == map[]
  {
    if |log| > 0 {
      NothingExposed(log[..|log| - 1], dec, id);
    }
  }

  /** With decided stamps a scan keeps each record's last visible entry. */
  lemma DecidedShape(log: seq<Line>, dec: Decisions, dec2: Decisions, id: nat)
    requires AllDecided(log, dec) && Extends(dec, dec2)
    ensures
      var s := ScanAll(log, dec);
      var es, ev := Touching(log, dec2, id), Touching(s.evidence, dec2, id);
      && (id !in s.latest ==> (es == [] <==> ev == []) && (es != [] ==> Last(es) == Last(ev)))
      && (id in s.latest ==> es != [] && Last(es) == s.latest[id])
      && (id !in s.has ==> ev == [])
  {
    ShapeHolds(log, dec, dec2, id);
    NothingExposed(log, dec, id);
  }

  ghost predicate AllRevsRise(log: seq<Line>, dec: Decisions) {
    forall id: nat :: RevsRise(Touching(log, dec, id))
  }

  lemma {:induction false} RevsRisePrefix(a: seq<Entry>, b: seq<Entry>)
    requires RevsRise(a + b)
    ensures RevsRise(a)
  {
    if |b| == 0 {
      assert a + b == a;
    } else {
      assert (a + b)[..|a + b| - 1] == a + b[..|b| - 1];
      RevsRisePrefix(a, b[..|b| - 1]);
    }
  }

  /** A record's compacted history stands for its original one, and ends in the same row unless that was gone at `now`. */
  lemma CompactedHistory(out: seq<Line>, log: seq<Line>, dec: Decisions, dec2: Decisions, now: int, id: nat)
    requires IsCompaction(out, log, dec, now) && AllDecided(log, dec) && Extends(dec, dec2)
    requires RevsRise(Touching(log, dec2, id))
    ensures
      var ks, es := Touching(out, dec2, id), Touching(log, dec2, id);
      && Stands(ks, es)
      && (ks == [] ==> es == [] || Dropped(Last(es), now))
      && (ks != [] ==> es != [] && Last(ks) == Last(es))
  {
    var s := ScanAll(log, dec);
    DecidedTouching(log, dec, dec2, id);
    EvidenceStands(log, dec, id);
    DecidedShape(log, dec, dec2, id);
    TouchingOut(out, log, dec, now, dec2, id);
    EvidenceDecided(log, dec);
    DecidedTouching(s.evidence, dec, dec2, id);
    hide Touching, ScanAll, IsCompaction, AllDecided, Extends, Stands;
    var ev := Touching(s.evidence, dec, id);
    assert ev + [] == ev;
  }

  /** One record's row in the compacted log: the same, unless it was already gone for readers at `now`. */
  lemma CompactedRow(out: seq<Line>, log: seq<Line>, suffix: seq<Line>, dec: Decisions, dec2: Decisions, now: int, id: nat)
    requires IsCompaction(out, log, dec, now) && AllDecided(log, dec) && Extends(dec, dec2)
    requires RevsRise(Touching(log + suffix, dec2, id))
    ensures RevsRise(Touching(out + suffix, dec2, id))
    ensures
      var a, b := At(Rebuilt(out + suffix, dec2), id), At(Rebuilt(log + suffix, dec2), id);
      a == b || (a.None? && b.Some? && Expired(b.value.expiresAt, now))
  {
    var es, ks, ss := Touching(log, dec2, id), Touching(out, dec2, id), Touching(suffix, dec2, id);
    TouchingConcat(log, suffix, dec2, id);
    TouchingConcat(out, suffix, dec2, id);
    RevsRisePrefix(es, ss);
    CompactedHistory(out, log, dec, dec2, now, id);
    StandsConcat(ks, es, ss);
    FoldPerId(map[], out + suffix, dec2, id);
    FoldPerId(map[], log + suffix, dec2, id);
    RisingRow(ks + ss);
    RisingRow(es + ss);
    if ss == [] {
      assert ks + ss == ks && es + ss == es;
    } else {
      assert Last(ks + ss) == Last(ss) == Last(es + ss);
    }
  }

  /**
   With every stamp decided and revisions rising, the compacted log shows the same
   unexpired ids, data and revisions as the original, whatever is appended later;
   and it has rising revisions again, so passes can be repeated.
   */
  lemma CompactionKeepsMeaning(out: seq<Line>, log: seq<Line>, suffix: seq<Line>, dec: Decisions, dec2: Decisions, now: int, t: int)
    requires IsCompaction(out, log, dec, now) && AllDecided(log, dec) && Extends(dec, dec2) && t >= now
    requires AllRevsRise(log + suffix, dec2)
    ensures Live(Rebuilt(out + suffix, dec2), t) == Live(Rebuilt(log + suffix, dec2), t)
    ensures AllRevsRise(out + suffix, dec2)
  {
    var v, w := Rebuilt(out + suffix, dec2), Rebuilt(log + suffix, dec2);
    forall id: nat
      ensures RevsRise(Touching(out + suffix, dec2, id))
      ensures At(v, id) == At(w, id) || (At(v, id).None? && At(w, id).Some? && Expired(At(w, id).value.expiresAt, now))
    {
      CompactedRow(out, log, suffix, dec, dec2, now, id);
    }
    forall id: nat
      ensures id in Live(v, t) <==> id in Live(w, t)
      ensures id in Live(v, t) ==> Live(v, t)[id] == Live(w, t)[id]
    {
      assert At(v, id) == At(w, id) || (At(v, id).None? && At(w, id).Some? && Expired(At(w, id).value.expiresAt, now));
    }
  }

  // ----- what the revision condition rules out ------------------------------------------

  const T1 := TxId("e", 1)
  const T2 := TxId("e", 2)

  /** A record written by one transaction, deleted, and inserted again under the same id by another. */
  const REINSERTED: seq<Line> := [
    Line(Entry(7, Update, 5, map[], 0, 0), Some(Stamp(T1, 0, 1))),
    Line(Entry(7, Delete, 0, map[], 0, 0), None),
    Line(Entry(7, Insert, 1, map[], 0, 0), Some(Stamp(T2, 0, 1)))]

  const BOTH_COMMITTED: Decisions := map[T1 := Decision(Commit, false), T2 := Decision(Commit, false)]

  /**
   Without rising revisions a pass can change a revision: the plain tombstone between
   two stamped lines is dropped, so the second one counts on from the first.
   */
  lemma ReinsertionChangesRevision(out: seq<Line>)
    requires IsCompaction(out, REINSERTED, BOTH_COMMITTED, 0)
    ensures 7 in Rebuilt(REINSERTED, BOTH_COMMITTED) && Rebuilt(REINSERTED, BOTH_COMMITTED)[7].rev == 1
    ensures 7 in Rebuilt(out, BOTH_COMMITTED) && Rebuilt(out, BOTH_COMMITTED)[7].rev == 6
  {
    var l, d := REINSERTED, BOTH_COMMITTED;
    var s := ScanAll(l, d);
    ReinsertedScan(l[0], l[1], l[2], d);
    var ids :| IsLive(ids, s, 0) && out == s.evidence + Plain(ids, s.latest);
    NoneLive(ids, s);
    hide ScanAll, IsCompaction, Plain, Fold, ApplyLine;
    ReinsertedFold(l[0], l[1], l[2], d);
  }

  lemma NoneLive(ids: seq<nat>, s: Scan)
    requires IsLive(ids, s, 0) && s.latest == map[]
    ensures ids == [] && s.evidence + Plain(ids, s.latest) == s.evidence
  {
    assert |ids| > 0 ==> ids[0] in ids && Survives(s, ids[0], 0);
  }

  lemma ReinsertedScan(a: Line, b: Line, c: Line, d: Decisions)
    requires a.tx.Some? && EntryVisible(a.tx, d) && b.tx.None? && c.tx.Some? && EntryVisible(c.tx, d)
    requires a.entry.id == b.entry.id == c.entry.id
    ensures ScanAll([a, b, c], d).latest == map[] && ScanAll([a, b, c], d).evidence == [a, c]
  {
    hide ScanAll;
    ScanNone(d);
    ScanNext([], a, d);
    ScanNext([a], b, d);
    ScanNext([a, b], c, d);
    assert [] + [a] == [a] && [a] + [b] == [a, b] && [a, b] + [c] == [a, b, c];
    assert ScanAll([a], d).evidence == [a] && ScanAll([a], d).latest == map[];
    assert ScanAll([a, b], d).evidence == [a] && ScanAll([a, b], d).latest == map[b.entry.id := b.entry];
  }

  lemma FoldNext(log: seq<Line>, l: Line, dec: Decisions)
    ensures Rebuilt(log + [l], dec) == ApplyLine(Rebuilt(log, dec), l, dec)
  {
    hide ApplyLine;
    assert (log + [l])[..|log|] == log;
  }

  lemma ReinsertedFold(a: Line, b: Line, c: Line, d: Decisions)
    requires EntryVisible(a.tx, d) && EntryVisible(b.tx, d) && EntryVisible(c.tx, d)
    requires a.entry.id == b.entry.id == c.entry.id && b.entry.op.Delete? && !a.entry.op.Delete? && !c.entry.op.Delete?
    requires a.entry.rev == 5 && c.entry.rev == 1
    ensures a.entry.id in Rebuilt([a, b, c], d) && Rebuilt([a, b, c], d)[a.entry.id].rev == 1
    ensures a.entry.id in Rebuilt([a, c], d) && Rebuilt([a, c], d)[a.entry.id].rev == 6
  {
    assert Rebuilt([], d) == map[];
    hide Rebuilt;
    FoldNext([], a, d);
    FoldNext([a], b, d);
    FoldNext([a, b], c, d);
    FoldNext([a], c, d);
    assert [] + [a] == [a] && [a] + [b] == [a, b] && [a, b] + [c] == [a, b, c] && [a] + [c] == [a, c];
  }

  // ----- evidence -------------------------------------------------------------------------

  /** The lines of transaction `t`, in log order. */
  function Run(log: seq<Line>, t: TxId): seq<Line> {
    if |log| == 0 then []
    else
      var front, l := Run(log[..|log| - 1], t), log[|log| - 1];
      if l.tx.Some? && l.tx.value.t == t then front + [l] else front
  }

  lemma {:induction false} RunConcat(a: seq<Line>, b: seq<Line>, t: TxId)
    ensures Run(a + b, t) == Run(a, t) + Run(b, t)
  {
    if |b| == 0 {
      assert a + b == a;
    } else {
      RunConcat(a, b[..|b| - 1], t);
      assert (a + b)[..|a + b| - 1] == a + b[..|b| - 1];
    }
  }

  lemma {:induction false} EvidenceRuns(log: seq<Line>, dec: Decisions, t: TxId)
    ensures Run(ScanAll(log, dec).evidence, t) == if Aborted(dec, t) then [] else Run(log, t)
  {
    if |log| > 0 {
      var front, l := log[..|log| - 1], log[|log| - 1];
      EvidenceRuns(front, dec, t);
      var s, f := ScanAll(log, dec), ScanAll(front, dec);
      if s.evidence != f.evidence {
        assert s.evidence[..|s.evidence| - 1] == f.evidence;
      }
    }
  }

  lemma {:induction false} PlainRuns(ids: seq<nat>, latest: map<nat, Entry>, t: TxId)
    requires forall id :: id in ids ==> id in latest
    ensures Run(Plain(ids, latest), t) == []
  {
    if |ids| > 0 {
      var front := ids[..|ids| - 1];
      assert Plain(ids, latest)[..|ids| - 1] == Plain(front, latest);
      PlainRuns(front, latest, t);
    }
  }

  /** A pass keeps every run that is committed or undecided, complete and in order, and drops aborted ones. */
  lemma CompactionKeepsRuns(out: seq<Line>, log: seq<Line>, dec: Decisions, now: int, t: TxId)
    requires IsCompaction(out, log, dec, now)
    ensures Run(out, t) == if Aborted(dec, t) then [] else Run(log, t)
  {
    var s := ScanAll(log, dec);
    var ids :| IsLive(ids, s, now) && out == s.evidence + Plain(ids, s.latest);
    RunConcat(s.evidence, Plain(ids, s.latest), t);
    EvidenceRuns(log, dec, t);
    PlainRuns(ids, s.latest, t);
  }

  // ----- re-packing ------------------------------------------------------------------------

  function Size(seg: seq<Line>, width: Line -> nat): nat {
    if |seg| == 0 then 0 else Size(seg[..|seg| - 1], width) + width(seg[|seg| - 1])
  }

  lemma SizeNext(seg: seq<Line>, l: Line, width: Line -> nat)
    ensures Size(seg + [l], width) == Size(seg, width) + width(l)
  {
    assert (seg + [l])[..|seg|] == seg;
  }

  /** A segment that was closed as soon as it was full. */
  ghost predicate Filled(seg: seq<Line>, width: Line -> nat, maxSize: nat) {
    Size(seg, width) >= maxSize && (maxSize > 0 ==> seg != [] && Size(seg[..|seg| - 1], width) < maxSize)
  }

  /** The entries in order, every segment but the last filled, and the last not yet full unless it is the last one allowed. */
  ghost predicate Packed(segs: seq<seq<Line>>, entries: seq<Line>, width: Line -> nat, maxSize: nat, maxSegs: nat) {
    && |segs| > 0 && Flatten(segs) == entries
    && (forall i :: 0 <= i < |segs| - 1 ==> Filled(segs[i], width, maxSize))
    && (maxSize > 0 && (maxSegs == 0 || |segs| < maxSegs) ==>
          var last := segs[|segs| - 1];
          last != [] && Size(last[..|last| - 1], width) < maxSize)
  }

  /**
   Writes entries into segments, rotating once a segment reaches `maxSize` but never
   past `maxSegs` segments (0 means no cap), then merges small neighbours.
   */
  method WriteCompactEntries(entries: seq<Line>, width: Line -> nat, maxSize: nat, maxSegs: nat) returns (segs: seq<seq<Line>>)
    ensures Flatten(segs) == entries
    ensures maxSegs > 0 ==> |segs| <= maxSegs
    ensures entries == [] <==> segs == []
    ensures entries != [] ==> exists packed :: Packed(packed, entries, width, maxSize, maxSegs) && segs == Merged(packed, width, maxSize)
  {
    if |entries| == 0 {
      return [];
    }
    var done: seq<seq<Line>> := [];
    var current: seq<Line> := [];
    var size := 0;
    assert Flatten(done) == [];
    hide Flatten, Size, Merged;
    for k := 0 to |entries|
      invariant Flatten(done) + current == entries[..k]
      invariant maxSegs > 0 ==> |done| < maxSegs
      invariant size == Size(current, width) && (k > 0 ==> current != [])
      invariant forall i :: 0 <= i < |done| ==> Filled(done[i], width, maxSize)
      invariant maxSize > 0 && (maxSegs == 0 || |done| + 1 < maxSegs) ==> current == [] || Size(current[..|current| - 1], width) < maxSize
    {
      if size >= maxSize && (maxSegs == 0 || |done| + 1 < maxSegs) {
        FlattenPush(done, current);
        done := done + [current];
        current, size := [], 0;
        assert size == Size(current, width) by { SizeNone(width); }
      }
      TakeNext(Flatten(done), current, entries, k);
      SizeNext(current, entries[k], width);
      assert (current + [entries[k]])[..|current|] == current;
      current, size := current + [entries[k]], size + width(entries[k]);
    }
    assert entries[..|entries|] == entries;
    FlattenPush(done, current);
    segs := Rebalance(done + [current], width, maxSize);
    assert Packed(done + [current], entries, width, maxSize, maxSegs);
    MergedNone(done + [current], width, maxSize);
  }

  lemma SizeNone(width: Line -> nat)
    ensures Size([], width) == 0
  {
  }

  lemma MergedNone(segs: seq<seq<Line>>, width: Line -> nat, maxSize: nat)
    requires segs != []
    ensures Merged(segs, width, maxSize) != []
  {
    hide Size;
  }

  lemma FlattenPush(segs: seq<seq<Line>>, seg: seq<Line>)
    ensures Flatten(segs + [seg]) == Flatten(segs) + seg
  {
    assert (segs + [seg])[..|segs|] == segs;
  }

  lemma TakeNext(done: seq<Line>, current: seq<Line>, entries: seq<Line>, k: nat)
    requires k < |entries| && done + current == entries[..k]
    ensures done + (current + [entries[k]]) == entries[..k + 1]
    ensures (done + current) + [] == entries[..k]
  {
    assert done + (current + [entries[k]]) == (done + current) + [entries[k]];
  }

  /** Two neighbours that fit into one segment. */
  ghost predicate Fused(r: seq<Line>, segs: seq<seq<Line>>, width: Line -> nat, maxSize: nat) {
    exists i :: 0 <= i < |segs| - 1 && r == segs[i] + segs[i + 1] && Size(segs[i], width) + Size(segs[i + 1], width) <= maxSize
  }

  /** A segment below a tenth of the target is joined with the next one if they fit together, front to back. */
  function Merged(segs: seq<seq<Line>>, width: Line -> nat, maxSize: nat): seq<seq<Line>> {
    if |segs| <= 1 then segs
    else if Size(segs[0], width) >= maxSize / 10 || Size(segs[0], width) + Size(segs[1], width) > maxSize
    then [segs[0]] + Merged(segs[1..], width, maxSize)
    else [segs[0] + segs[1]] + Merged(segs[2..], width, maxSize)
  }

  lemma MergedFrom(result: seq<seq<Line>>, segs: seq<seq<Line>>, i: nat, width: Line -> nat, maxSize: nat)
    requires i < |segs|
    ensures
      var rest, s := Merged(segs[i..], width, maxSize), segs[i];
      if Size(s, width) >= maxSize / 10 || i == |segs| - 1 || Size(s, width) + Size(segs[i + 1], width) > maxSize
      then result + rest == (result + [s]) + Merged(segs[i + 1..], width, maxSize)
      else result + rest == (result + [s + segs[i + 1]]) + Merged(segs[i + 2..], width, maxSize)
  {
    hide Size;
    var rest := segs[i..];
    assert rest[1..] == segs[i + 1..];
    if i < |segs| - 1 {
      assert rest[2..] == segs[i + 2..];
    } else {
      assert rest == [segs[i]] && segs[i + 1..] == [];
    }
  }

  /** Each output segment is an input segment or two neighbours that fit in `maxSize` together. */
  method Rebalance(segs: seq<seq<Line>>, width: Line -> nat, maxSize: nat) returns (result: seq<seq<Line>>)
    ensures Flatten(result) == Flatten(segs)
    ensures |result| <= |segs|
    ensures forall r :: r in result ==> r in segs || Fused(r, segs, width, maxSize)
    ensures result == Merged(segs, width, maxSize)
  {
    hide Flatten, Size, Fused;
    var minSize := maxSize / 10;
    if |segs| <= 1 {
      return segs;
    }
    result := [];
    var i := 0;
    assert segs[..0] == [] && segs[0..] == segs;
    assert result + Merged(segs[0..], width, maxSize) == Merged(segs, width, maxSize);
    hide Merged;
    while i < |segs|
      invariant i <= |segs| && |result| <= i
      invariant result + Merged(segs[i..], width, maxSize) == Merged(segs, width, maxSize)
      invariant Flatten(result) == Flatten(segs[..i])
      invariant forall r :: r in result ==> r in segs || Fused(r, segs, width, maxSize)
    {
      var s := segs[i];
      FlattenNext(segs, i);
      MergedFrom(result, segs, i, width, maxSize);
      if Size(s, width) >= minSize || i == |segs| - 1 || Size(s, width) + Size(segs[i + 1], width) > maxSize {
        FlattenPush(result, s);
        result := result + [s];
        i := i + 1;
      } else {
        FlattenNext(segs, i + 1);
        FlattenPush(result, s + segs[i + 1]);
        FusedAt(segs, width, maxSize, i);
        Associate(Flatten(result), s, segs[i + 1]);
        result := result + [s + segs[i + 1]];
        i := i + 2;
      }
    }
    assert segs[..|segs|] == segs;
    MergedEnd(result, segs, width, maxSize);
  }

  lemma MergedEnd(result: seq<seq<Line>>, segs: seq<seq<Line>>, width: Line -> nat, maxSize: nat)
    ensures result + Merged(segs[|segs|..], width, maxSize) == result
  {
  }

  lemma FusedAt(segs: seq<seq<Line>>, width: Line -> nat, maxSize: nat, i: nat)
    requires i + 1 < |segs| && Size(segs[i], width) + Size(segs[i + 1], width) <= maxSize
    ensures Fused(segs[i] + segs[i + 1], segs, width, maxSize)
  {
    hide Size;
  }

  /**
   One pass over the sealed segments, up to the swap. The output always fits under the
   names of the segments it replaces, so a pass never fails for having more outputs than inputs.
   */
  method CompactPass(toCompact: seq<seq<Line>>, dec: Decisions, now: int, width: Line -> nat, maxSize: nat)
    returns (out: seq<seq<Line>>, ok: bool)
    requires |toCompact| > 0
    ensures ok && |out| <= |toCompact|
    ensures IsCompaction(Flatten(out), Flatten(toCompact), dec, now)
  {
    var resolved := ResolveCompactEntries(toCompact, dec, now);
    out := WriteCompactEntries(resolved, width, maxSize, |toCompact|);
    ok := |out| <= |toCompact|;
  }
}
