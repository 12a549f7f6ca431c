/** When an accepted persisted index is stale although its coverage was accepted: exactly when a late commit has the last word. */
module StaleIndex {
  import opened Values
  import opened Log
  import opened IndexRecovery

  /** The last line of a record that a decision table shows. */
  function LastSeen(spots: seq<Spot>, dec: Decisions, id: nat): (l: Option<Spot>)
    ensures l.Some? ==> l.value in spots && l.value.line.entry.id == id && EntryVisible(l.value.line.tx, dec)
  {
    if spots == [] then None
    else
      var last := spots[|spots| - 1];
      if last.line.entry.id == id && EntryVisible(last.line.tx, dec) then Some(last)
      else LastSeen(spots[..|spots| - 1], dec, id)
  }

  predicate Gone(l: Option<Spot>) {
    l.None? || l.value.line.entry.op.Delete?
  }

  /** Two writes of one record. */
  predicate Writes(a: Spot, b: Spot) {
    a.line.entry.id == b.line.entry.id && !a.line.entry.op.Delete? && !b.line.entry.op.Delete?
  }

  /** Revisions rise along the lines of a record. */
  ghost predicate Rising(spots: seq<Spot>) {
    && (forall i :: 0 <= i < |spots| && !spots[i].line.entry.op.Delete? ==> spots[i].line.entry.rev > 0)
    && (forall i, j :: 0 <= i < j < |spots| && Writes(spots[i], spots[j]) ==> spots[i].line.entry.rev < spots[j].line.entry.rev)
  }

  /** No two lines share a place. */
  ghost predicate Places(spots: seq<Spot>) {
    forall i, j :: 0 <= i < j < |spots| ==> spots[i].name != spots[j].name || spots[i].off != spots[j].off
  }

  function EntryFor(s: Spot): IndexEntry {
    var e := s.line.entry;
    IndexEntry(s.name, s.off, e.rev, e.expiresAt, e.epoch)
  }

  lemma RisesPast(spots: seq<Spot>, s: Spot)
    requires Rising(spots) && spots != [] && s in spots[..|spots| - 1] && !s.line.entry.op.Delete?
    requires
      var last := spots[|spots| - 1];
      s.line.entry.id == last.line.entry.id && !last.line.entry.op.Delete?
    ensures s.line.entry.rev < spots[|spots| - 1].line.entry.rev
  {
    var i :| 0 <= i < |spots| - 1 && spots[..|spots| - 1][i] == s;
    assert spots[i] == s;
  }

  /** An index holds of each record its last line, unless that is a delete. */
  lemma {:induction false} EntryIsLast(spots: seq<Spot>, dec: Decisions, id: nat)
    requires Rising(spots)
    ensures
      var m, l := FoldSpots(map[], spots, dec), LastSeen(spots, dec, id);
      if Gone(l) then id !in m else id in m && m[id] == EntryFor(l.value)
  {
    if spots != [] {
      var front, s := spots[..|spots| - 1], spots[|spots| - 1];
      EntryIsLast(front, dec, id);
      var before := LastSeen(front, dec, id);
      if s.line.entry.id == id && EntryVisible(s.line.tx, dec) && !s.line.entry.op.Delete? && !Gone(before) {
        RisesPast(spots, before.value);
      }
      hide Rising, LastSeen;
    }
  }

  /** Both tables leave the record with the same last line, or without one. */
  predicate SameWord(a: Option<Spot>, b: Option<Spot>) {
    a == b || (Gone(a) && Gone(b))
  }

  lemma PlaceIsLine(spots: seq<Spot>, a: Spot, b: Spot)
    requires Places(spots) && a in spots && b in spots && a.name == b.name && a.off == b.off
    ensures a == b
  {
    var i :| 0 <= i < |spots| && spots[i] == a;
    var j :| 0 <= j < |spots| && spots[j] == b;
  }

  lemma SameEntryWhen(spots: seq<Spot>, dec: Decisions, dec': Decisions, id: nat)
    requires Rising(spots) && Places(spots)
    ensures
      var m, m' := FoldSpots(map[], spots, dec), FoldSpots(map[], spots, dec');
      ((id in m <==> id in m') && (id in m && id in m' ==> m[id] == m'[id])) <==>
        SameWord(LastSeen(spots, dec, id), LastSeen(spots, dec', id))
  {
    hide FoldSpots, Rising, Places;
    var a, b := LastSeen(spots, dec, id), LastSeen(spots, dec', id);
    EntryIsLast(spots, dec, id);
    EntryIsLast(spots, dec', id);
    if !Gone(a) && !Gone(b) && EntryFor(a.value) == EntryFor(b.value) {
      PlaceIsLine(spots, a.value, b.value);
    }
  }

  /** Replaying any tail onto the recorded lines, as they were seen when the index was captured, is rebuilding. */
  ghost predicate ReplayRebuilds(spots: seq<Spot>, dec: Decisions, dec': Decisions) {
    forall tail :: FoldSpots(FoldSpots(map[], spots, dec), tail, dec') == FoldSpots(map[], spots + tail, dec')
  }

  /** What was visible when the index was captured still is. */
  ghost predicate ShowsMore(spots: seq<Spot>, dec: Decisions, dec': Decisions) {
    forall s :: s in spots && EntryVisible(s.line.tx, dec) ==> EntryVisible(s.line.tx, dec')
  }

  /** A line committed only since the capture is the last of its record, and it is not a delete of a record that was gone anyway. */
  ghost predicate LateLast(spots: seq<Spot>, dec: Decisions, dec': Decisions, id: nat) {
    var l := LastSeen(spots, dec', id);
    l.Some? && !EntryVisible(l.value.line.tx, dec) && !(Gone(l) && Gone(LastSeen(spots, dec, id)))
  }

  lemma {:induction false} LateLastWhen(spots: seq<Spot>, dec: Decisions, dec': Decisions, id: nat)
    requires ShowsMore(spots, dec, dec')
    ensures
      var a, b := LastSeen(spots, dec, id), LastSeen(spots, dec', id);
      a == b || (b.Some? && !EntryVisible(b.value.line.tx, dec))
  {
    if spots != [] {
      var front, s := spots[..|spots| - 1], spots[|spots| - 1];
      assert s in spots && forall x :: x in front ==> x in spots;
      LateLastWhen(front, dec, dec', id);
    }
  }

  lemma WordsExactlyWhen(spots: seq<Spot>, dec: Decisions, dec': Decisions, id: nat)
    requires ShowsMore(spots, dec, dec')
    ensures SameWord(LastSeen(spots, dec, id), LastSeen(spots, dec', id)) <==> !LateLast(spots, dec, dec', id)
  {
    LateLastWhen(spots, dec, dec', id);
    hide ShowsMore;
    var a, b := LastSeen(spots, dec, id), LastSeen(spots, dec', id);
    assert a.Some? ==> EntryVisible(a.value.line.tx, dec);
  }

  lemma EntriesEqual(m: Entries, m': Entries)
    requires forall id: nat :: (id in m <==> id in m') && (id in m && id in m' ==> m[id] == m'[id])
    ensures m == m'
  {
  }

  /**
   With rising revisions, replaying every tail onto an index captured under `dec` gives the rebuilt index under `dec'`
   exactly if no line committed in between has the last word on its record.
   */
  lemma StaleExactlyWhen(spots: seq<Spot>, dec: Decisions, dec': Decisions)
    requires Rising(spots) && Places(spots) && ShowsMore(spots, dec, dec')
    ensures ReplayRebuilds(spots, dec, dec') <==> forall id: nat :: !LateLast(spots, dec, dec', id)
  {
    hide FoldSpots, Rising, Places, ShowsMore, LateLast, LastSeen, SameWord;
    var m, m' := FoldSpots(map[], spots, dec), FoldSpots(map[], spots, dec');
    forall id: nat
      ensures ((id in m <==> id in m') && (id in m && id in m' ==> m[id] == m'[id])) <==> !LateLast(spots, dec, dec', id)
    {
      SameEntryWhen(spots, dec, dec', id);
      WordsExactlyWhen(spots, dec, dec', id);
    }
    if ReplayRebuilds(spots, dec, dec') {
      assert FoldSpots(m, [], dec') == FoldSpots(map[], spots + [], dec');
      assert spots + [] == spots;
      NoTail(m, dec');
    }
    if forall id: nat :: !LateLast(spots, dec, dec', id) {
      EntriesEqual(m, m');
      forall tail
        ensures FoldSpots(m, tail, dec') == FoldSpots(map[], spots + tail, dec')
      {
        FoldSpotsConcat(map[], spots, tail, dec');
      }
    }
  }

  lemma NoTail(m: Entries, dec: Decisions)
    ensures FoldSpots(m, [], dec) == m
  {
  }
}
