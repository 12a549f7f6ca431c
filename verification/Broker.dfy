/** What a leader publishes and a follower applies. */
module Replication {
  import opened Log

  datatype Item = Item(col: string, entry: Entry)

  /** A cross-collection transaction, shipped as one record. */
  datatype Envelope = Envelope(txid: TxId, ops: seq<Item>)

  datatype Payload = One(item: Item) | Whole(tx: Envelope)

  function Items(p: Payload): seq<Item> {
    match p
    case One(item) => [item]
    case Whole(tx) => tx.ops
  }

  function Weight(p: Payload): nat {
    if p.One? then 1 else |p.tx.ops|
  }
}

/**
 The replication broker: one sequence of LSNs across restarts, a weighted ring of
 recent records, and subscribers that are cut rather than fed a gapped stream.
 */
module Broker {
  import Log
  import opened Replication

  const RESERVE_BLOCK := 4096

  datatype Rec = Rec(lsn: nat, body: Payload)

  /** What the broker keeps of a subscriber: its unread records, the weight not yet released, and whether it was cut. */
  datatype Sub = Sub(queue: seq<Rec>, queued: nat, dead: bool)

  datatype State = State(
    lsn: nat, ring: seq<Rec>, cap: nat, buf: nat, reserved: nat, saved: nat, subs: map<nat, Sub>, subSeq: nat)

  function Total(s: seq<Rec>): nat {
    if s == [] then 0 else Weight(s[0].body) + Total(s[1..])
  }

  lemma {:induction false} TotalAppend(s: seq<Rec>, r: Rec)
    ensures Total(s + [r]) == Total(s) + Weight(r.body)
  {
    if s == [] {
      assert s + [r] == [r];
    } else {
      assert (s + [r])[1..] == s[1..] + [r];
      TotalAppend(s[1..], r);
    }
  }

  /** The entries of some records, one after the other. */
  function EntriesIn(s: seq<Rec>): seq<Item> {
    if s == [] then [] else Items(s[0].body) + EntriesIn(s[1..])
  }

  /** Weight is the number of entries. */
  lemma {:induction false} TotalIsEntries(s: seq<Rec>)
    ensures Total(s) == |EntriesIn(s)|
  {
    if s != [] {
      TotalIsEntries(s[1..]);
    }
  }

  // ----- the operations on values --------------------------------------------------------------------

  predicate Crowded(ring: seq<Rec>, w: nat, cap: nat) {
    ring != [] && (|ring| >= cap || Total(ring) + w > cap)
  }

  /** How many of the oldest records go when a record of weight `w` is to fit. */
  function Dropped(ring: seq<Rec>, w: nat, cap: nat): (n: nat)
    ensures n <= |ring|
  {
    if Crowded(ring, w, cap) then 1 + Dropped(ring[1..], w, cap) else 0
  }

  /** Persists a block ahead once the watermark is passed; `stored` says whether the write went through. */
  function Reserve(s: State, lsn: nat, stored: bool): State {
    if lsn <= s.reserved then s
    else s.(reserved := lsn + RESERVE_BLOCK, saved := if stored then lsn + RESERVE_BLOCK else s.saved)
  }

  predicate Fits(sub: Sub, w: nat, buf: nat) {
    (sub.queued == 0 || sub.queued + w <= buf) && |sub.queue| < buf
  }

  /** A subscriber that cannot take the next record is cut. */
  function Offered(sub: Sub, rec: Rec, buf: nat): Sub {
    if sub.dead then sub
    else if Fits(sub, Weight(rec.body), buf) then
      sub.(queue := sub.queue + [rec], queued := sub.queued + Weight(rec.body))
    else sub.(dead := true)
  }

  function FanOut(subs: map<nat, Sub>, rec: Rec, buf: nat): map<nat, Sub> {
    map id | id in subs :: Offered(subs[id], rec, buf)
  }

  function Append(s: State, body: Payload, stored: bool): State {
    var rec := Rec(s.lsn + 1, body);
    Reserve(s.(lsn := s.lsn + 1,
               ring := s.ring[Dropped(s.ring, Weight(body), s.cap)..] + [rec],
               subs := FanOut(s.subs, rec, s.buf)),
            s.lsn + 1, stored)
  }

  /** Burns an LSN, forgets the ring and cuts everyone. */
  function Barrier(s: State, stored: bool): State {
    Reserve(s.(lsn := s.lsn + 1, ring := [], subs := map id | id in s.subs :: s.subs[id].(dead := true)), s.lsn + 1, stored)
  }

  function Oldest(s: State): nat {
    if s.ring == [] then s.lsn + 1 else s.ring[0].lsn
  }

  predicate Serves(s: State, from: nat) {
    from + 1 >= Oldest(s)
  }

  function Backlog(ring: seq<Rec>, from: nat): seq<Rec> {
    if ring == [] then []
    else
      var front, last := Backlog(ring[..|ring| - 1], from), ring[|ring| - 1];
      if last.lsn > from then front + [last] else front
  }

  function Subscribed(s: State): State {
    s.(subs := s.subs[s.subSeq + 1 := Sub([], 0, false)], subSeq := s.subSeq + 1)
  }

  /** A node starting from the persisted watermark. */
  function Opened(saved: nat, cap: nat, buf: nat): State {
    State(saved, [], cap, buf, saved, saved, map[], 0)
  }

  // ----- the ring ----------------------------------------------------------------------------------------

  ghost predicate Consecutive(ring: seq<Rec>, lsn: nat) {
    |ring| <= lsn && forall i :: 0 <= i < |ring| ==> ring[i].lsn == lsn + 1 - |ring| + i
  }

  /** The ring holds consecutive LSNs that end at the current one, within its weight or as a single record. */
  ghost predicate RingOk(s: State) {
    && Consecutive(s.ring, s.lsn)
    && 0 < s.cap && |s.ring| <= s.cap
    && (Total(s.ring) <= s.cap || |s.ring| == 1)
  }

  /** Eviction stops as soon as the record fits, or nothing is left. */
  lemma {:induction false} DroppedEnough(ring: seq<Rec>, w: nat, cap: nat)
    ensures !Crowded(ring[Dropped(ring, w, cap)..], w, cap)
    ensures forall n :: 0 <= n < Dropped(ring, w, cap) ==> Crowded(ring[n..], w, cap)
  {
    if Crowded(ring, w, cap) {
      DroppedEnough(ring[1..], w, cap);
      var d := Dropped(ring[1..], w, cap);
      assert ring[1..][d..] == ring[d + 1..];
      forall n | 0 <= n < d + 1
        ensures Crowded(ring[n..], w, cap)
      {
        if n == 0 {
          assert ring[0..] == ring;
        } else {
          assert ring[1..][n - 1..] == ring[n..];
        }
      }
    } else {
      assert ring[0..] == ring;
    }
  }

  lemma ConsecutiveNext(ring: seq<Rec>, lsn: nat, drop: nat, body: Payload)
    requires Consecutive(ring, lsn) && drop <= |ring|
    ensures Consecutive(ring[drop..] + [Rec(lsn + 1, body)], lsn + 1)
  {
  }

  lemma NothingWeighsNothing()
    ensures Total([]) == 0
  {
  }

  lemma AppendKeepsRing(s: State, body: Payload, stored: bool)
    requires RingOk(s)
    ensures RingOk(Append(s, body, stored))
  {
    hide Consecutive, Dropped, Total, FanOut;
    var drop := Dropped(s.ring, Weight(body), s.cap);
    DroppedEnough(s.ring, Weight(body), s.cap);
    TotalAppend(s.ring[drop..], Rec(s.lsn + 1, body));
    ConsecutiveNext(s.ring, s.lsn, drop, body);
    assert Total([]) == 0 by {
      NothingWeighsNothing();
    }
  }

  lemma SuffixGrows(front: seq<Rec>, last: Rec, n: nat)
    requires n <= |front|
    ensures (front + [last])[|front| - n..] == front[|front| - n..] + [last]
    ensures (front + [last])[|front| + 1..] == []
  {
  }

  lemma ConsecutiveFront(ring: seq<Rec>, lsn: nat)
    requires Consecutive(ring, lsn) && ring != []
    ensures lsn > 0 && Consecutive(ring[..|ring| - 1], lsn - 1) && ring[|ring| - 1].lsn == lsn
  {
  }

  lemma BacklogLast(ring: seq<Rec>, from: nat)
    requires ring != []
    ensures
      var front, last := Backlog(ring[..|ring| - 1], from), ring[|ring| - 1];
      Backlog(ring, from) == if last.lsn > from then front + [last] else front
  {
  }

  /** A backlog is the part of the ring above the resume point. */
  lemma {:induction false} BacklogIsSuffix(ring: seq<Rec>, from: nat, lsn: nat)
    requires Consecutive(ring, lsn)
    ensures
      var n := if from >= lsn then 0 else if lsn - from <= |ring| then lsn - from else |ring|;
      Backlog(ring, from) == ring[|ring| - n..]
  {
    if ring == [] {
      assert Backlog(ring, from) == [];
    } else {
      hide Backlog, Consecutive;
      var front, last := ring[..|ring| - 1], ring[|ring| - 1];
      assert ring == front + [last];
      ConsecutiveFront(ring, lsn);
      BacklogLast(ring, from);
      BacklogIsSuffix(front, from, lsn - 1);
      var n := if from >= lsn - 1 then 0 else if lsn - 1 - from <= |front| then lsn - 1 - from else |front|;
      SuffixGrows(front, last, n);
      assert front[|front|..] == [];
    }
  }

  // ----- the broker object -------------------------------------------------------------------------------

  /** Position `i` of a circular buffer: `head + i` modulo its capacity. */
  function Slot(head: nat, i: nat, cap: nat): nat {
    if head + i < cap then head + i else head + i - cap
  }

  const BLANK := Rec(0, Whole(Envelope(Log.TxId("", 0), [])))

  ghost function Unrolled(ring: array<Rec>, head: nat, size: nat): (r: seq<Rec>)
    requires head < ring.Length && size <= ring.Length
    reads ring
    ensures |r| == size && forall i :: 0 <= i < size ==> r[i] == ring[Slot(head, i, ring.Length)]
  {
    seq(size, i requires 0 <= i < size reads ring => ring[Slot(head, i, ring.Length)])
  }

  class ReplicationBroker {
    const ring: array<Rec>
    const buf: nat
    var lsn: nat
    var head: nat
    var size: nat
    var weight: nat
    var reserved: nat
    /** The watermark file. */
    var saved: nat
    var subs: map<nat, Sub>
    var subSeq: nat

    ghost predicate Valid()
      reads this, ring
    {
      && head < ring.Length && size <= ring.Length
      && weight == Total(Unrolled(ring, head, size))
    }

    ghost function Value(): State
      requires Valid()
      reads this, ring
    {
      State(lsn, Unrolled(ring, head, size), ring.Length, buf, reserved, saved, subs, subSeq)
    }

    /** A node opening with the persisted watermark. */
    constructor (cap: nat, buf: nat, saved: nat)
      requires cap > 0
      ensures Valid() && fresh(ring) && Value() == Opened(saved, cap, buf)
    {
      ring := new Rec[cap](_ => BLANK);
      this.buf := buf;
      lsn, head, size, weight, reserved, this.saved, subs, subSeq := saved, 0, 0, 0, saved, saved, map[], 0;
      new;
      assert Unrolled(ring, 0, 0) == [];
    }

    method ReserveLocked(high: nat, stored: bool)
      requires Valid()
      modifies this`reserved, this`saved
      ensures Valid() && Value() == Reserve(old(Value()), high, stored)
    {
      if high <= reserved {
        return;
      }
      reserved := high + RESERVE_BLOCK;
      if stored {
        saved := reserved;
      }
    }

    method ReserveNext(stored: bool)
      requires Valid()
      modifies this`reserved, this`saved
      ensures Valid() && Value() == Reserve(old(Value()), old(lsn) + 1, stored)
    {
      ReserveLocked(lsn + 1, stored);
    }

    /** Drops the oldest record. */
    method EvictOne()
      requires Valid() && size > 0
      modifies ring, this`head, this`size, this`weight
      ensures Valid() && size == old(size) - 1
      ensures Unrolled(ring, head, size) == old(Unrolled(ring, head, size))[1..]
    {
      ghost var before := Unrolled(ring, head, size);
      assert before[0] == ring[head];
      weight := weight - Weight(ring[head].body);
      ring[head] := BLANK;
      ghost var was := head;
      head := Slot(head, 1, ring.Length);
      size := size - 1;
      forall i | 0 <= i < size
        ensures Unrolled(ring, head, size)[i] == before[i + 1]
      {
        assert Slot(head, i, ring.Length) == Slot(was, i + 1, ring.Length) != was;
      }
      assert Unrolled(ring, head, size) == before[1..];
    }

    method MakeRoom(w: nat)
      requires Valid()
      modifies ring, this`head, this`size, this`weight
      ensures Valid()
      ensures
        var before := old(Unrolled(ring, head, size));
        Unrolled(ring, head, size) == before[Dropped(before, w, ring.Length)..]
    {
      ghost var before := Unrolled(ring, head, size);
      ghost var d := 0;
      while size > 0 && (size >= ring.Length || weight + w > ring.Length)
        invariant Valid() && d <= |before| && Unrolled(ring, head, size) == before[d..]
        invariant d + Dropped(before[d..], w, ring.Length) == Dropped(before, w, ring.Length)
        decreases size
      {
        assert before[d..][1..] == before[d + 1..];
        EvictOne();
        d := d + 1;
      }
    }

    /** Stores a record behind the newest one. */
    method Store(rec: Rec)
      requires Valid() && size < ring.Length
      modifies ring, this`size, this`weight
      ensures Valid() && Unrolled(ring, head, size) == old(Unrolled(ring, head, size)) + [rec]
    {
      ghost var before := Unrolled(ring, head, size);
      ring[Slot(head, size, ring.Length)] := rec;
      size, weight := size + 1, weight + Weight(rec.body);
      TotalAppend(before, rec);
      assert Unrolled(ring, head, size) == before + [rec];
    }

    /** Offers a record to every subscriber. */
    method Feed(rec: Rec)
      requires Valid()
      modifies this`subs
      ensures Valid() && subs == FanOut(old(subs), rec, buf)
    {
      var rest := subs.Keys;
      var offered := subs;
      while rest != {}
        invariant rest <= subs.Keys && offered.Keys == subs.Keys
        invariant forall id :: id in subs ==> offered[id] == if id in rest then subs[id] else Offered(subs[id], rec, buf)
        decreases rest
      {
        var id :| id in rest;
        var sub := subs[id];
        if !sub.dead {
          if sub.queued > 0 && sub.queued + Weight(rec.body) > buf {
            offered := offered[id := sub.(dead := true)];
          } else if |sub.queue| < buf {
            offered := offered[id := sub.(queue := sub.queue + [rec], queued := sub.queued + Weight(rec.body))];
          } else {
            offered := offered[id := sub.(dead := true)];
          }
        }
        rest := rest - {id};
      }
      subs := offered;
    }

    /** Assigns the next LSN, retains the record and feeds it out. */
    method AppendLocked(body: Payload, stored: bool) returns (at: nat)
      requires Valid()
      modifies this, ring
      ensures Valid() && at == lsn && Value() == Append(old(Value()), body, stored)
    {
      ghost var before := Unrolled(ring, head, size);
      lsn := lsn + 1;
      var rec := Rec(lsn, body);
      ReserveLocked(lsn, stored);
      MakeRoom(Weight(body));
      DroppedEnough(before, Weight(body), ring.Length);
      Store(rec);
      Feed(rec);
      at := lsn;
    }

    method ResyncBarrier(stored: bool)
      requires Valid()
      modifies this, ring
      ensures Valid() && Value() == Barrier(old(Value()), stored)
    {
      lsn := lsn + 1;
      ReserveLocked(lsn, stored);
      forall i | 0 <= i < ring.Length {
        ring[i] := BLANK;
      }
      head, size, weight := 0, 0, 0;
      assert Unrolled(ring, head, size) == [];
      subs := map id | id in subs :: subs[id].(dead := true);
    }

    /** The retained records above an LSN. */
    method ListAbove(from: nat) returns (backlog: seq<Rec>)
      requires Valid()
      ensures backlog == Backlog(Unrolled(ring, head, size), from)
    {
      backlog := [];
      ghost var content := Unrolled(ring, head, size);
      for i := 0 to size
        invariant backlog == Backlog(content[..i], from)
      {
        var rec := ring[Slot(head, i, ring.Length)];
        assert rec == content[i];
        assert content[..i + 1][..i] == content[..i];
        if rec.lsn > from {
          backlog := backlog + [rec];
        }
      }
      assert content[..size] == content;
    }

    method Subscribe(from: nat) returns (id: nat, backlog: seq<Rec>, ok: bool)
      requires Valid()
      modifies this`subs, this`subSeq
      ensures Valid() && ok == Serves(old(Value()), from)
      ensures ok ==> id == subSeq && Value() == Subscribed(old(Value())) && backlog == Backlog(Value().ring, from)
      ensures !ok ==> Value() == old(Value())
    {
      var oldest := if size == 0 then lsn + 1 else ring[head].lsn;
      assert size > 0 ==> Unrolled(ring, head, size)[0] == ring[head];
      if from + 1 < oldest {
        return 0, [], false;
      }
      backlog := ListAbove(from);
      subSeq := subSeq + 1;
      subs := subs[subSeq := Sub([], 0, false)];
      id, ok := subSeq, true;
    }
  }
}
