/** Every run of a replicating node: publishing, cutting, subscribing, draining, crashing, restarting and promotion. */
module BrokerRuns {
  import opened Replication
  import opened Broker

  /** A subscriber's stream: where it asked to resume, the LSN its first record follows, everything put into it and how much was handed over. */
  datatype Feed = Feed(from: nat, start: nat, fed: seq<Rec>, shipped: nat)

  /** One stretch between opening and stopping: what was published under each LSN, and the streams. */
  datatype Life = Life(issued: map<nat, Rec>, feeds: map<nat, Feed>)

  datatype World = World(s: State, up: bool, leader: bool, life: Life, past: seq<Life>)

  /** `stored` says whether the write of the watermark file went through; its error is dropped. */
  datatype Step =
    | Publish(body: Payload, stored: bool)
    | ReserveAhead(stored: bool)
    | Resync(stored: bool)
    | Join(from: nat)
    | Receive(id: nat)
    | Release(id: nat, weight: nat)
    | Leave(id: nat)
    | Crash
    | Close(stored: bool)
    | Open(leader: bool, cap: nat, buf: nat)
    | Promote(applied: nat, stored: bool)

  function Min(a: nat, b: nat): nat {
    if a < b then a else b
  }

  /** The streams after a record was offered: it joins those that could take it. */
  function FedOut(feeds: map<nat, Feed>, subs: map<nat, Sub>, rec: Rec, buf: nat): map<nat, Feed> {
    map id | id in feeds ::
      if id in subs && !subs[id].dead && Fits(subs[id], Weight(rec.body), buf)
      then feeds[id].(fed := feeds[id].fed + [rec]) else feeds[id]
  }

  function Stopped(w: World): World {
    w.(up := false, life := Life(map[], map[]), past := w.past + [w.life])
  }

  /** After a jump of the LSN the next record of a live stream follows the new LSN. */
  function Rebased(feeds: map<nat, Feed>, subs: map<nat, Sub>, lsn: nat): map<nat, Feed> {
    map id | id in feeds :: if id in subs && !subs[id].dead then feeds[id].(start := lsn) else feeds[id]
  }

  ghost predicate Next(w: World, w': World, step: Step) {
    match step
    case Publish(body, stored) =>
      && w.up && w.leader
      && var rec := Rec(w.s.lsn + 1, body);
         w' == w.(s := Append(w.s, body, stored),
                  life := Life(w.life.issued[rec.lsn := rec], FedOut(w.life.feeds, w.s.subs, rec, w.s.buf)))
    case ReserveAhead(stored) => w.up && w.leader && w' == w.(s := Reserve(w.s, w.s.lsn + 1, stored))
    case Resync(stored) => w.up && w.leader && w' == w.(s := Barrier(w.s, stored))
    case Join(from) =>
      && w.up && Serves(w.s, from)
      && var backlog := Backlog(w.s.ring, from);
         var f := Feed(from, Min(from, w.s.lsn), backlog, |backlog|);
         w' == w.(s := Subscribed(w.s), life := w.life.(feeds := w.life.feeds[w.s.subSeq + 1 := f]))
    case Receive(id) =>
      && w.up && id in w.s.subs && w.s.subs[id].queue != [] && id in w.life.feeds
      && var f := w.life.feeds[id];
         w' == w.(s := w.s.(subs := w.s.subs[id := w.s.subs[id].(queue := w.s.subs[id].queue[1..])]),
                  life := w.life.(feeds := w.life.feeds[id := f.(shipped := f.shipped + 1)]))
    case Release(id, weight) =>
      && w.up && id in w.s.subs && weight <= w.s.subs[id].queued
      && w' == w.(s := w.s.(subs := w.s.subs[id := w.s.subs[id].(queued := w.s.subs[id].queued - weight)]))
    case Leave(id) => w.up && w' == w.(s := w.s.(subs := w.s.subs - {id}))
    case Crash => w.up && w' == Stopped(w)
    case Close(stored) => w.up && w' == Stopped(w.(s := w.s.(saved := if stored then w.s.lsn else w.s.saved)))
    case Open(leader, cap, buf) =>
      !w.up && cap > 0 && w' == w.(s := Opened(w.s.saved, cap, buf), up := true, leader := leader)
    case Promote(applied, stored) =>
      && w.up && !w.leader
      && var lsn := if applied > w.s.lsn then applied else w.s.lsn;
         w' == w.(s := w.s.(lsn := lsn, saved := if stored then lsn else w.s.saved), leader := true,
                  life := w.life.(feeds := Rebased(w.life.feeds, w.s.subs, lsn)))
  }

  // ----- the invariant -----------------------------------------------------------------------------------

  /** A running node is past everything it published; a follower has published nothing. */
  ghost predicate LsnOk(w: World) {
    && (!w.up ==> w.life == Life(map[], map[]))
    && (forall l :: l in w.life.issued ==> l <= w.s.lsn)
    && (w.up ==> forall id :: id in w.life.feeds ==> id <= w.s.subSeq)
    && (w.up && !w.leader ==> w.s.ring == [] && forall id :: id in w.life.feeds ==> w.life.feeds[id].fed == [])
  }

  ghost predicate RingIssued(w: World) {
    RingOk(w.s) && forall i :: 0 <= i < |w.s.ring| ==> IssuedAs(w.life.issued, w.s.ring[i].lsn, w.s.ring[i])
  }

  /** The stream is what was issued from its start on, without a gap. */
  ghost predicate Gapless(f: Feed, issued: map<nat, Rec>) {
    && f.shipped <= |f.fed|
    && (forall i :: 0 <= i < |f.fed| ==> IssuedAs(issued, f.start + 1 + i, f.fed[i]))
  }

  ghost predicate IssuedAs(issued: map<nat, Rec>, lsn: nat, rec: Rec) {
    lsn in issued && issued[lsn] == rec
  }

  /** The stream of a subscriber that was not cut reaches the current LSN; what was not handed over is queued. */
  ghost predicate Streams(f: Feed, sub: Sub, lsn: nat) {
    && f.shipped <= |f.fed| && sub.queue == f.fed[f.shipped..]
    && (!sub.dead ==> f.start + |f.fed| == lsn)
  }

  ghost predicate LifeOk(life: Life) {
    forall id :: id in life.feeds ==> Gapless(life.feeds[id], life.issued)
  }

  ghost predicate FeedsOk(w: World) {
    && LifeOk(w.life) && (forall i :: 0 <= i < |w.past| ==> LifeOk(w.past[i]))
    && (w.up ==> forall id :: id in w.s.subs ==>
          id in w.life.feeds && id <= w.s.subSeq && Streams(w.life.feeds[id], w.s.subs[id], w.s.lsn))
  }

  ghost predicate Inv(w: World) {
    LsnOk(w) && (w.up ==> RingIssued(w)) && FeedsOk(w)
  }

  ghost predicate Init(w: World) {
    !w.up && w.life == Life(map[], map[]) && w.past == []
  }

  // ----- steps keep it -----------------------------------------------------------------------------------

  lemma OfferKeeps(f: Feed, sub: Sub, rec: Rec, buf: nat, lsn: nat, issued: map<nat, Rec>)
    requires Gapless(f, issued) && Streams(f, sub, lsn) && rec.lsn == lsn + 1 && lsn + 1 !in issued
    ensures
      var f' := if !sub.dead && Fits(sub, Weight(rec.body), buf) then f.(fed := f.fed + [rec]) else f;
      Gapless(f', issued[lsn + 1 := rec]) && Streams(f', Offered(sub, rec, buf), lsn + 1)
  {
    if !sub.dead && Fits(sub, Weight(rec.body), buf) {
      assert (f.fed + [rec])[f.shipped..] == f.fed[f.shipped..] + [rec];
    }
  }

  lemma GaplessGrows(f: Feed, issued: map<nat, Rec>, l: nat, rec: Rec)
    requires Gapless(f, issued) && l !in issued
    ensures Gapless(f, issued[l := rec])
  {
  }

  lemma PublishFeeds(w: World, w': World, body: Payload, stored: bool)
    requires Inv(w) && Next(w, w', Publish(body, stored))
    ensures FeedsOk(w')
  {
    hide Gapless, Streams, Fits, Offered, Weight, Dropped, RingIssued;
    var rec := Rec(w.s.lsn + 1, body);
    var feeds, feeds', issued := w.life.feeds, w'.life.feeds, w.life.issued;
    forall id | id in feeds'
      ensures Gapless(feeds'[id], w'.life.issued)
    {
      if id in w.s.subs {
        OfferKeeps(feeds[id], w.s.subs[id], rec, w.s.buf, w.s.lsn, issued);
      } else {
        GaplessGrows(feeds[id], issued, rec.lsn, rec);
      }
    }
    forall id | id in w'.s.subs
      ensures id in feeds' && id <= w'.s.subSeq && Streams(feeds'[id], w'.s.subs[id], w'.s.lsn)
    {
      OfferKeeps(feeds[id], w.s.subs[id], rec, w.s.buf, w.s.lsn, issued);
    }
  }

  lemma PublishKeeps(w: World, w': World, body: Payload, stored: bool)
    requires Inv(w) && Next(w, w', Publish(body, stored))
    ensures Inv(w') && w.s.lsn + 1 !in w.life.issued
  {
    PublishFeeds(w, w', body, stored);
    AppendKeepsRing(w.s, body, stored);
    hide FeedsOk, RingOk, FanOut, FedOut, Dropped;
    var drop := Dropped(w.s.ring, Weight(body), w.s.cap);
    forall i | 0 <= i < |w'.s.ring|
      ensures IssuedAs(w'.life.issued, w'.s.ring[i].lsn, w'.s.ring[i])
    {
      if i < |w.s.ring| - drop {
        assert w'.s.ring[i] == w.s.ring[drop + i];
      }
    }
  }

  lemma BacklogServed(s: State, from: nat)
    requires RingOk(s) && Serves(s, from)
    ensures from >= s.lsn ==> Backlog(s.ring, from) == []
    ensures from < s.lsn ==> s.lsn - from <= |s.ring| && Backlog(s.ring, from) == s.ring[|s.ring| - (s.lsn - from)..]
  {
    hide Backlog, Total, Consecutive;
    BacklogIsSuffix(s.ring, from, s.lsn);
    OldestIs(s);
  }

  lemma SuffixGapless(ring: seq<Rec>, lsn: nat, asked: nat, from: nat, issued: map<nat, Rec>)
    requires Consecutive(ring, lsn) && from <= lsn && lsn - from <= |ring|
    requires forall i :: 0 <= i < |ring| ==> IssuedAs(issued, ring[i].lsn, ring[i])
    ensures Gapless(Feed(asked, from, ring[|ring| - (lsn - from)..], lsn - from), issued)
  {
    hide Consecutive, IssuedAs;
    var skip := |ring| - (lsn - from);
    forall i | 0 <= i < lsn - from
      ensures IssuedAs(issued, from + 1 + i, ring[skip..][i])
    {
      RingAt(ring, lsn, skip + i);
    }
  }

  /** The backlog a subscriber starts with runs from its resume point to the current LSN. */
  lemma BacklogStreams(s: State, from: nat, issued: map<nat, Rec>)
    requires RingOk(s) && Serves(s, from)
    requires forall i :: 0 <= i < |s.ring| ==> IssuedAs(issued, s.ring[i].lsn, s.ring[i])
    ensures
      var backlog := Backlog(s.ring, from);
      var f := Feed(from, Min(from, s.lsn), backlog, |backlog|);
      Gapless(f, issued) && Streams(f, Sub([], 0, false), s.lsn)
  {
    hide Backlog, Total, Consecutive, IssuedAs, RingOk, Serves, Gapless, Streams;
    var start, backlog := Min(from, s.lsn), Backlog(s.ring, from);
    BacklogServed(s, from);
    RingConsecutive(s);
    assert s.ring[|s.ring|..] == [];
    assert backlog == s.ring[|s.ring| - (s.lsn - start)..];
    SuffixGapless(s.ring, s.lsn, from, start, issued);
    StreamStarts(Feed(from, start, backlog, |backlog|), s.lsn);
  }

  lemma RingConsecutive(s: State)
    requires RingOk(s)
    ensures Consecutive(s.ring, s.lsn) && |s.ring| <= s.lsn
  {
  }

  lemma StreamStarts(f: Feed, lsn: nat)
    requires f.shipped == |f.fed| && f.start + |f.fed| == lsn
    ensures Streams(f, Sub([], 0, false), lsn)
  {
  }

  lemma RingAt(ring: seq<Rec>, lsn: nat, i: nat)
    requires Consecutive(ring, lsn) && i < |ring|
    ensures ring[i].lsn == lsn + 1 - |ring| + i
  {
  }

  lemma OldestIs(s: State)
    requires Consecutive(s.ring, s.lsn)
    ensures Oldest(s) == s.lsn + 1 - |s.ring|
  {
  }

  lemma JoinKeeps(w: World, w': World, from: nat)
    requires Inv(w) && Next(w, w', Join(from))
    ensures Inv(w')
  {
    BacklogStreams(w.s, from, w.life.issued);
    assert w.s.ring == [] ==> Backlog(w.s.ring, from) == [];
    hide Gapless, Streams, Backlog;
  }

  lemma ReceiveKeeps(w: World, w': World, id: nat)
    requires Inv(w) && Next(w, w', Receive(id))
    ensures Inv(w')
  {
    var f, sub := w.life.feeds[id], w.s.subs[id];
    assert Streams(f, sub, w.s.lsn) && Gapless(f, w.life.issued);
    assert f.fed[f.shipped..][1..] == f.fed[f.shipped + 1..];
    assert Streams(w'.life.feeds[id], w'.s.subs[id], w.s.lsn) && Gapless(w'.life.feeds[id], w.life.issued);
    hide Gapless, Streams;
  }

  lemma PromoteKeeps(w: World, w': World, applied: nat, stored: bool)
    requires Inv(w) && Next(w, w', Promote(applied, stored))
    ensures Inv(w')
  {
    hide RingOk;
    RingEmpty(w.s, w'.s);
    forall id | id in w'.life.feeds
      ensures Gapless(w'.life.feeds[id], w'.life.issued)
    {
      assert w.life.feeds[id].fed == [] && Gapless(w.life.feeds[id], w.life.issued);
    }
    forall id | id in w'.s.subs
      ensures id in w'.life.feeds && Streams(w'.life.feeds[id], w'.s.subs[id], w'.s.lsn)
    {
      assert Streams(w.life.feeds[id], w.s.subs[id], w.s.lsn) && w.life.feeds[id].fed == [];
    }
  }

  lemma RingEmpty(s: State, s': State)
    requires RingOk(s) && s.ring == [] && s'.ring == [] && s'.cap == s.cap
    ensures RingOk(s')
  {
  }

  lemma StopKeeps(w: World, s: State)
    requires Inv(w) && w.up
    ensures Inv(Stopped(w.(s := s)))
  {
    hide Gapless;
    var past := w.past + [w.life];
    forall i | 0 <= i < |past|
      ensures LifeOk(past[i])
    {
      if i == |w.past| {
        assert LifeOk(w.life);
      } else {
        assert LifeOk(w.past[i]);
      }
    }
  }

  lemma StepKeepsInv(w: World, w': World, step: Step)
    requires Inv(w) && Next(w, w', step)
    ensures Inv(w')
  {
    match step
    case Publish(body, stored) => PublishKeeps(w, w', body, stored);
    case Join(from) => JoinKeeps(w, w', from);
    case Receive(id) => ReceiveKeeps(w, w', id);
    case Promote(applied, stored) => PromoteKeeps(w, w', applied, stored);
    case Crash => StopKeeps(w, w.s);
    case Close(stored) => StopKeeps(w, w.s.(saved := if stored then w.s.lsn else w.s.saved));
    case _ => QuietKeeps(w, w', step);
  }

  predicate Quiet(step: Step) {
    step.ReserveAhead? || step.Resync? || step.Release? || step.Leave? || step.Open?
  }

  lemma QuietKeeps(w: World, w': World, step: Step)
    requires Inv(w) && Next(w, w', step) && Quiet(step)
    ensures Inv(w')
  {
    hide Gapless, FeedsOk;
    QuietFeeds(w, w', step);
  }

  lemma QuietFeeds(w: World, w': World, step: Step)
    requires Inv(w) && Next(w, w', step) && Quiet(step)
    ensures FeedsOk(w')
  {
    hide LifeOk, LsnOk, RingIssued;
  }

  // ----- whole runs --------------------------------------------------------------------------------------

  ghost predicate IsPath(worlds: seq<World>, steps: seq<Step>) {
    && |worlds| == |steps| + 1
    && (forall i :: 0 <= i < |steps| ==> Next(worlds[i], worlds[i + 1], steps[i]))
  }

  ghost predicate IsRun(worlds: seq<World>, steps: seq<Step>) {
    IsPath(worlds, steps) && Init(worlds[0])
  }

  lemma {:induction false} RunInv(worlds: seq<World>, steps: seq<Step>, i: nat)
    requires IsRun(worlds, steps) && i < |worlds|
    ensures Inv(worlds[i])
  {
    if i > 0 {
      RunInv(worlds, steps, i - 1);
      StepKeepsInv(worlds[i - 1], worlds[i], steps[i - 1]);
    }
  }

  /** A clean close resumes where it stopped: the next record gets the next LSN, and who has seen them all need not start over. */
  lemma CleanCloseResumes(w: World, w1: World, w2: World, leader: bool, cap: nat, buf: nat, from: nat)
    requires Next(w, w1, Close(true)) && Next(w1, w2, Open(leader, cap, buf))
    ensures w2.s.lsn == w.s.lsn && w2.s.ring == [] && (Serves(w2.s, from) <==> from >= w.s.lsn)
  {
  }

  /** The ring of a running node ends at the current LSN, is consecutive, and within its weight or a single record. */
  lemma RingHolds(worlds: seq<World>, steps: seq<Step>, i: nat)
    requires IsRun(worlds, steps) && i < |worlds| && worlds[i].up
    ensures RingOk(worlds[i].s)
    ensures |EntriesIn(worlds[i].s.ring)| <= worlds[i].s.cap || |worlds[i].s.ring| == 1
  {
    RunInv(worlds, steps, i);
    TotalIsEntries(worlds[i].s.ring);
  }

  /** What a subscriber was handed is what was issued after `start`, record by record; until it is cut nothing is missing from there on. */
  lemma FeedIsGapless(worlds: seq<World>, steps: seq<Step>, i: nat, id: nat)
    requires IsRun(worlds, steps) && i < |worlds| && worlds[i].up && id in worlds[i].s.subs
    ensures
      var w := worlds[i];
      id in w.life.feeds && Gapless(w.life.feeds[id], w.life.issued) && Streams(w.life.feeds[id], w.s.subs[id], w.s.lsn)
  {
    RunInv(worlds, steps, i);
  }

  // ----- promotion under live subscribers ----------------------------------------------------------------

  /** Records after the point a subscriber asked to resume from were never sent to it. */
  predicate Skips(f: Feed) {
    f.start > f.from
  }

  /** One step makes a stream skip records exactly if it promotes the node past the point a live subscriber resumed from. */
  lemma SkipsExactlyWhen(w: World, w': World, step: Step, id: nat)
    requires Inv(w) && Next(w, w', step) && id in w.life.feeds && id in w'.life.feeds
    ensures
      var live := id in w.s.subs && !w.s.subs[id].dead;
      Skips(w'.life.feeds[id]) <==> Skips(w.life.feeds[id]) || (step.Promote? && live && step.applied > w.life.feeds[id].from)
  {
    hide LifeOk, RingIssued, Backlog, Dropped, FanOut;
    if step.Promote? && id in w.s.subs && !w.s.subs[id].dead {
      assert w.life.feeds[id].fed == [] && Streams(w.life.feeds[id], w.s.subs[id], w.s.lsn);
    }
  }

  /** A subscriber that joins starts where it asked to. */
  lemma JoinedWithoutSkip(w: World, w': World, from: nat)
    requires Next(w, w', Join(from))
    ensures w.s.subSeq + 1 in w'.life.feeds && !Skips(w'.life.feeds[w.s.subSeq + 1])
  {
  }

  /** A promotion past the point a live subscriber resumed from. */
  predicate PassesOver(w: World, step: Step, id: nat) {
    step.Promote? && id in w.life.feeds && id in w.s.subs && !w.s.subs[id].dead && step.applied > w.life.feeds[id].from
  }

  /** Within a life streams are only added, under new numbers. */
  lemma FeedsGrow(w: World, w': World, step: Step, id: nat)
    requires Inv(w) && Next(w, w', step)
    ensures |w'.past| == |w.past| && id in w.life.feeds ==> id in w'.life.feeds
    ensures id in w'.life.feeds && id !in w.life.feeds ==> step.Join? && id == w.s.subSeq + 1
    ensures |w'.past| == |w.past| || (|w'.past| == |w.past| + 1 && w'.life.feeds == map[])
  {
    hide LifeOk, RingIssued, Backlog, Dropped, FanOut;
  }

  lemma {:induction false} FeedsStay(worlds: seq<World>, steps: seq<Step>, j: nat, i: nat, id: nat)
    requires IsRun(worlds, steps) && j <= i < |worlds|
    ensures |worlds[j].past| <= |worlds[i].past|
    ensures |worlds[i].past| == |worlds[j].past| && id in worlds[j].life.feeds ==> id in worlds[i].life.feeds
  {
    if j < i {
      FeedsStay(worlds, steps, j, i - 1, id);
      RunInv(worlds, steps, i - 1);
      assert Next(worlds[i - 1], worlds[i], steps[i - 1]);
      hide Next, Inv;
      FeedsGrow(worlds[i - 1], worlds[i], steps[i - 1], id);
    }
  }

  /** Some step of the same life passed the stream over. */
  ghost predicate PassedOver(worlds: seq<World>, steps: seq<Step>, i: nat, id: nat)
    requires |worlds| == |steps| + 1 && i < |worlds|
  {
    exists j :: 0 <= j < i && |worlds[j].past| == |worlds[i].past| && PassesOver(worlds[j], steps[j], id)
  }

  /**
   Over every run: a stream misses records after its resume point exactly if, since it was opened, its node was promoted
   past that point while the subscriber was live.
   */
  lemma {:induction false} StreamSkipsExactlyWhen(worlds: seq<World>, steps: seq<Step>, i: nat, id: nat)
    requires IsRun(worlds, steps) && i < |worlds| && id in worlds[i].life.feeds
    ensures Skips(worlds[i].life.feeds[id]) <==> PassedOver(worlds, steps, i, id)
  {
    hide Inv, Next, Skips, PassesOver, PassedOver;
    if i > 0 {
      var w, w', step := worlds[i - 1], worlds[i], steps[i - 1];
      assert Next(w, w', step);
      RunInv(worlds, steps, i - 1);
      FeedsGrow(w, w', step, id);
      PassedNext(worlds, steps, i, id);
      if id in w.life.feeds {
        StreamSkipsExactlyWhen(worlds, steps, i - 1, id);
        SkipsStep(w, w', step, id);
      } else {
        JoinedWithoutSkip(w, w', step.from);
        NotPassedYet(worlds, steps, i - 1, id);
        JoinPassesNone(w, step, id);
      }
    }
  }

  lemma PassedNext(worlds: seq<World>, steps: seq<Step>, i: nat, id: nat)
    requires |worlds| == |steps| + 1 && 0 < i < |worlds|
    ensures |worlds[i].past| == |worlds[i - 1].past| ==>
      (PassedOver(worlds, steps, i, id) <==> PassedOver(worlds, steps, i - 1, id) || PassesOver(worlds[i - 1], steps[i - 1], id))
  {
    hide PassesOver;
  }

  /** A stream that is not there was not passed over. */
  lemma NotPassedYet(worlds: seq<World>, steps: seq<Step>, i: nat, id: nat)
    requires IsRun(worlds, steps) && i < |worlds| && id !in worlds[i].life.feeds
    ensures !PassedOver(worlds, steps, i, id)
  {
    hide Next, PassesOver, Init;
    forall j | 0 <= j < i && |worlds[j].past| == |worlds[i].past|
      ensures !PassesOver(worlds[j], steps[j], id)
    {
      FeedsStay(worlds, steps, j, i, id);
      if PassesOver(worlds[j], steps[j], id) {
        PassedIsOpen(worlds[j], steps[j], id);
      }
    }
  }

  lemma JoinPassesNone(w: World, step: Step, id: nat)
    requires step.Join?
    ensures !PassesOver(w, step, id)
  {
  }

  lemma PassedIsOpen(w: World, step: Step, id: nat)
    requires PassesOver(w, step, id)
    ensures id in w.life.feeds
  {
  }

  lemma SkipsStep(w: World, w': World, step: Step, id: nat)
    requires Inv(w) && Next(w, w', step) && id in w.life.feeds && id in w'.life.feeds
    ensures Skips(w'.life.feeds[id]) <==> Skips(w.life.feeds[id]) || PassesOver(w, step, id)
  {
    SkipsExactlyWhen(w, w', step, id);
  }

  /** The failing run: a subscriber that resumed at the LSN of a follower's broker, then promotion at a higher applied LSN, then a write. */
  lemma PromotionSkips(w: World, w1: World, w2: World, w3: World, applied: nat, body: Payload)
    requires Inv(w) && w.up && !w.leader && applied > w.s.lsn && w.s.buf > 0
    requires Next(w, w1, Join(w.s.lsn)) && Next(w1, w2, Promote(applied, true)) && Next(w2, w3, Publish(body, true))
    ensures
      var id := w.s.subSeq + 1;
      && id in w3.life.feeds && w3.life.feeds[id].from == w.s.lsn
      && |w3.life.feeds[id].fed| == 1 && w3.life.feeds[id].fed[0].lsn == applied + 1 > w.s.lsn + 1
      && id in w3.s.subs && !w3.s.subs[id].dead
  {
    hide LifeOk, RingIssued, Dropped;
    var id := w.s.subSeq + 1;
    assert w1.s.subs[id] == Sub([], 0, false);
    assert w2.s.subs[id] == Sub([], 0, false) && w2.life.feeds[id].fed == [];
  }

  // ----- LSNs over restarts --------------------------------------------------------------------------------

  /** An LSN under which something was published, in this life or an earlier one. */
  ghost predicate Ever(w: World, lsn: nat) {
    lsn in w.life.issued || exists i :: 0 <= i < |w.past| && lsn in w.past[i].issued
  }

  predicate Stored(step: Step) {
    match step
    case Publish(_, stored) => stored
    case ReserveAhead(stored) => stored
    case Resync(stored) => stored
    case Close(stored) => stored
    case Promote(_, stored) => stored
    case _ => true
  }

  /** The watermark file is at or above every LSN ever issued, and a running node is past all of them. */
  ghost predicate Covers(w: World) {
    && (forall l: nat :: Ever(w, l) ==> l <= w.s.saved && (w.up ==> l <= w.s.lsn))
    && (w.up ==> w.s.reserved <= w.s.saved) && (w.up && !w.leader ==> w.s.saved <= w.s.lsn)
  }

  lemma EverNext(w: World, w': World, step: Step, l: nat)
    requires Next(w, w', step) && Ever(w', l)
    ensures Ever(w, l) || (step.Publish? && l == w.s.lsn + 1)
  {
    hide Append, Reserve, Barrier, FedOut, Rebased;
    if l !in w'.life.issued {
      var i :| 0 <= i < |w'.past| && l in w'.past[i].issued;
      if i < |w.past| {
        assert w'.past[i] == w.past[i];
      }
    }
  }

  lemma CoversStep(w: World, w': World, step: Step)
    requires Covers(w) && Next(w, w', step) && Stored(step)
    ensures Covers(w')
  {
    hide FedOut, Rebased, FanOut, Dropped, Backlog, Ever;
    forall l: nat | Ever(w', l)
      ensures l <= w'.s.saved && (w'.up ==> l <= w'.s.lsn)
    {
      EverNext(w, w', step, l);
    }
  }

  lemma {:induction false} CoversRun(worlds: seq<World>, steps: seq<Step>, i: nat)
    requires IsRun(worlds, steps) && i < |worlds| && forall j :: 0 <= j < i ==> Stored(steps[j])
    ensures Covers(worlds[i])
  {
    if i > 0 {
      CoversRun(worlds, steps, i - 1);
      CoversStep(worlds[i - 1], worlds[i], steps[i - 1]);
    }
  }

  /** While the watermark writes go through no LSN is issued twice, over crashes, restarts and promotions. */
  lemma NeverIssuedTwice(worlds: seq<World>, steps: seq<Step>, i: nat)
    requires IsRun(worlds, steps) && i < |steps| && steps[i].Publish? && forall j :: 0 <= j < i ==> Stored(steps[j])
    ensures !Ever(worlds[i], worlds[i + 1].s.lsn)
  {
    hide Ever;
    CoversRun(worlds, steps, i);
  }

  /** One life: it begins with opening the node and has not ended. */
  ghost predicate OneLife(worlds: seq<World>, steps: seq<Step>) {
    && IsPath(worlds, steps) && |steps| > 0 && steps[0].Open?
    && (forall i :: 0 < i < |steps| ==> !steps[i].Crash? && !steps[i].Close? && !steps[i].Open?)
  }

  /** In a life the LSN begins at the saved watermark and never falls. */
  lemma {:induction false} LsnRises(worlds: seq<World>, steps: seq<Step>, i: nat)
    requires OneLife(worlds, steps) && 0 < i < |worlds|
    ensures worlds[i].s.lsn >= worlds[0].s.saved
  {
    assert Next(worlds[i - 1], worlds[i], steps[i - 1]);
    hide FedOut, Rebased, FanOut, Dropped, Backlog;
    if i > 1 {
      LsnRises(worlds, steps, i - 1);
    }
  }

  /** The life that follows publishes something under an LSN issued before. */
  ghost predicate Reissues(w: World, worlds: seq<World>, steps: seq<Step>, body: Payload, stored: bool) {
    && OneLife(worlds, steps) && worlds[0] == w && worlds[|steps|].up && worlds[|steps|].leader
    && Ever(w, worlds[|steps|].s.lsn + 1)
    && exists w' :: Next(worlds[|steps|], w', Publish(body, stored))
  }

  /**
   A stopped node can publish again under an LSN it issued before exactly if its saved watermark is below
   one: a crash after a lost watermark write is the case.
   */
  lemma ReissuesExactlyWhen(w: World, body: Payload)
    requires Inv(w) && !w.up
    ensures (exists worlds, steps, stored :: Reissues(w, worlds, steps, body, stored)) <==> (exists l: nat :: Ever(w, l) && l > w.s.saved)
  {
    hide Ever, OneLife, Next;
    forall worlds: seq<World>, steps: seq<Step>, stored | Reissues(w, worlds, steps, body, stored)
      ensures exists l: nat :: Ever(w, l) && l > w.s.saved
    {
      assert |worlds| == |steps| + 1 && |steps| > 0 by { LifeSizes(worlds, steps); }
      LsnRises(worlds, steps, |steps|);
      assert Ever(w, worlds[|steps|].s.lsn + 1);
    }
    if l: nat :| Ever(w, l) && l > w.s.saved {
      var worlds, steps := PublishUpTo(w, body, l - w.s.saved - 1);
      var last := worlds[|steps|];
      var w' := CanPublish(last, body);
      assert Reissues(w, worlds, steps, body, true);
    }
  }

  lemma LifeSizes(worlds: seq<World>, steps: seq<Step>)
    requires OneLife(worlds, steps)
    ensures |worlds| == |steps| + 1 && |steps| > 0
  {
  }

  lemma CanPublish(w: World, body: Payload) returns (w': World)
    requires w.up && w.leader
    ensures Next(w, w', Publish(body, true)) && w'.up && w'.leader && w'.s.lsn == w.s.lsn + 1
  {
    hide FanOut, FedOut, Dropped, Weight;
    var rec := Rec(w.s.lsn + 1, body);
    w' := w.(s := Append(w.s, body, true),
             life := Life(w.life.issued[rec.lsn := rec], FedOut(w.life.feeds, w.s.subs, rec, w.s.buf)));
  }

  /** Opening as a leader and publishing `n` records. */
  lemma {:induction false} PublishUpTo(w: World, body: Payload, n: nat) returns (worlds: seq<World>, steps: seq<Step>)
    requires !w.up
    ensures OneLife(worlds, steps) && |worlds| == |steps| + 1 && worlds[0] == w
    ensures
      var last := worlds[|steps|];
      last.up && last.leader && last.s.lsn == w.s.saved + n
  {
    if n == 0 {
      var first := w.(s := Opened(w.s.saved, 1, 1), up := true, leader := true);
      worlds, steps := [w, first], [Open(true, 1, 1)];
    } else {
      worlds, steps := PublishUpTo(w, body, n - 1);
      var next := CanPublish(worlds[|steps|], body);
      LifePush(worlds, steps, Publish(body, true), next);
      worlds, steps := worlds + [next], steps + [Publish(body, true)];
    }
  }

  lemma LifePush(worlds: seq<World>, steps: seq<Step>, step: Step, w': World)
    requires OneLife(worlds, steps) && Next(worlds[|steps|], w', step) && step.Publish?
    ensures OneLife(worlds + [w'], steps + [step])
  {
    hide Next;
    var ws, ss := worlds + [w'], steps + [step];
    forall i | 0 <= i < |ss|
      ensures Next(ws[i], ws[i + 1], ss[i])
    {
    }
  }

  /** The failing run: the only watermark write of a first life is lost, and the second life publishes under LSN 1 again. */
  lemma LostWatermarkReissues(w: World, up: World, sent: World, down: World, body: Payload)
    requires Init(w) && w.s.saved == 0 && Next(w, up, Open(true, 1, 1))
    requires Next(up, sent, Publish(body, false)) && Next(sent, down, Crash)
    ensures exists worlds, steps, stored :: Reissues(down, worlds, steps, body, stored)
  {
    StepKeepsInv(w, up, Open(true, 1, 1));
    StepKeepsInv(up, sent, Publish(body, false));
    StepKeepsInv(sent, down, Crash);
    assert 1 in sent.life.issued && down.past[|w.past|] == sent.life;
    assert Ever(down, 1) && down.s.saved == 0;
    hide Reissues, Inv, Next, Ever;
    ReissuesExactlyWhen(down, body);
  }

  /**
   A transaction whose LSN was reserved before its commit, and that was never published because the process died:
   no resume point of a caught-up follower is served after the restart, exactly if the watermark covers that LSN.
   */
  lemma LostPublishForcesResync(s: State, stored: bool, cap: nat, buf: nat)
    ensures
      var crashed := Reserve(s, s.lsn + 1, stored);
      (forall from: nat :: from <= s.lsn ==> !Serves(Opened(crashed.saved, cap, buf), from)) <==> crashed.saved > s.lsn
    ensures stored && s.reserved <= s.saved ==> Reserve(s, s.lsn + 1, stored).saved > s.lsn
  {
    var crashed := Reserve(s, s.lsn + 1, stored);
    assert Serves(Opened(crashed.saved, cap, buf), s.lsn) <==> s.lsn >= crashed.saved;
  }
}
