/**
 Runs of a follower. Over any deliveries at all a transaction is applied at most once and a
 differing redelivery is refused. Delivered a leader's log in order, with restarts, it holds
 what the log means, exactly if replaying the snapshot overlap is harmless.
 */
module FollowerRuns {
  import opened Values
  import opened Log
  import opened Replication
  import opened Follower

  // ----- any deliveries at all ---------------------------------------------------------------------------

  datatype Delivery = Single(item: Item) | Offer(lsn: nat, env: Envelope)

  ghost predicate Handled(n: Node, d: Delivery, n': Node, r: Result) {
    match d
    case Single(item) => AbsorbsAll(n.rows, [item], n'.rows) && n' == n.(rows := n'.rows)
    case Offer(lsn, env) => TxStep(n, lsn, env, n', r)
  }

  /** A node handling deliveries in whatever order and however often they come; restarts lose nothing of it. */
  ghost predicate Handling(nodes: seq<Node>, ds: seq<Delivery>, rs: seq<Result>) {
    && |nodes| == |ds| + 1 && |rs| == |ds|
    && (forall i :: 0 <= i < |ds| ==> Handled(nodes[i], ds[i], nodes[i + 1], rs[i]))
  }

  /** `lsn` is bound to `env`, and no other LSN is bound to the same transaction. */
  ghost predicate BoundOnce(bound: map<nat, Envelope>, lsn: nat, env: Envelope) {
    lsn in bound && bound[lsn] == env && forall l :: l in bound && bound[l].txid == env.txid ==> l == lsn
  }

  lemma HandledKeeps(n: Node, d: Delivery, n': Node, r: Result, lsn: nat, env: Envelope)
    requires Handled(n, d, n', r) && BoundOnce(n.bound, lsn, env)
    ensures BoundOnce(n'.bound, lsn, env)
  {
    hide AbsorbsAll, AllPresent;
    assert Bound(n.bound, lsn, env.txid);
  }

  lemma {:induction false} BindingsStay(nodes: seq<Node>, ds: seq<Delivery>, rs: seq<Result>, i: nat, j: nat, lsn: nat, env: Envelope)
    requires Handling(nodes, ds, rs) && i <= j < |nodes| && BoundOnce(nodes[i].bound, lsn, env)
    ensures BoundOnce(nodes[j].bound, lsn, env)
  {
    if i < j {
      BindingsStay(nodes, ds, rs, i, j - 1, lsn, env);
      assert Handled(nodes[j - 1], ds[j - 1], nodes[j], rs[j - 1]);
      HandledKeeps(nodes[j - 1], ds[j - 1], nodes[j], rs[j - 1], lsn, env);
    }
  }

  /**
   A transaction once applied is never applied again, at its LSN or at another: the same delivery is
   answered as already there, anything else under its LSN or its id is refused, and nothing changes.
   */
  lemma AppliedAtMostOnce(nodes: seq<Node>, ds: seq<Delivery>, rs: seq<Result>, i: nat, j: nat)
    requires Handling(nodes, ds, rs) && i < j < |ds| && ds[i].Offer? && ds[j].Offer? && rs[i].Applied?
    requires ds[j].lsn == ds[i].lsn || ds[j].env.txid == ds[i].env.txid
    ensures !rs[j].Applied? && nodes[j + 1] == nodes[j] && (rs[j].Already? <==> ds[j] == ds[i])
  {
    assert Handled(nodes[i], ds[i], nodes[i + 1], rs[i]) && Handled(nodes[j], ds[j], nodes[j + 1], rs[j]);
    hide AbsorbsAll, AllPresent;
    assert BoundOnce(nodes[i + 1].bound, ds[i].lsn, ds[i].env);
    BindingsStay(nodes, ds, rs, i + 1, j, ds[i].lsn, ds[i].env);
  }

  // ----- a leader's log in order --------------------------------------------------------------------------

  /** The follower at position `at` of the log, `high` the farthest its contents reach, `base` where it began. */
  datatype World = World(n: Node, at: nat, high: nat, base: nat)

  datatype Step = Deliver | Rewind(to: nat)

  ghost predicate Matches(rows: map<Key, Row>, log: seq<Payload>) {
    forall k :: RowOf(rows, k) == Ideal(log, k)
  }

  ghost predicate LoggedAs(log: seq<Payload>, env: Envelope, n: nat) {
    exists i :: 0 <= i < |log| && i < n && log[i] == Whole(env)
  }

  ghost predicate BoundOk(log: seq<Payload>, n: Node, at: nat) {
    forall l :: l in n.bound ==> 0 < l <= at && l <= |log| && log[l - 1] == Whole(n.bound[l])
  }

  ghost predicate SnapOk(log: seq<Payload>, n: Node, high: nat) {
    forall t :: t in n.snap ==> n.snap[t].txid == t && LoggedAs(log, n.snap[t], high)
  }

  /**
   A new follower holds a snapshot of some position of the log, the empty one included. The position it resumes
   from was read before the snapshot was taken, so the snapshot may be ahead of it.
   */
  ghost predicate Init(log: seq<Payload>, w: World) {
    && w.base == w.at <= w.high <= |log|
    && Matches(w.n.rows, log[..w.high])
    && BoundOk(log, w.n, w.at) && SnapOk(log, w.n, w.high)
  }

  /** The next record is delivered, or a restart resumes from an earlier position not below a bound transaction. */
  ghost predicate Next(log: seq<Payload>, w: World, w': World, step: Step) {
    match step
    case Deliver =>
      && w.at < |log| && w'.at == w.at + 1 && w'.high == (if w.high > w.at then w.high else w.at + 1) && w'.base == w.base
      && (match log[w.at]
          case One(item) => AbsorbsAll(w.n.rows, [item], w'.n.rows) && w'.n == w.n.(rows := w'.n.rows)
          case Whole(tx) => !Answer(w.n, w.at + 1, tx).Diverged? && TxStep(w.n, w.at + 1, tx, w'.n, Answer(w.n, w.at + 1, tx)))
    case Rewind(to) => w.base <= to <= w.at && (forall l :: l in w.n.bound ==> l <= to) && w' == w.(at := to)
  }

  ghost predicate IsRun(log: seq<Payload>, worlds: seq<World>, steps: seq<Step>) {
    && |worlds| == |steps| + 1
    && (forall i :: 0 <= i < |steps| ==> Next(log, worlds[i], worlds[i + 1], steps[i]))
  }

  // ----- replaying a stretch of the log -------------------------------------------------------------------

  /** A transaction the snapshot brought along is not applied when it is delivered. */
  predicate Skipped(log: seq<Payload>, snap: map<TxId, Envelope>, i: nat)
    requires i < |log|
  {
    log[i].Whole? && log[i].tx.txid in snap
  }

  function KeptTouch(log: seq<Payload>, snap: map<TxId, Envelope>, i: nat, k: Key): Option<Entry>
    requires i < |log|
  {
    if Skipped(log, snap, i) then None else Touch(Items(log[i]), k)
  }

  /** A document after the records from `i` up to `j` are delivered once more. */
  function Redo(log: seq<Payload>, snap: map<TxId, Envelope>, r: Option<Row>, k: Key, i: nat, j: nat): Option<Row>
    requires j <= |log|
  {
    if j <= i then r
    else
      var before, e := Redo(log, snap, r, k, i, j - 1), KeptTouch(log, snap, j - 1, k);
      if e.None? then before else Absorb(before, e.value)
  }

  /** A delete of the document is delivered somewhere from `i` up to `j`. */
  ghost predicate KeptDelete(log: seq<Payload>, snap: map<TxId, Envelope>, k: Key, i: nat, j: nat) {
    exists x :: i <= x < j && x < |log| && KeptTouch(log, snap, x, k).Some? && KeptTouch(log, snap, x, k).value.op.Delete?
  }

  /** Delivering the overlap of snapshot and log once leaves every document as the snapshot has it. */
  ghost predicate OverlapHarmless(log: seq<Payload>, w: World)
    requires w.high <= |log|
  {
    forall k :: Redo(log, w.n.snap, Ideal(log[..w.high], k), k, w.at, w.high) == Ideal(log[..w.high], k)
  }

  // ----- laws of replaying --------------------------------------------------------------------------------

  lemma IdealNext(log: seq<Payload>, k: Key, i: nat)
    requires i < |log|
    ensures
      var e := Touch(Items(log[i]), k);
      Ideal(log[..i + 1], k) == if e.Some? then Stepped(Ideal(log[..i], k), e.value) else Ideal(log[..i], k)
  {
    hide Touch, Stepped, Items;
    assert log[..i + 1][..i] == log[..i];
  }

  lemma StepAbsorbs(r: Option<Row>, e: Entry)
    requires e.op.Delete? || e.rev > RevOf(r)
    ensures Stepped(r, e) == Absorb(r, e)
  {
  }

  lemma IdealStep(log: seq<Payload>, k: Key, i: nat)
    requires LeaderLog(log) && i < |log|
    ensures
      var e := Touch(Items(log[i]), k);
      Ideal(log[..i + 1], k) == if e.Some? then Absorb(Ideal(log[..i], k), e.value) else Ideal(log[..i], k)
  {
    assert RevRises(log, i, k);
    hide LeaderLog, Touch, Ideal, Stepped, Absorb, RevOf;
    IdealNext(log, k, i);
    if Touch(Items(log[i]), k).Some? {
      StepAbsorbs(Ideal(log[..i], k), Touch(Items(log[i]), k).value);
    }
  }

  lemma RisesAt(log: seq<Payload>, snap: map<TxId, Envelope>, k: Key, i: nat)
    requires LeaderLog(log) && i < |log| && KeptTouch(log, snap, i, k).Some? && !KeptTouch(log, snap, i, k).value.op.Delete?
    ensures KeptTouch(log, snap, i, k).value.rev > 0
  {
    assert RevRises(log, i, k);
  }

  /** One absorbed entry that is no delete leaves a row alone or raises its revision. */
  lemma AbsorbRaises(r: Option<Row>, e: Entry)
    requires !e.op.Delete? && e.rev > 0
    ensures Absorb(r, e) == r || RevOf(Absorb(r, e)) == e.rev > RevOf(r)
  {
  }

  /** The last record of a replay. */
  lemma RedoLast(log: seq<Payload>, snap: map<TxId, Envelope>, x: Option<Row>, k: Key, i: nat, j: nat)
    requires i <= j < |log|
    ensures
      var before, e := Redo(log, snap, x, k, i, j), KeptTouch(log, snap, j, k);
      Redo(log, snap, x, k, i, j + 1) == if e.None? then before else Absorb(before, e.value)
  {
    hide KeptTouch, Absorb;
  }

  lemma DeleteClears(r: Option<Row>, e: Entry)
    requires e.op.Delete?
    ensures Absorb(r, e).None?
  {
  }

  /** After a delivered delete it does not matter what the row was. */
  lemma {:induction false} DeleteForgets(log: seq<Payload>, snap: map<TxId, Envelope>, x: Option<Row>, y: Option<Row>, k: Key, i: nat, j: nat)
    requires j <= |log| && KeptDelete(log, snap, k, i, j)
    ensures Redo(log, snap, x, k, i, j) == Redo(log, snap, y, k, i, j)
  {
    hide *;
    LongerSpan(log, snap, k, i, j);
    RedoLast(log, snap, x, k, i, j - 1);
    RedoLast(log, snap, y, k, i, j - 1);
    var e := KeptTouch(log, snap, j - 1, k);
    if e.Some? && e.value.op.Delete? {
      DeleteClears(Redo(log, snap, x, k, i, j - 1), e.value);
      DeleteClears(Redo(log, snap, y, k, i, j - 1), e.value);
    } else {
      DeleteForgets(log, snap, x, y, k, i, j - 1);
    }
  }

  lemma LongerSpan(log: seq<Payload>, snap: map<TxId, Envelope>, k: Key, i: nat, j: nat)
    requires j <= |log| && KeptDelete(log, snap, k, i, j)
    ensures i <= j - 1
    ensures
      var e := KeptTouch(log, snap, j - 1, k);
      (e.Some? && e.value.op.Delete?) || KeptDelete(log, snap, k, i, j - 1)
  {
  }

  lemma ShorterSpan(log: seq<Payload>, snap: map<TxId, Envelope>, k: Key, i: nat, j: nat)
    requires j < |log| && !KeptDelete(log, snap, k, i, j + 1)
    ensures !KeptDelete(log, snap, k, i, j)
    ensures i <= j && KeptTouch(log, snap, j, k).Some? ==> !KeptTouch(log, snap, j, k).value.op.Delete?
  {
  }

  /** Without a delete a replay leaves the row or raises its revision. */
  lemma {:induction false} RedoRaises(log: seq<Payload>, snap: map<TxId, Envelope>, x: Option<Row>, k: Key, i: nat, j: nat)
    requires LeaderLog(log) && j <= |log| && !KeptDelete(log, snap, k, i, j)
    ensures Redo(log, snap, x, k, i, j) == x || RevOf(Redo(log, snap, x, k, i, j)) > RevOf(x)
  {
    hide *;
    if i < j {
      ShorterSpan(log, snap, k, i, j - 1);
      RedoRaises(log, snap, x, k, i, j - 1);
      RedoLast(log, snap, x, k, i, j - 1);
      if KeptTouch(log, snap, j - 1, k).Some? {
        RisesAt(log, snap, k, j - 1);
        AbsorbRaises(Redo(log, snap, x, k, i, j - 1), KeptTouch(log, snap, j - 1, k).value);
      }
    } else {
      RedoNothing(log, snap, x, k, i, j);
    }
  }

  lemma RedoNothing(log: seq<Payload>, snap: map<TxId, Envelope>, x: Option<Row>, k: Key, i: nat, j: nat)
    requires j <= i && j <= |log|
    ensures Redo(log, snap, x, k, i, j) == x
  {
  }

  /** One absorbed entry, on a row and on another not above it. */
  lemma AbsorbMeets(a: Option<Row>, b: Option<Row>, y: Option<Row>, e: Entry)
    requires !e.op.Delete? && e.rev > 0 && (a == b || (b == y && RevOf(a) <= RevOf(y)))
    ensures Absorb(a, e) == Absorb(b, e) || (Absorb(b, e) == y && RevOf(Absorb(a, e)) <= RevOf(y))
  {
  }

  /** Without a delete, replays from a lower and a higher row meet, unless nothing passes the higher one. */
  lemma {:induction false} RedoMeets(log: seq<Payload>, snap: map<TxId, Envelope>, x: Option<Row>, y: Option<Row>, k: Key, i: nat, j: nat)
    requires LeaderLog(log) && j <= |log| && !KeptDelete(log, snap, k, i, j) && RevOf(x) <= RevOf(y)
    ensures
      var a, b := Redo(log, snap, x, k, i, j), Redo(log, snap, y, k, i, j);
      a == b || (b == y && RevOf(a) <= RevOf(y))
  {
    hide *;
    if i < j {
      var e := KeptTouch(log, snap, j - 1, k);
      ShorterSpan(log, snap, k, i, j - 1);
      RedoMeets(log, snap, x, y, k, i, j - 1);
      RedoLast(log, snap, x, k, i, j - 1);
      RedoLast(log, snap, y, k, i, j - 1);
      if e.Some? {
        RisesAt(log, snap, k, j - 1);
        AbsorbMeets(Redo(log, snap, x, k, i, j - 1), Redo(log, snap, y, k, i, j - 1), y, e.value);
      }
    } else {
      RedoNothing(log, snap, x, k, i, j);
      RedoNothing(log, snap, y, k, i, j);
    }
  }

  /** Replaying from further back goes through the row at the position in between. */
  lemma {:induction false} RedoSplits(log: seq<Payload>, snap: map<TxId, Envelope>, x: Option<Row>, k: Key, i: nat, m: nat, j: nat)
    requires i <= m <= j <= |log|
    ensures Redo(log, snap, x, k, i, j) == Redo(log, snap, Redo(log, snap, x, k, i, m), k, m, j)
  {
    if m < j {
      RedoSplits(log, snap, x, k, i, m, j - 1);
    }
  }

  lemma RedoOne(log: seq<Payload>, snap: map<TxId, Envelope>, x: Option<Row>, k: Key, i: nat)
    requires i < |log|
    ensures Redo(log, snap, x, k, i, i) == x
    ensures Redo(log, snap, x, k, i, i + 1) ==
      if KeptTouch(log, snap, i, k).Some? then Absorb(x, KeptTouch(log, snap, i, k).value) else x
  {
  }

  // ----- the invariant ---------------------------------------------------------------------------------------

  /** From every position a restart may resume at, what is still to come restores the document. */
  ghost predicate Restores(log: seq<Payload>, snap: map<TxId, Envelope>, r: Option<Row>, k: Key, base: nat, at: nat, high: nat)
    requires high <= |log|
  {
    forall t :: base <= t <= at ==> Redo(log, snap, r, k, t, high) == Ideal(log[..high], k)
  }

  ghost predicate Inv(log: seq<Payload>, w: World) {
    && w.base <= w.at <= w.high <= |log|
    && (forall k :: Restores(log, w.n.snap, RowOf(w.n.rows, k), k, w.base, w.at, w.high))
    && BoundOk(log, w.n, w.at) && SnapOk(log, w.n, w.high)
  }

  /** Delivering a record again inside the known part. */
  lemma AgainKeeps(log: seq<Payload>, snap: map<TxId, Envelope>, r: Option<Row>, k: Key, base: nat, at: nat, high: nat, t: nat)
    requires LeaderLog(log) && base <= t <= at < high <= |log|
    requires Redo(log, snap, r, k, t, high) == Ideal(log[..high], k) && Redo(log, snap, r, k, at, high) == Ideal(log[..high], k)
    ensures Redo(log, snap, Redo(log, snap, r, k, at, at + 1), k, t, high) == Ideal(log[..high], k)
  {
    hide *;
    var r' := Redo(log, snap, r, k, at, at + 1);
    RedoSplits(log, snap, r, k, at, at + 1, high);
    if KeptDelete(log, snap, k, t, high) {
      DeleteForgets(log, snap, r, r', k, t, high);
    } else {
      LaterSpan(log, snap, k, t, at, at + 1, high);
      LaterSpan(log, snap, k, t, at + 1, high, high);
      RedoRaises(log, snap, r, k, at, at + 1);
      RedoRaises(log, snap, r', k, at + 1, high);
      RedoMeets(log, snap, r, r', k, t, high);
    }
  }

  lemma LaterSpan(log: seq<Payload>, snap: map<TxId, Envelope>, k: Key, i: nat, i': nat, j': nat, j: nat)
    requires !KeptDelete(log, snap, k, i, j) && i <= i' && j' <= j
    ensures !KeptDelete(log, snap, k, i', j')
  {
  }

  /** Delivering a record beyond everything known so far. */
  lemma NewKeeps(log: seq<Payload>, snap: map<TxId, Envelope>, k: Key, base: nat, high: nat, t: nat)
    requires LeaderLog(log) && base <= t <= high < |log| && !Skipped(log, snap, high)
    requires t <= high ==> Redo(log, snap, Ideal(log[..high], k), k, t, high) == Ideal(log[..high], k)
    ensures Redo(log, snap, Ideal(log[..high + 1], k), k, t, high + 1) == Ideal(log[..high + 1], k)
  {
    var x, y, e := Ideal(log[..high], k), Ideal(log[..high + 1], k), Touch(Items(log[high]), k);
    IdealStep(log, k, high);
    assert KeptTouch(log, snap, high, k) == e;
    RedoSplits(log, snap, y, k, t, high, high + 1);
    RedoOne(log, snap, Redo(log, snap, y, k, t, high), k, high);
    hide LeaderLog, Ideal, Redo, KeptTouch;
    if e.Some? && !e.value.op.Delete? {
      if KeptDelete(log, snap, k, t, high) {
        DeleteForgets(log, snap, x, y, k, t, high);
      } else {
        RisesNew(log, k, high);
        RedoRaises(log, snap, y, k, t, high);
        RedoMeets(log, snap, x, y, k, t, high);
      }
    }
  }

  lemma RisesNew(log: seq<Payload>, k: Key, i: nat)
    requires LeaderLog(log) && i < |log| && Touch(Items(log[i]), k).Some? && !Touch(Items(log[i]), k).value.op.Delete?
    ensures RevOf(Ideal(log[..i + 1], k)) == Touch(Items(log[i]), k).value.rev > RevOf(Ideal(log[..i], k))
  {
    assert RevRises(log, i, k);
    IdealStep(log, k, i);
  }

  // ----- one step ------------------------------------------------------------------------------------------

  /** What a run keeps whether or not the contents are right. */
  ghost predicate Sound(log: seq<Payload>, w: World) {
    w.base <= w.at <= w.high <= |log| && BoundOk(log, w.n, w.at) && SnapOk(log, w.n, w.high)
  }

  lemma PresentAbsorbs(rows: map<Key, Row>, ops: seq<Item>)
    requires AllPresent(rows, ops)
    ensures AbsorbsAll(rows, ops, rows)
  {
    forall k
      ensures Touch(ops, k).Some? ==> Absorb(RowOf(rows, k), Touch(ops, k).value) == RowOf(rows, k)
    {
      TouchFrom(ops, k);
    }
  }

  /** In log order a transaction is new here, and one the snapshot brought is delivered as it was logged. */
  lemma NeverRefused(log: seq<Payload>, w: World)
    requires LeaderLog(log) && Sound(log, w) && w.at < |log| && log[w.at].Whole?
    ensures
      var tx := log[w.at].tx;
      && !Bound(w.n.bound, w.at + 1, tx.txid)
      && (tx.txid in w.n.snap ==> w.n.snap[tx.txid] == tx && w.at < w.high)
      && !Answer(w.n, w.at + 1, tx).Diverged?
  {
    var tx := log[w.at].tx;
    hide RevRises, DistinctDocs, AllPresent;
    if tx.txid in w.n.snap {
      assert LoggedAs(log, w.n.snap[tx.txid], w.high);
      var i :| 0 <= i < |log| && i < w.high && log[i] == Whole(w.n.snap[tx.txid]);
      assert i == w.at;
    }
  }

  ghost predicate RowsRedone(log: seq<Payload>, snap: map<TxId, Envelope>, rows: map<Key, Row>, rows': map<Key, Row>, i: nat, j: nat)
    requires j <= |log|
  {
    forall k :: RowOf(rows', k) == Redo(log, snap, RowOf(rows, k), k, i, j)
  }

  lemma DeliveredRows(log: seq<Payload>, w: World, w': World)
    requires LeaderLog(log) && Sound(log, w) && Next(log, w, w', Deliver)
    ensures RowsRedone(log, w.n.snap, w.n.rows, w'.n.rows, w.at, w.at + 1)
  {
    hide LeaderLog, Sound, Touch, Absorb;
    if log[w.at].Whole? {
      NeverRefused(log, w);
      if Answer(w.n, w.at + 1, log[w.at].tx).Already? && !Skipped(log, w.n.snap, w.at) {
        PresentAbsorbs(w.n.rows, log[w.at].tx.ops);
      }
    }
    forall k
      ensures RowOf(w'.n.rows, k) == Redo(log, w.n.snap, RowOf(w.n.rows, k), k, w.at, w.at + 1)
    {
      RedoOne(log, w.n.snap, RowOf(w.n.rows, k), k, w.at);
    }
  }

  lemma DeliveredSound(log: seq<Payload>, w: World, w': World)
    requires Sound(log, w) && Next(log, w, w', Deliver)
    ensures Sound(log, w') && w'.n.snap == w.n.snap
  {
    hide AbsorbsAll, AllPresent;
    forall t | t in w'.n.snap
      ensures w'.n.snap[t].txid == t && LoggedAs(log, w'.n.snap[t], w'.high)
    {
      assert LoggedAs(log, w.n.snap[t], w.high);
    }
  }

  lemma RestoredRow(log: seq<Payload>, snap: map<TxId, Envelope>, r: Option<Row>, k: Key, base: nat, at: nat, high: nat, t: nat)
    requires LeaderLog(log) && base <= t <= at + 1 && at <= high <= |log| && at < |log| && base <= at
    requires Redo(log, snap, r, k, at, high) == Ideal(log[..high], k)
    requires t <= at ==> Redo(log, snap, r, k, t, high) == Ideal(log[..high], k)
    requires at == high ==> !Skipped(log, snap, at)
    ensures
      var r', high' := Redo(log, snap, r, k, at, at + 1), if high > at then high else at + 1;
      Redo(log, snap, r', k, t, high') == Ideal(log[..high'], k)
  {
    hide *;
    var r' := Redo(log, snap, r, k, at, at + 1);
    if at < high {
      if t <= at {
        AgainKeeps(log, snap, r, k, base, at, high, t);
      } else {
        RedoSplits(log, snap, r, k, at, at + 1, high);
      }
    } else {
      RedoOne(log, snap, r, k, at);
      IdealRedo(log, snap, k, at);
      if t <= at {
        NewKeeps(log, snap, k, base, high, t);
      } else {
        RedoNothing(log, snap, r', k, t, t);
      }
    }
  }

  lemma RestoredAfter(log: seq<Payload>, w: World, w': World, k: Key, t: nat)
    requires LeaderLog(log) && Inv(log, w) && Next(log, w, w', Deliver) && w.base <= t <= w.at + 1 && w'.high <= |log|
    requires RowsRedone(log, w.n.snap, w.n.rows, w'.n.rows, w.at, w.at + 1)
    requires w.at == w.high ==> !Skipped(log, w.n.snap, w.at)
    ensures Redo(log, w.n.snap, RowOf(w'.n.rows, k), k, t, w'.high) == Ideal(log[..w'.high], k)
  {
    hide LeaderLog, Redo, Ideal, Skipped, BoundOk, SnapOk;
    assert Restores(log, w.n.snap, RowOf(w.n.rows, k), k, w.base, w.at, w.high);
    RestoredRow(log, w.n.snap, RowOf(w.n.rows, k), k, w.base, w.at, w.high, t);
  }

  lemma IdealRedo(log: seq<Payload>, snap: map<TxId, Envelope>, k: Key, i: nat)
    requires LeaderLog(log) && i < |log| && !Skipped(log, snap, i)
    ensures Ideal(log[..i + 1], k) == Redo(log, snap, Ideal(log[..i], k), k, i, i + 1)
  {
    IdealStep(log, k, i);
  }

  lemma StepKeeps(log: seq<Payload>, w: World, w': World, step: Step)
    requires LeaderLog(log) && Inv(log, w) && Next(log, w, w', step)
    ensures Inv(log, w') && w'.n.snap == w.n.snap
  {
    if step == Deliver {
      DeliveredRows(log, w, w');
      DeliveredSound(log, w, w');
      if log[w.at].Whole? {
        NeverRefused(log, w);
      }
      hide LeaderLog, RowsRedone, Ideal, Redo;
      forall k, t | w'.base <= t <= w'.at
        ensures Redo(log, w.n.snap, RowOf(w'.n.rows, k), k, t, w'.high) == Ideal(log[..w'.high], k)
      {
        RestoredAfter(log, w, w', k, t);
      }
    } else {
      hide Ideal, Redo, LeaderLog;
    }
  }

  // ----- convergence ---------------------------------------------------------------------------------------

  lemma {:induction false} RunKeeps(log: seq<Payload>, worlds: seq<World>, steps: seq<Step>, i: nat)
    requires LeaderLog(log) && IsRun(log, worlds, steps) && Inv(log, worlds[0]) && i <= |steps|
    ensures Inv(log, worlds[i])
  {
    if i > 0 {
      RunKeeps(log, worlds, steps, i - 1);
      assert Next(log, worlds[i - 1], worlds[i], steps[i - 1]);
      StepKeeps(log, worlds[i - 1], worlds[i], steps[i - 1]);
    }
  }

  lemma Started(log: seq<Payload>, w: World)
    requires Init(log, w) && OverlapHarmless(log, w)
    ensures Inv(log, w)
  {
  }

  lemma CaughtUp(log: seq<Payload>, w: World)
    requires Inv(log, w) && w.at == w.high
    ensures Matches(w.n.rows, log[..w.high])
  {
    forall k
      ensures RowOf(w.n.rows, k) == Ideal(log[..w.high], k)
    {
      assert Restores(log, w.n.snap, RowOf(w.n.rows, k), k, w.base, w.at, w.high);
      RedoNothing(log, w.n.snap, RowOf(w.n.rows, k), k, w.at, w.high);
    }
  }

  function After(rows: map<Key, Row>, ops: seq<Item>, k: Key): Option<Row> {
    if Touch(ops, k).Some? then Absorb(RowOf(rows, k), Touch(ops, k).value) else RowOf(rows, k)
  }

  lemma CanAbsorb(rows: map<Key, Row>, ops: seq<Item>) returns (rows': map<Key, Row>)
    ensures AbsorbsAll(rows, ops, rows')
  {
    var keys := rows.Keys + set i | 0 <= i < |ops| :: KeyOf(ops[i]);
    rows' := map k | k in keys && After(rows, ops, k).Some? :: After(rows, ops, k).value;
    forall k
      ensures RowOf(rows', k) == After(rows, ops, k)
    {
      TouchFrom(ops, k);
    }
  }

  /** A follower is never stuck before the end of the log. */
  lemma CanDeliver(log: seq<Payload>, w: World) returns (w': World)
    requires LeaderLog(log) && Sound(log, w) && w.at < |log|
    ensures Next(log, w, w', Deliver)
  {
    var rows := CanAbsorb(w.n.rows, Items(log[w.at]));
    var n := w.n.(rows := rows);
    if log[w.at].Whole? {
      NeverRefused(log, w);
      var r := Answer(w.n, w.at + 1, log[w.at].tx);
      n := if r.Applied? then Node(rows, w.n.bound[w.at + 1 := log[w.at].tx], w.n.snap) else w.n;
    }
    hide LeaderLog, Sound, AbsorbsAll;
    w' := World(n, w.at + 1, if w.high > w.at then w.high else w.at + 1, w.base);
  }

  /** Delivering straight on to the farthest known position. */
  lemma {:induction false} StraightRun(log: seq<Payload>, w: World) returns (worlds: seq<World>, steps: seq<Step>)
    requires LeaderLog(log) && Sound(log, w)
    ensures IsRun(log, worlds, steps) && worlds[0] == w
    ensures
      var last := worlds[|steps|];
      last.at == last.high == w.high && RowsRedone(log, w.n.snap, w.n.rows, last.n.rows, w.at, w.high)
    decreases w.high - w.at
  {
    hide LeaderLog, Next, Sound;
    SoundBounds(log, w);
    if w.at == w.high {
      worlds, steps := [w], [];
      forall k
        ensures RowOf(w.n.rows, k) == Redo(log, w.n.snap, RowOf(w.n.rows, k), k, w.at, w.high)
      {
        RedoNothing(log, w.n.snap, RowOf(w.n.rows, k), k, w.at, w.high);
      }
    } else {
      var w' := CanDeliver(log, w);
      DeliveredSound(log, w, w');
      DeliveredRows(log, w, w');
      DeliverMoves(log, w, w');
      var ws, ss := StraightRun(log, w');
      worlds, steps := [w] + ws, [Deliver] + ss;
      RunFront(log, w, ws, ss);
      var last := worlds[|steps|];
      forall k
        ensures RowOf(last.n.rows, k) == Redo(log, w.n.snap, RowOf(w.n.rows, k), k, w.at, w.high)
      {
        RedoSplits(log, w.n.snap, RowOf(w.n.rows, k), k, w.at, w.at + 1, w.high);
      }
    }
  }

  lemma SoundBounds(log: seq<Payload>, w: World)
    requires Sound(log, w)
    ensures w.base <= w.at <= w.high <= |log|
  {
  }

  lemma DeliverMoves(log: seq<Payload>, w: World, w': World)
    requires Next(log, w, w', Deliver)
    ensures w'.at == w.at + 1 && w'.high == if w.high > w.at then w.high else w.at + 1
  {
  }

  lemma RunFront(log: seq<Payload>, w: World, ws: seq<World>, ss: seq<Step>)
    requires IsRun(log, ws, ss) && Next(log, w, ws[0], Deliver)
    ensures IsRun(log, [w] + ws, [Deliver] + ss)
  {
    hide Next;
    var worlds, steps := [w] + ws, [Deliver] + ss;
    forall i | 0 <= i < |steps|
      ensures Next(log, worlds[i], worlds[i + 1], steps[i])
    {
      if i > 0 {
        assert Next(log, ws[i - 1], ws[i], ss[i - 1]);
      }
    }
  }

  /** Whenever it stands where its contents reach, it holds what the log means there. */
  ghost predicate AlwaysConverges(log: seq<Payload>, w: World) {
    forall worlds: seq<World>, steps: seq<Step> ::
      IsRun(log, worlds, steps) && worlds[0] == w && worlds[|steps|].at == worlds[|steps|].high <= |log| ==>
        Matches(worlds[|steps|].n.rows, log[..worlds[|steps|].high])
  }

  /**
   Over every run, with restarts and redelivery, a follower converges exactly if delivering the records between
   the position it was given and the position of its snapshot would leave the snapshot as it is.
   */
  lemma ConvergesExactlyWhen(log: seq<Payload>, w: World)
    requires LeaderLog(log) && Init(log, w)
    ensures AlwaysConverges(log, w) <==> OverlapHarmless(log, w)
  {
    if OverlapHarmless(log, w) {
      Started(log, w);
      hide LeaderLog, Init, OverlapHarmless, Inv;
      forall worlds: seq<World>, steps: seq<Step> | IsRun(log, worlds, steps) && worlds[0] == w && worlds[|steps|].at == worlds[|steps|].high <= |log|
        ensures Matches(worlds[|steps|].n.rows, log[..worlds[|steps|].high])
      {
        RunKeeps(log, worlds, steps, |steps|);
        CaughtUp(log, worlds[|steps|]);
      }
    }
    if AlwaysConverges(log, w) {
      var worlds, steps := StraightRun(log, w);
      var last := worlds[|steps|];
      assert Matches(last.n.rows, log[..w.high]);
      hide LeaderLog, Ideal, Redo;
      forall k
        ensures Redo(log, w.n.snap, Ideal(log[..w.high], k), k, w.at, w.high) == Ideal(log[..w.high], k)
      {
        assert RowOf(last.n.rows, k) == Redo(log, w.n.snap, RowOf(w.n.rows, k), k, w.at, w.high);
        assert RowOf(w.n.rows, k) == Ideal(log[..w.high], k);
      }
    }
  }

  /** Nothing between the position given and the snapshot, as for an empty follower: it always converges. */
  lemma WithoutOverlapConverges(log: seq<Payload>, w: World)
    requires LeaderLog(log) && Init(log, w) && w.at == w.high
    ensures AlwaysConverges(log, w)
  {
    ConvergesExactlyWhen(log, w);
  }

  // ----- logs that use an id once ----------------------------------------------------------------------------

  ghost predicate Deletes(p: Payload, k: Key) {
    Touch(Items(p), k).Some? && Touch(Items(p), k).value.op.Delete?
  }

  /** Nothing touches a document after its delete: ids are handed out once. */
  ghost predicate NoReuse(log: seq<Payload>) {
    forall i, j, k :: 0 <= i < j < |log| && Deletes(log[i], k) ==> Touch(Items(log[j]), k).None?
  }

  /** A transaction the snapshot brought deletes a document that an earlier record, delivered again, writes. */
  ghost predicate Revives(log: seq<Payload>, snap: map<TxId, Envelope>, k: Key, i: nat, j: nat, x: nat, d: nat) {
    i <= x < d < j <= |log| && KeptTouch(log, snap, x, k).Some? && Skipped(log, snap, d) && Deletes(log[d], k)
  }

  lemma {:induction false} GoneIdeal(log: seq<Payload>, k: Key, d: nat, n: nat)
    requires NoReuse(log) && d < n <= |log| && Deletes(log[d], k)
    ensures Ideal(log[..n], k).None?
  {
    assert log[..n][..n - 1] == log[..n - 1];
    if d < n - 1 {
      assert Touch(Items(log[n - 1]), k).None?;
      GoneIdeal(log, k, d, n - 1);
    }
  }

  /** A row no delivered record passes stays; if none is delivered at all it stays too. */
  lemma {:induction false} RedoStays(log: seq<Payload>, snap: map<TxId, Envelope>, x: Option<Row>, k: Key, i: nat, j: nat)
    requires j <= |log|
    requires forall m :: i <= m < j && KeptTouch(log, snap, m, k).Some? ==> Absorb(x, KeptTouch(log, snap, m, k).value) == x
    ensures Redo(log, snap, x, k, i, j) == x
  {
    if i < j {
      RedoStays(log, snap, x, k, i, j - 1);
    }
  }

  /** Once written again a document stays, while no delete of it is delivered. */
  lemma {:induction false} RedoRevives(log: seq<Payload>, snap: map<TxId, Envelope>, x: Option<Row>, k: Key, i: nat, j: nat, m: nat)
    requires j <= |log| && i <= m < j && KeptTouch(log, snap, m, k).Some? && !KeptDelete(log, snap, k, i, j)
    ensures Redo(log, snap, x, k, i, j).Some?
  {
    ShorterSpan(log, snap, k, i, j - 1);
    if m < j - 1 {
      RedoRevives(log, snap, x, k, i, j - 1, m);
    }
  }

  /** While a document is not deleted its revision only rises. */
  lemma {:induction false} IdealRises(log: seq<Payload>, k: Key, i: nat, n: nat)
    requires LeaderLog(log) && i < n <= |log| && Touch(Items(log[i]), k).Some?
    requires forall m :: 0 <= m < n ==> !Deletes(log[m], k)
    ensures Ideal(log[..n], k).Some? && Ideal(log[..n], k).value.rev >= Touch(Items(log[i]), k).value.rev
  {
    hide *;
    RisesOrStays(log, k, n - 1);
    if i < n - 1 {
      IdealRises(log, k, i, n - 1);
    }
  }

  lemma RisesOrStays(log: seq<Payload>, k: Key, i: nat)
    requires LeaderLog(log) && i < |log| && !Deletes(log[i], k)
    ensures
      var before, after, e := Ideal(log[..i], k), Ideal(log[..i + 1], k), Touch(Items(log[i]), k);
      && (e.Some? ==> after.Some? && after.value.rev == e.value.rev)
      && (before.Some? ==> after.Some? && after.value.rev >= before.value.rev)
  {
    IdealStep(log, k, i);
    hide LeaderLog, Ideal, Touch;
    if Touch(Items(log[i]), k).Some? {
      RisesNew(log, k, i);
    }
  }

  lemma HarmlessFor(log: seq<Payload>, snap: map<TxId, Envelope>, k: Key, i: nat, j: nat)
    requires LeaderLog(log) && NoReuse(log) && i <= j <= |log|
    requires forall x, d :: !Revives(log, snap, k, i, j, x, d)
    ensures Redo(log, snap, Ideal(log[..j], k), k, i, j) == Ideal(log[..j], k)
  {
    var s := Ideal(log[..j], k);
    if d :| 0 <= d < j && Deletes(log[d], k) {
      GoneIdeal(log, k, d, j);
      DeadStays(log, snap, k, i, j, d);
    } else {
      forall m | i <= m < j && KeptTouch(log, snap, m, k).Some?
        ensures Absorb(s, KeptTouch(log, snap, m, k).value) == s
      {
        IdealRises(log, k, m, j);
      }
      RedoStays(log, snap, s, k, i, j);
    }
  }

  lemma DeadStays(log: seq<Payload>, snap: map<TxId, Envelope>, k: Key, i: nat, j: nat, d: nat)
    requires NoReuse(log) && i <= j <= |log| && d < j && Deletes(log[d], k)
    requires forall x :: !Revives(log, snap, k, i, j, x, d)
    ensures Redo(log, snap, None, k, i, j).None?
  {
    forall m | i <= m < j && d < m
      ensures KeptTouch(log, snap, m, k).None?
    {
      assert Touch(Items(log[m]), k).None?;
    }
    if i <= d && !Skipped(log, snap, d) {
      hide Touch;
      assert Redo(log, snap, None, k, i, d + 1).None?;
      RedoStays(log, snap, None, k, d + 1, j);
      RedoSplits(log, snap, None, k, i, d + 1, j);
    } else {
      forall m | i <= m < j
        ensures KeptTouch(log, snap, m, k).None?
      {
        assert !Revives(log, snap, k, i, j, m, d);
      }
      RedoStays(log, snap, None, k, i, j);
    }
  }

  lemma NotDeletedBefore(log: seq<Payload>, k: Key, i: nat, j: nat)
    requires NoReuse(log) && i < j < |log| && Touch(Items(log[j]), k).Some?
    ensures !Deletes(log[i], k)
  {
  }

  lemma RevivedFor(log: seq<Payload>, snap: map<TxId, Envelope>, k: Key, i: nat, j: nat, x: nat, d: nat)
    requires NoReuse(log) && Revives(log, snap, k, i, j, x, d)
    ensures Redo(log, snap, Ideal(log[..j], k), k, i, j) != Ideal(log[..j], k)
  {
    GoneIdeal(log, k, d, j);
    forall m | i <= m < j
      ensures KeptTouch(log, snap, m, k).Some? ==> !Deletes(log[m], k)
    {
      if m < d {
        NotDeletedBefore(log, k, m, d);
      }
      assert d < m ==> Touch(Items(log[m]), k).None?;
    }
    assert !KeptDelete(log, snap, k, i, j);
    hide Ideal, Touch;
    RedoRevives(log, snap, Ideal(log[..j], k), k, i, j, x);
  }

  /** With ids used once the overlap is harmless exactly if no such delete is skipped. */
  lemma HarmlessExactlyWhen(log: seq<Payload>, w: World)
    requires LeaderLog(log) && NoReuse(log) && Init(log, w)
    ensures OverlapHarmless(log, w) <==> forall k, x, d :: !Revives(log, w.n.snap, k, w.at, w.high, x, d)
  {
    hide Ideal, Redo, Revives, LeaderLog, NoReuse;
    if OverlapHarmless(log, w) {
      forall k, x, d
        ensures !Revives(log, w.n.snap, k, w.at, w.high, x, d)
      {
        if Revives(log, w.n.snap, k, w.at, w.high, x, d) {
          RevivedFor(log, w.n.snap, k, w.at, w.high, x, d);
        }
      }
    }
    if forall k, x, d :: !Revives(log, w.n.snap, k, w.at, w.high, x, d) {
      forall k
        ensures Redo(log, w.n.snap, Ideal(log[..w.high], k), k, w.at, w.high) == Ideal(log[..w.high], k)
      {
        HarmlessFor(log, w.n.snap, k, w.at, w.high);
      }
    }
  }

  // ----- runs that do not converge ---------------------------------------------------------------------------

  /** The failing input: an insert, then a transaction deleting it, and a snapshot that has both but starts before both. */
  lemma SnapshotOverlapDiverges(k: Key, d: Data, t: TxId)
    ensures
      var ins, del := Item(k.col, Entry(k.id, Insert, 1, d, 0, 0)), Item(k.col, Entry(k.id, Delete, 2, map[], 0, 0));
      var log := [One(ins), Whole(Envelope(t, [del]))];
      var w := World(Node(map[], map[], map[t := Envelope(t, [del])]), 0, 2, 0);
      LeaderLog(log) && NoReuse(log) && Init(log, w) && !AlwaysConverges(log, w)
  {
    var ins, del := Item(k.col, Entry(k.id, Insert, 1, d, 0, 0)), Item(k.col, Entry(k.id, Delete, 2, map[], 0, 0));
    var env := Envelope(t, [del]);
    var log := [One(ins), Whole(env)];
    var w := World(Node(map[], map[], map[t := env]), 0, 2, 0);
    TwoRecords(log, ins, del, env);
    assert forall k' :: RowOf(w.n.rows, k').None?;
    assert log[..2] == log;
    assert log[1] == Whole(w.n.snap[t]);
    assert LoggedAs(log, env, 2);
    hide LeaderLog, NoReuse, Ideal, Touch;
    ConvergesExactlyWhen(log, w);
    HarmlessExactlyWhen(log, w);
    assert Revives(log, w.n.snap, k, 0, 2, 0, 1);
  }

  lemma TwoRecords(log: seq<Payload>, ins: Item, del: Item, env: Envelope)
    requires KeyOf(ins) == KeyOf(del) && ins.entry.op.Insert? && ins.entry.rev == 1 && del.entry.op.Delete?
    requires env.ops == [del] && log == [One(ins), Whole(env)]
    ensures LeaderLog(log) && NoReuse(log)
    ensures Touch(Items(log[0]), KeyOf(ins)) == Some(ins.entry) && Deletes(log[1], KeyOf(ins))
    ensures forall k :: Ideal(log, k).None?
  {
    assert [ins][..0] == [] && [del][..0] == [];
    assert log[..1] == [One(ins)] && log[..0] == [];
    assert log[..1][..0] == [];
    forall k
      ensures Touch([ins], k) == if k == KeyOf(ins) then Some(ins.entry) else None
      ensures Touch([del], k) == if k == KeyOf(ins) then Some(del.entry) else None
    {
    }
    forall i, k | 0 <= i < |log|
      ensures RevRises(log, i, k)
    {
    }
    forall k
      ensures Ideal(log, k).None?
    {
      assert Items(log[1]) == [del] && Items(log[..1][0]) == [ins];
      assert Ideal(log[..1], k) == if k == KeyOf(ins) then Stepped(None, ins.entry) else None;
    }
  }

  /** Resuming below a bound transaction does not converge: the insert comes back, the transaction that deleted it is skipped. */
  lemma ResumeBelowBoundDiverges(k: Key, d: Data, t: TxId, n: Node, n': Node)
    requires n.rows == map[] && n.snap == map[] && n.bound == map[2 := Envelope(t, [Item(k.col, Entry(k.id, Delete, 2, map[], 0, 0))])]
    requires AbsorbsAll(n.rows, [Item(k.col, Entry(k.id, Insert, 1, d, 0, 0))], n'.rows) && n' == n.(rows := n'.rows)
    ensures
      var ins, del := Item(k.col, Entry(k.id, Insert, 1, d, 0, 0)), Item(k.col, Entry(k.id, Delete, 2, map[], 0, 0));
      var log := [One(ins), Whole(Envelope(t, [del]))];
      Ideal(log, k).None? && k in n'.rows && TxStep(n', 2, Envelope(t, [del]), n', Already)
  {
    var ins, del := Item(k.col, Entry(k.id, Insert, 1, d, 0, 0)), Item(k.col, Entry(k.id, Delete, 2, map[], 0, 0));
    assert [ins][..0] == [] && [del][..0] == [];
    assert Touch([ins], k) == Some(ins.entry) && Touch([del], k) == Some(del.entry);
    assert RowOf(n'.rows, k) == Absorb(None, ins.entry);
  }
}
