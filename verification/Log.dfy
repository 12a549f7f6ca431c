/**
 The meaning of a collection's log: a left fold of its lines under the
 coordinator's decision table. Every other module is built on `Fold`.
 */
module Log {
  import opened Values

  datatype Op = Insert | Update | Delete

  /** A coordinator transaction id: the journal epoch and a sequence number. */
  datatype TxId = TxId(epoch: string, seqNo: nat)

  /** Position `i` of `n` in one participant's run of transaction `t`. */
  datatype Stamp = Stamp(t: TxId, i: nat, n: nat)

  datatype Entry = Entry(id: nat, op: Op, rev: nat, data: Data, expiresAt: int, epoch: nat)

  datatype Line = Line(entry: Entry, tx: Option<Stamp>)

  datatype Outcome = Commit | Abort

  datatype Decision = Decision(outcome: Outcome, retired: bool)

  /** An absent table and an empty one behave alike: no stamped line is visible. */
  type Decisions = map<TxId, Decision>

  predicate Committed(dec: Decisions, t: TxId) {
    t in dec && dec[t].outcome.Commit?
  }

  predicate Aborted(dec: Decisions, t: TxId) {
    t in dec && dec[t].outcome.Abort?
  }

  /** A plain line is always visible; a stamped one only once committed. */
  predicate EntryVisible(tx: Option<Stamp>, dec: Decisions) {
    tx.None? || Committed(dec, tx.value.t)
  }

  /** A zero deadline never expires. */
  predicate Expired(deadline: int, now: int) {
    deadline != 0 && now >= deadline
  }

  datatype Row = Row(rev: nat, data: Data, expiresAt: int, epoch: nat)

  type View = map<nat, Row>

  function Max(a: nat, b: nat): nat {
    if a < b then b else a
  }

  function At(v: View, id: nat): Option<Row> {
    if id in v then Some(v[id]) else None
  }

  function RevOf(r: Option<Row>): nat {
    if r.Some? then r.value.rev else 0
  }

  /** The row an entry leaves behind, given the row it found. */
  function Stepped(r: Option<Row>, e: Entry): Option<Row> {
    if e.op.Delete? then None
    else Some(Row(Max(RevOf(r) + 1, e.rev), e.data, e.expiresAt, e.epoch))
  }

  function ApplyOne(v: View, e: Entry): View {
    match Stepped(At(v, e.id), e)
    case None => v - {e.id}
    case Some(row) => v[e.id := row]
  }

  function ApplyLine(v: View, l: Line, dec: Decisions): View {
    if EntryVisible(l.tx, dec) then ApplyOne(v, l.entry) else v
  }

  /** Replays a log onto a view; last writer wins. */
  function Fold(v: View, log: seq<Line>, dec: Decisions): View {
    if |log| == 0 then v
    else ApplyLine(Fold(v, log[..|log| - 1], dec), log[|log| - 1], dec)
  }

  function Rebuilt(log: seq<Line>, dec: Decisions): View {
    Fold(map[], log, dec)
  }

  /** What a reader at time `now` sees of a view. */
  function Live(v: View, now: int): View {
    map id | id in v && !Expired(v[id].expiresAt, now) :: v[id]
  }

  /** A reader sees a record exactly if it has no deadline or its deadline lies ahead, and then as the view holds it. */
  lemma LiveExactly(v: View, now: int, id: nat)
    ensures id in Live(v, now) <==> id in v && (v[id].expiresAt == 0 || now < v[id].expiresAt)
    ensures id in Live(v, now) ==> Live(v, now)[id] == v[id]
  {
  }

  // ----- per-record view of a log ---------------------------------------------

  /** The visible entries of `log` that touch record `id`, in log order. */
  function Touching(log: seq<Line>, dec: Decisions, id: nat): seq<Entry> {
    if |log| == 0 then []
    else
      var front, l := Touching(log[..|log| - 1], dec, id), log[|log| - 1];
      if l.entry.id == id && EntryVisible(l.tx, dec) then front + [l.entry] else front
  }

  function RowAfter(r: Option<Row>, es: seq<Entry>): Option<Row> {
    if |es| == 0 then r
    else Stepped(RowAfter(r, es[..|es| - 1]), es[|es| - 1])
  }

  lemma ApplyOneAt(v: View, e: Entry, id: nat)
    ensures At(ApplyOne(v, e), id) == if e.id == id then Stepped(At(v, id), e) else At(v, id)
  {
  }

  /** Records do not interact: a row depends only on the lines that touch it. */
  lemma {:induction false} FoldPerId(v: View, log: seq<Line>, dec: Decisions, id: nat)
    ensures At(Fold(v, log, dec), id) == RowAfter(At(v, id), Touching(log, dec, id))
  {
    if |log| > 0 {
      var front, l := log[..|log| - 1], log[|log| - 1];
      FoldPerId(v, front, dec, id);
      var es := Touching(front, dec, id);
      if EntryVisible(l.tx, dec) {
        ApplyOneAt(Fold(v, front, dec), l.entry, id);
        if l.entry.id == id {
          assert (es + [l.entry])[..|es|] == es;
        }
      }
    }
  }

  lemma ViewsEqual(v: View, w: View)
    requires forall id: nat :: At(v, id) == At(w, id)
    ensures v == w
  {
    forall id: nat
      ensures id in v <==> id in w
      ensures id in v ==> v[id] == w[id]
    {
      assert At(v, id) == At(w, id);
    }
  }

  lemma {:induction false} FoldConcat(v: View, a: seq<Line>, b: seq<Line>, dec: Decisions)
    ensures Fold(v, a + b, dec) == Fold(Fold(v, a, dec), b, dec)
  {
    if |b| == 0 {
      assert a + b == a;
    } else {
      FoldConcat(v, a, b[..|b| - 1], dec);
      assert (a + b)[..|a + b| - 1] == a + b[..|b| - 1];
    }
  }

  lemma {:induction false} TouchingConcat(a: seq<Line>, b: seq<Line>, dec: Decisions, id: nat)
    ensures Touching(a + b, dec, id) == Touching(a, dec, id) + Touching(b, dec, id)
  {
    if |b| == 0 {
      assert a + b == a;
    } else {
      TouchingConcat(a, b[..|b| - 1], dec, id);
      assert (a + b)[..|a + b| - 1] == a + b[..|b| - 1];
    }
  }

  /**
   The last visible line of a record has the last word on it: a delete leaves nothing, any other line leaves its
   data, deadline and epoch, at a revision above the one it found and not below its own.
   */
  lemma {:induction false} LastWordShows(log: seq<Line>, dec: Decisions, p: nat)
    requires p < |log| && EntryVisible(log[p].tx, dec)
    requires forall q :: p < q < |log| && log[q].entry.id == log[p].entry.id ==> !EntryVisible(log[q].tx, dec)
    ensures
      var e, before, row := log[p].entry, Rebuilt(log[..p], dec), At(Rebuilt(log, dec), log[p].entry.id);
      && (e.op.Delete? <==> row.None?)
      && (!e.op.Delete? ==> row.value.data == e.data && row.value.expiresAt == e.expiresAt && row.value.epoch == e.epoch)
      && (!e.op.Delete? ==> row.value.rev >= e.rev && row.value.rev > RevOf(At(before, e.id)))
      && (!e.op.Delete? ==> row.value.rev == e.rev || row.value.rev == RevOf(At(before, e.id)) + 1)
  {
    var n := |log| - 1;
    var front := log[..n];
    if p < n {
      assert front[..p] == log[..p];
      LastWordShows(front, dec, p);
    }
  }

  /** Two logs with the same per-record histories mean the same, whatever their order. */
  lemma SameHistoriesSameMeaning(v: View, a: seq<Line>, b: seq<Line>, dec: Decisions)
    requires forall id: nat :: Touching(a, dec, id) == Touching(b, dec, id)
    ensures Fold(v, a, dec) == Fold(v, b, dec)
  {
    forall id: nat
      ensures At(Fold(v, a, dec), id) == At(Fold(v, b, dec), id)
    {
      FoldPerId(v, a, dec, id);
      FoldPerId(v, b, dec, id);
    }
    ViewsEqual(Fold(v, a, dec), Fold(v, b, dec));
  }
}
