/**
 A follower: applying a leader's records in LSN order, idempotently by revision and each
 transaction once.
 */
module Follower {
  import opened Values
  import opened Log
  import opened Replication

  datatype Key = Key(col: string, id: nat)

  function KeyOf(i: Item): Key {
    Key(i.col, i.entry.id)
  }

  /** What a list of operations does to one document, if anything. */
  function Touch(ops: seq<Item>, k: Key): Option<Entry> {
    if ops == [] then None
    else if KeyOf(ops[|ops| - 1]) == k then Some(ops[|ops| - 1].entry)
    else Touch(ops[..|ops| - 1], k)
  }

  // ----- what the leader means -------------------------------------------------------------------------

  /** A document after a prefix of the leader's log. */
  function Ideal(log: seq<Payload>, k: Key): Option<Row> {
    if log == [] then None
    else
      var n := |log| - 1;
      var e := Touch(Items(log[n]), k);
      if e.None? then Ideal(log[..n], k) else Stepped(Ideal(log[..n], k), e.value)
  }

  ghost predicate DistinctDocs(ops: seq<Item>) {
    forall i, j :: 0 <= i < j < |ops| ==> KeyOf(ops[i]) != KeyOf(ops[j])
  }

  ghost predicate RevRises(log: seq<Payload>, i: nat, k: Key)
    requires i < |log|
  {
    var e := Touch(Items(log[i]), k);
    e.Some? && !e.value.op.Delete? ==> e.value.rev > RevOf(Ideal(log[..i], k))
  }

  /** A leader's log: revisions rise while a document lives, a transaction names a document once and is logged once. */
  ghost predicate LeaderLog(log: seq<Payload>) {
    && (forall i, k :: 0 <= i < |log| ==> RevRises(log, i, k))
    && (forall i :: 0 <= i < |log| ==> DistinctDocs(Items(log[i])))
    && (forall i, j :: 0 <= i < j < |log| && log[i].Whole? && log[j].Whole? ==> log[i].tx.txid != log[j].tx.txid)
  }

  // ----- what the follower does ------------------------------------------------------------------------

  /** An effect already present, by revision or absence, is skipped. */
  predicate Present(r: Option<Row>, e: Entry) {
    if e.op.Delete? then r.None? else r.Some? && r.value.rev >= e.rev
  }

  function Absorb(r: Option<Row>, e: Entry): Option<Row> {
    if e.op.Delete? then None
    else if Present(r, e) then r
    else Some(Row(e.rev, e.data, e.expiresAt, e.epoch))
  }

  /** `bound` are the transactions applied here, by LSN; `snap` those a bootstrap snapshot brought along. */
  datatype Node = Node(rows: map<Key, Row>, bound: map<nat, Envelope>, snap: map<TxId, Envelope>)

  function RowOf(rows: map<Key, Row>, k: Key): Option<Row> {
    if k in rows then Some(rows[k]) else None
  }

  /** Every operation of a list absorbed by its own document. */
  ghost predicate AbsorbsAll(rows: map<Key, Row>, ops: seq<Item>, rows': map<Key, Row>) {
    forall k :: RowOf(rows', k) == if Touch(ops, k).Some? then Absorb(RowOf(rows, k), Touch(ops, k).value) else RowOf(rows, k)
  }

  datatype Result = Applied | Already | Diverged

  predicate Bound(bound: map<nat, Envelope>, lsn: nat, txid: TxId) {
    lsn in bound || exists l :: l in bound && bound[l].txid == txid
  }

  /** What the participant lists of a journal record say of a transaction: not its data. */
  function Shape(ops: seq<Item>): seq<(string, nat, Op, nat)> {
    seq(|ops|, i requires 0 <= i < |ops| => (ops[i].col, ops[i].entry.id, ops[i].entry.op, ops[i].entry.rev))
  }

  /** The lists name the same documents in the same order, with the same operations at the same revisions. */
  ghost predicate SameParticipants(a: seq<Item>, b: seq<Item>) {
    && |a| == |b|
    && forall i :: 0 <= i < |a| ==>
         && a[i].col == b[i].col && a[i].entry.id == b[i].entry.id
         && a[i].entry.op == b[i].entry.op && a[i].entry.rev == b[i].entry.rev
  }

  lemma ShapeTells(a: seq<Item>, b: seq<Item>)
    ensures Shape(a) == Shape(b) <==> SameParticipants(a, b)
  {
    if Shape(a) == Shape(b) {
      assert |Shape(a)| == |a| && |Shape(b)| == |b|;
      forall i | 0 <= i < |a|
        ensures a[i].col == b[i].col && a[i].entry.id == b[i].entry.id && a[i].entry.op == b[i].entry.op && a[i].entry.rev == b[i].entry.rev
      {
        assert Shape(a)[i] == Shape(b)[i];
      }
    }
  }

  /** How a delivered transaction is answered. */
  ghost function Answer(n: Node, lsn: nat, env: Envelope): Result {
    if lsn in n.bound then if n.bound[lsn] == env then Already else Diverged
    else if Bound(n.bound, lsn, env.txid) then Diverged
    else if env.txid in n.snap then if Shape(n.snap[env.txid].ops) == Shape(env.ops) then Already else Diverged
    else if AllPresent(n.rows, env.ops) then Already else Applied
  }

  ghost predicate AllPresent(rows: map<Key, Row>, ops: seq<Item>) {
    forall i :: 0 <= i < |ops| ==> Present(RowOf(rows, KeyOf(ops[i])), ops[i].entry)
  }

  ghost predicate TxStep(n: Node, lsn: nat, env: Envelope, n': Node, r: Result) {
    && r == Answer(n, lsn, env)
    && (if r.Applied? then
          AbsorbsAll(n.rows, env.ops, n'.rows) && n'.bound == n.bound[lsn := env] && n'.snap == n.snap
        else n' == n)
  }

  lemma {:induction false} TouchAt(ops: seq<Item>, i: nat)
    requires DistinctDocs(ops) && i < |ops|
    ensures Touch(ops, KeyOf(ops[i])) == Some(ops[i].entry)
  {
    if i < |ops| - 1 {
      TouchAt(ops[..|ops| - 1], i);
    }
  }

  lemma {:induction false} TouchFrom(ops: seq<Item>, k: Key)
    ensures Touch(ops, k).Some? ==> exists i :: 0 <= i < |ops| && KeyOf(ops[i]) == k && ops[i].entry == Touch(ops, k).value
  {
    if ops != [] && KeyOf(ops[|ops| - 1]) != k {
      TouchFrom(ops[..|ops| - 1], k);
    }
  }

  class Replica {
    var rows: map<Key, Row>
    var bound: map<nat, Envelope>
    var snap: map<TxId, Envelope>
    var appliedLsn: nat

    function Value(): Node
      reads this
    {
      Node(rows, bound, snap)
    }

    constructor (rows: map<Key, Row>, bound: map<nat, Envelope>, snap: map<TxId, Envelope>, at: nat)
      ensures Value() == Node(rows, bound, snap) && appliedLsn == at
    {
      this.rows, this.bound, this.snap, appliedLsn := rows, bound, snap, at;
    }

    method Put(item: Item)
      modifies this`rows
      ensures
        var e, k := item.entry, Key(item.col, item.entry.id);
        rows == if e.op.Delete? then old(rows) - {k} else old(rows)[k := Row(e.rev, e.data, e.expiresAt, e.epoch)]
    {
      var e, k := item.entry, Key(item.col, item.entry.id);
      if e.op.Delete? {
        rows := rows - {k};
      } else {
        rows := rows[k := Row(e.rev, e.data, e.expiresAt, e.epoch)];
      }
    }

    /** Applies a single replicated entry. */
    method ApplyEntry(item: Item)
      modifies this`rows
      ensures AbsorbsAll(old(rows), [item], rows)
    {
      var e, k := item.entry, KeyOf(item);
      assert [item][..0] == [];
      if e.op.Delete? && k !in rows {
        return;
      }
      if !e.op.Delete? && k in rows && rows[k].rev >= e.rev {
        return;
      }
      Put(item);
    }

    /** The transaction already bound to an LSN or carrying this id. */
    method FindBound(lsn: nat, txid: TxId) returns (found: Option<(nat, Envelope)>)
      ensures found.Some? <==> Bound(bound, lsn, txid)
      ensures found.Some? ==> found.value.0 in bound && bound[found.value.0] == found.value.1
      ensures found.Some? && lsn in bound ==> found.value.0 == lsn
    {
      if lsn in bound {
        return Some((lsn, bound[lsn]));
      }
      var rest := bound.Keys;
      while rest != {}
        invariant rest <= bound.Keys && forall l :: l in bound && l !in rest ==> bound[l].txid != txid
        decreases rest
      {
        var l :| l in rest;
        if bound[l].txid == txid {
          return Some((l, bound[l]));
        }
        rest := rest - {l};
      }
      found := None;
    }

    /** The operations whose effect is not there yet. */
    method Missing(ops: seq<Item>) returns (todo: seq<Item>)
      ensures todo == [] <==> AllPresent(rows, ops)
      ensures DistinctDocs(ops) ==> DistinctDocs(todo)
      ensures forall x :: x in todo <==> x in ops && !Present(RowOf(rows, KeyOf(x)), x.entry)
    {
      todo := [];
      for i := 0 to |ops|
        invariant todo == [] <==> AllPresent(rows, ops[..i])
        invariant forall x :: x in todo <==> x in ops[..i] && !Present(RowOf(rows, KeyOf(x)), x.entry)
        invariant DistinctDocs(ops) ==> DistinctDocs(todo)
      {
        assert ops[..i + 1] == ops[..i] + [ops[i]];
        var cur := if KeyOf(ops[i]) in rows then Some(rows[KeyOf(ops[i])]) else None;
        if !Present(cur, ops[i].entry) {
          if DistinctDocs(ops) {
            DistinctNext(ops, i, todo);
          }
          todo := todo + [ops[i]];
        }
      }
      assert ops[..|ops|] == ops;
    }

    /** Applies a replicated transaction whole, once. */
    method ApplyTx(lsn: nat, env: Envelope) returns (r: Result)
      requires DistinctDocs(env.ops)
      modifies this
      ensures TxStep(old(Value()), lsn, env, Value(), r)
      ensures appliedLsn == if r.Diverged? || lsn <= old(appliedLsn) then old(appliedLsn) else lsn
    {
      r := Decide(lsn, env);
      if r.Diverged? {
        return;
      }
      if r.Applied? {
        var todo := Missing(env.ops);
        ghost var before := rows;
        for i := 0 to |todo|
          invariant bound == old(bound) && snap == old(snap) && appliedLsn == old(appliedLsn)
          invariant forall k :: RowOf(rows, k) == if Touch(todo[..i], k).Some? then Absorb(RowOf(before, k), Touch(todo[..i], k).value) else RowOf(before, k)
        {
          assert todo[..i + 1][..i] == todo[..i];
          NotYet(todo, i);
          assert todo[i] in todo;
          Put(todo[i]);
        }
        assert todo[..|todo|] == todo;
        MissingIsEnough(before, env.ops, todo);
        bound := bound[lsn := env];
      }
      if lsn > appliedLsn {
        appliedLsn := lsn;
      }
    }

    method Decide(lsn: nat, env: Envelope) returns (r: Result)
      ensures r == Answer(Value(), lsn, env)
      ensures !Bound(bound, lsn, env.txid) && env.txid in snap ==> (r.Already? <==> SameParticipants(snap[env.txid].ops, env.ops))
      ensures !Bound(bound, lsn, env.txid) && env.txid in snap ==> (r.Diverged? <==> !SameParticipants(snap[env.txid].ops, env.ops))
    {
      if env.txid in snap {
        ShapeTells(snap[env.txid].ops, env.ops);
      }
      var found := FindBound(lsn, env.txid);
      if found.Some? {
        return if found.value == (lsn, env) then Already else Diverged;
      }
      if env.txid in snap {
        return if Shape(snap[env.txid].ops) == Shape(env.ops) then Already else Diverged;
      }
      var todo := Missing(env.ops);
      r := if todo == [] then Already else Applied;
    }

    /** After a crash the applied LSN is at least the highest one a transaction was bound to. */
    method Reopen(persisted: nat)
      modifies this`appliedLsn
      ensures appliedLsn >= persisted && (forall l :: l in bound ==> l <= appliedLsn)
      ensures appliedLsn == persisted || appliedLsn in bound
    {
      var max := 0;
      var rest := bound.Keys;
      while rest != {}
        invariant rest <= bound.Keys && (max == 0 || max in bound)
        invariant forall l :: l in bound && l !in rest ==> l <= max
        decreases rest
      {
        var l :| l in rest;
        if l > max {
          max := l;
        }
        rest := rest - {l};
      }
      appliedLsn := if max > persisted then max else persisted;
    }
  }

  lemma DistinctNext(ops: seq<Item>, i: nat, todo: seq<Item>)
    requires DistinctDocs(ops) && i < |ops| && DistinctDocs(todo) && forall x :: x in todo ==> x in ops[..i]
    ensures DistinctDocs(todo + [ops[i]])
  {
    forall j | 0 <= j < |todo|
      ensures KeyOf(todo[j]) != KeyOf(ops[i])
    {
      assert todo[j] in ops[..i];
      var m :| 0 <= m < i && ops[..i][m] == todo[j];
      assert ops[m] == todo[j];
    }
  }

  lemma NotYet(todo: seq<Item>, i: nat)
    requires DistinctDocs(todo) && i < |todo|
    ensures Touch(todo[..i], KeyOf(todo[i])).None?
  {
    TouchFrom(todo[..i], KeyOf(todo[i]));
    forall j | 0 <= j < i
      ensures KeyOf(todo[..i][j]) != KeyOf(todo[i])
    {
      assert KeyOf(todo[j]) != KeyOf(todo[i]);
    }
  }

  /** Leaving out what is already there changes nothing. */
  lemma MissingIsEnough(rows: map<Key, Row>, ops: seq<Item>, todo: seq<Item>)
    requires DistinctDocs(ops) && DistinctDocs(todo)
    requires forall x :: x in todo <==> x in ops && !Present(RowOf(rows, KeyOf(x)), x.entry)
    ensures forall k ::
      (if Touch(todo, k).Some? then Absorb(RowOf(rows, k), Touch(todo, k).value) else RowOf(rows, k)) ==
      (if Touch(ops, k).Some? then Absorb(RowOf(rows, k), Touch(ops, k).value) else RowOf(rows, k))
  {
    forall k
      ensures (if Touch(todo, k).Some? then Absorb(RowOf(rows, k), Touch(todo, k).value) else RowOf(rows, k)) ==
              (if Touch(ops, k).Some? then Absorb(RowOf(rows, k), Touch(ops, k).value) else RowOf(rows, k))
    {
      TouchPart(ops, todo, k);
      TouchFrom(ops, k);
      if Touch(ops, k).Some? && Touch(todo, k).None? {
        var i :| 0 <= i < |ops| && KeyOf(ops[i]) == k && ops[i].entry == Touch(ops, k).value;
        assert ops[i] in ops;
        Untouched(todo, k);
      }
    }
  }

  lemma {:induction false} Untouched(ops: seq<Item>, k: Key)
    requires Touch(ops, k).None?
    ensures forall x :: x in ops ==> KeyOf(x) != k
  {
    if ops != [] {
      Untouched(ops[..|ops| - 1], k);
      assert ops == ops[..|ops| - 1] + [ops[|ops| - 1]];
    }
  }

  /** Part of a list touches a document as the whole list does. */
  lemma TouchPart(ops: seq<Item>, part: seq<Item>, k: Key)
    requires DistinctDocs(ops) && forall x :: x in part ==> x in ops
    ensures Touch(part, k).Some? ==> Touch(ops, k) == Touch(part, k)
  {
    TouchFrom(part, k);
    if Touch(part, k).Some? {
      var j :| 0 <= j < |part| && KeyOf(part[j]) == k && part[j].entry == Touch(part, k).value;
      assert part[j] in part;
      var m :| 0 <= m < |ops| && ops[m] == part[j];
      TouchAt(ops, m);
    }
  }
}
