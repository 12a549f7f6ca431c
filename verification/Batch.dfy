/**
 The single-collection batch commit: all targets and unique values are checked first, then every
 operation is appended and applied, and a failure at any append or at the sync undoes everything.
 */
module Batch {
  import opened Values
  import opened Log
  import opened Query
  import opened SecondaryIndex
  import opened Scan

  datatype TxOp = TxOp(kind: Log.Op, id: nat, data: Data)

  // ----- what a batch means --------------------------------------------------------------------------------

  /** The line an operation appends, given the rows it finds. `deadline` is the default for new records. */
  function LineOf(rows: View, op: TxOp, deadline: int): Line {
    var cur := At(rows, op.id);
    match op.kind
    case Insert => Line(Entry(op.id, Insert, 1, op.data, deadline, 0), None)
    case Update => Line(Entry(op.id, Update, RevOf(cur) + 1, op.data, if cur.Some? then cur.value.expiresAt else 0, 0), None)
    case Delete => Line(Entry(op.id, Delete, 0, map[], 0, 0), None)
  }

  /** The lines of the first operations, each written against the rows its predecessors left. */
  function LinesOf(rows: View, ops: seq<TxOp>, deadline: int): seq<Line> {
    if ops == [] then []
    else
      var front := LinesOf(rows, ops[..|ops| - 1], deadline);
      front + [LineOf(Fold(rows, front, map[]), ops[|ops| - 1], deadline)]
  }

  function After(rows: View, ops: seq<TxOp>, deadline: int): View {
    Fold(rows, LinesOf(rows, ops, deadline), map[])
  }

  lemma AfterNext(rows: View, ops: seq<TxOp>, i: nat, deadline: int)
    requires i < |ops|
    ensures
      var line := LineOf(After(rows, ops[..i], deadline), ops[i], deadline);
      && LinesOf(rows, ops[..i + 1], deadline) == LinesOf(rows, ops[..i], deadline) + [line]
      && After(rows, ops[..i + 1], deadline) == ApplyOne(After(rows, ops[..i], deadline), line.entry)
  {
    assert ops[..i + 1][..i] == ops[..i];
    var front := LinesOf(rows, ops[..i], deadline);
    var line := LineOf(After(rows, ops[..i], deadline), ops[i], deadline);
    assert (front + [line])[..|front|] == front;
  }

  /** Inserts carry reserved ids: nobody has them yet. */
  ghost predicate InsertsFresh(rows: View, ops: seq<TxOp>) {
    forall i :: 0 <= i < |ops| && ops[i].kind.Insert? ==>
      ops[i].id !in rows && forall j :: 0 <= j < i ==> ops[j].id != ops[i].id
  }

  // ----- what a batch leaves of one record ---------------------------------------------------------------

  /** The last operation on a record. */
  function LastOp(ops: seq<TxOp>, id: nat): Option<TxOp> {
    if ops == [] then None
    else if ops[|ops| - 1].id == id then Some(ops[|ops| - 1])
    else LastOp(ops[..|ops| - 1], id)
  }

  /** The last insert or delete of a record. */
  function Reset(ops: seq<TxOp>, id: nat): Option<TxOp> {
    if ops == [] then None
    else if ops[|ops| - 1].id == id && !ops[|ops| - 1].kind.Update? then Some(ops[|ops| - 1])
    else Reset(ops[..|ops| - 1], id)
  }

  /** How often a record was updated since. */
  function Trail(ops: seq<TxOp>, id: nat): nat {
    if ops == [] then 0
    else if ops[|ops| - 1].id != id then Trail(ops[..|ops| - 1], id)
    else if ops[|ops| - 1].kind.Update? then Trail(ops[..|ops| - 1], id) + 1
    else 0
  }

  /**
   What a batch must leave of one record: nothing after a delete; else the data of the last operation, an update
   keeping the stored key of a keyed collection. Updates keep the deadline and raise the revision by one each, counted
   from the stored record, from revision 1 and the default deadline of an insert, or from nothing after a delete.
   */
  ghost predicate Leaves(was: Option<Row>, ops: seq<TxOp>, deadline: int, keyed: bool, id: nat, row: Option<Row>) {
    var last, reset := LastOp(ops, id), Reset(ops, id);
    if last.None? then row == was
    else if last.value.kind.Delete? then row.None?
    else
      && row.Some? && row.value.epoch == 0
      && (if last.value.kind.Insert? then row.value.data == last.value.data
          else KeepsKey(last.value.data, if keyed && was.Some? then was.value.data else map[], row.value.data))
      && row.value.rev == Trail(ops, id) + (if reset.None? then RevOf(was) else if reset.value.kind.Insert? then 1 else 0)
      && row.value.expiresAt ==
         if reset.None? then if was.Some? then was.value.expiresAt else 0 else if reset.value.kind.Insert? then deadline else 0
  }

  lemma {:induction false} NoneUntouched(ops: seq<TxOp>, id: nat)
    ensures LastOp(ops, id).None? <==> Untouched(ops, id)
    ensures LastOp(ops, id).None? ==> Reset(ops, id).None? && Trail(ops, id) == 0
    ensures LastOp(ops, id).Some? && LastOp(ops, id).value.kind.Delete? ==>
      Reset(ops, id).Some? && Reset(ops, id).value.kind.Delete? && Trail(ops, id) == 0
  {
    if ops != [] {
      var n := |ops| - 1;
      NoneUntouched(ops[..n], id);
      assert forall i :: 0 <= i < n ==> ops[..n][i] == ops[i];
    }
  }

  /** The row an exact replay leaves, before keys are kept. */
  function Left(was: Option<Row>, ops: seq<TxOp>, deadline: int, id: nat): Option<Row> {
    var last, reset := LastOp(ops, id), Reset(ops, id);
    if last.None? then was
    else if last.value.kind.Delete? then None
    else
      Some(Row(Trail(ops, id) + (if reset.None? then RevOf(was) else if reset.value.kind.Insert? then 1 else 0), last.value.data,
               if reset.None? then if was.Some? then was.value.expiresAt else 0 else if reset.value.kind.Insert? then deadline else 0, 0))
  }

  lemma LeftNext(was: Option<Row>, ops: seq<TxOp>, deadline: int, rows: View, id: nat)
    requires ops != [] && At(rows, id) == Left(was, ops[..|ops| - 1], deadline, id)
    requires ops[|ops| - 1].kind.Insert? && ops[|ops| - 1].id == id ==> At(rows, id).None?
    ensures At(ApplyOne(rows, LineOf(rows, ops[|ops| - 1], deadline).entry), id) == Left(was, ops, deadline, id)
  {
    var n := |ops| - 1;
    var front, op := ops[..n], ops[n];
    NoneUntouched(front, id);
    ApplyOneAt(rows, LineOf(rows, op, deadline).entry, id);
  }

  lemma {:induction false} BatchLeft(rows: View, ops: seq<TxOp>, deadline: int, id: nat)
    requires InsertsFresh(rows, ops)
    ensures At(After(rows, ops, deadline), id) == Left(At(rows, id), ops, deadline, id)
  {
    if ops != [] {
      var n := |ops| - 1;
      var front := ops[..n];
      assert InsertsFresh(rows, front);
      BatchLeft(rows, front, deadline, id);
      AfterNext(rows, ops, n, deadline);
      assert ops[..n + 1] == ops;
      if ops[n].kind.Insert? && ops[n].id == id {
        assert Untouched(front, id);
        NoneUntouched(front, id);
      }
      hide After, LineOf, ApplyOne, Left;
      LeftUntouched(At(rows, id), front, deadline, id);
      LeftNext(At(rows, id), ops, deadline, After(rows, front, deadline), id);
    }
  }

  lemma LeftUntouched(was: Option<Row>, ops: seq<TxOp>, deadline: int, id: nat)
    ensures LastOp(ops, id).None? ==> Left(was, ops, deadline, id) == was
  {
  }

  lemma {:induction false} KeyedLast(ops: seq<TxOp>, kept: seq<TxOp>, indexed: map<string, map<nat, Value>>, id: nat)
    requires |kept| == |ops| && forall i :: 0 <= i < |ops| ==> kept[i] == Keyed(ops[i], indexed)
    ensures LastOp(kept, id).Some? <==> LastOp(ops, id).Some?
    ensures LastOp(ops, id).Some? ==> LastOp(ops, id).value.id == id && LastOp(kept, id).value == Keyed(LastOp(ops, id).value, indexed)
    ensures Trail(kept, id) == Trail(ops, id) && (Reset(kept, id).Some? <==> Reset(ops, id).Some?)
    ensures Reset(ops, id).Some? ==> Reset(kept, id).value.kind == Reset(ops, id).value.kind
  {
    if ops != [] {
      var n := |ops| - 1;
      KeyedLast(ops[..n], kept[..n], indexed, id);
      assert kept[n] == Keyed(ops[n], indexed);
    }
  }

  lemma KeyedKeeps(op: TxOp, indexed: map<string, map<nat, Value>>, was: Option<Row>)
    requires op.kind.Update?
    requires KEY_FIELD in indexed ==>
      (op.id in indexed[KEY_FIELD] <==> was.Some? && KEY_FIELD in was.value.data && was.value.data[KEY_FIELD].Str?)
    requires KEY_FIELD in indexed && op.id in indexed[KEY_FIELD] ==> indexed[KEY_FIELD][op.id] == was.value.data[KEY_FIELD]
    ensures KeepsKey(op.data, if KEY_FIELD in indexed && was.Some? then was.value.data else map[], Keyed(op, indexed).data)
  {
    assert Keyed(op, indexed).data - {KEY_FIELD} == op.data - {KEY_FIELD};
  }

  lemma KeyedInsertsFresh(rows: View, ops: seq<TxOp>, indexed: map<string, map<nat, Value>>)
    requires InsertsFresh(rows, ops)
    ensures InsertsFresh(rows, KeyedAll(ops, indexed))
  {
    var kept := KeyedAll(ops, indexed);
    assert forall i :: 0 <= i < |ops| ==> kept[i].id == ops[i].id && kept[i].kind == ops[i].kind;
  }

  /** After a batch every record is what the batch must leave of it. */
  lemma BatchLeaves(rows: View, ops: seq<TxOp>, indexed: map<string, map<nat, Value>>, deadline: int, id: nat)
    requires InsertsFresh(rows, ops) && (KEY_FIELD in indexed ==> indexed[KEY_FIELD] == Indexed(rows, KEY_FIELD))
    ensures Leaves(At(rows, id), ops, deadline, KEY_FIELD in indexed, id, At(After(rows, KeyedAll(ops, indexed), deadline), id))
  {
    var kept := KeyedAll(ops, indexed);
    KeyedInsertsFresh(rows, ops, indexed);
    BatchLeft(rows, kept, deadline, id);
    KeyedLast(ops, kept, indexed, id);
    hide After, LastOp, Reset, Trail, KeepsKey;
    var last := LastOp(ops, id);
    if last.Some? && last.value.kind.Update? {
      KeyedKeeps(last.value, indexed, At(rows, id));
    }
  }

  // ----- unique values -------------------------------------------------------------------------------------

  /** The printed value an operation puts under a field. */
  function Claim(op: TxOp, field: string, c: Codec): Option<string> {
    if op.kind.Delete? || field !in op.data || !Accepts(field, op.data[field]) then None
    else Some(Render(op.data[field], c))
  }

  ghost predicate Holds(rows: View, id: nat, field: string, key: string, now: int, c: Codec) {
    && id in rows && !Expired(rows[id].expiresAt, now)
    && field in rows[id].data && Accepts(field, rows[id].data[field]) && Render(rows[id].data[field], c) == key
  }

  /** No two unexpired records hold one value of the field. */
  ghost predicate Unique(rows: View, field: string, now: int, c: Codec) {
    forall a, b, key :: Holds(rows, a, field, key, now, c) && Holds(rows, b, field, key, now, c) ==> a == b
  }

  /** An operation takes a value nobody else holds and no earlier operation took for another record. */
  ghost predicate ClaimFree(rows: View, ops: seq<TxOp>, i: nat, field: string, now: int, c: Codec)
    requires i < |ops|
  {
    var claim := Claim(ops[i], field, c);
    claim.Some? ==>
      && (forall other :: other != ops[i].id ==> !Holds(rows, other, field, claim.value, now, c))
      && (forall j :: 0 <= j < i && Claim(ops[j], field, c) == claim ==> ops[j].id == ops[i].id)
  }

  ghost predicate ClaimsFree(rows: View, ops: seq<TxOp>, fields: set<string>, now: int, c: Codec) {
    forall i, field :: 0 <= i < |ops| && field in fields ==> ClaimFree(rows, ops, i, field, now, c)
  }

  /** A record after the batch is one the batch left alone, or carries the data of one of its operations. */
  ghost predicate FromOp(row: Row, ops: seq<TxOp>, id: nat) {
    exists i :: 0 <= i < |ops| && ops[i].id == id && !ops[i].kind.Delete? && row.data == ops[i].data
  }

  ghost predicate Untouched(ops: seq<TxOp>, id: nat) {
    forall i :: 0 <= i < |ops| ==> ops[i].id != id
  }

  lemma {:induction false} Origin(rows: View, ops: seq<TxOp>, deadline: int, id: nat)
    ensures Untouched(ops, id) ==> At(After(rows, ops, deadline), id) == At(rows, id)
    ensures !Untouched(ops, id) && id in After(rows, ops, deadline) ==> FromOp(After(rows, ops, deadline)[id], ops, id)
  {
    if ops != [] {
      var n := |ops| - 1;
      var front := ops[..n];
      Origin(rows, front, deadline, id);
      AfterNext(rows, ops, n, deadline);
      assert ops[..n + 1] == ops;
      var was := After(rows, front, deadline);
      hide After;
      if ops[n].id == id {
        OriginHere(was, ops, deadline, id);
      } else {
        OriginElsewhere(was, ops, deadline, id);
      }
    }
  }

  lemma OriginHere(was: View, ops: seq<TxOp>, deadline: int, id: nat)
    requires ops != [] && ops[|ops| - 1].id == id
    ensures
      var rows := ApplyOne(was, LineOf(was, ops[|ops| - 1], deadline).entry);
      !Untouched(ops, id) && (id in rows ==> FromOp(rows[id], ops, id))
  {
    assert ops[|ops| - 1].id == id;
  }

  lemma OriginElsewhere(was: View, ops: seq<TxOp>, deadline: int, id: nat)
    requires ops != [] && ops[|ops| - 1].id != id
    requires !Untouched(ops[..|ops| - 1], id) && id in was ==> FromOp(was[id], ops[..|ops| - 1], id)
    ensures
      var rows := ApplyOne(was, LineOf(was, ops[|ops| - 1], deadline).entry);
      && At(rows, id) == At(was, id) && (Untouched(ops, id) <==> Untouched(ops[..|ops| - 1], id))
      && (!Untouched(ops, id) && id in rows ==> FromOp(rows[id], ops, id))
  {
    var n := |ops| - 1;
    var front := ops[..n];
    if id in was && !Untouched(front, id) {
      var i :| 0 <= i < n && front[i].id == id && !front[i].kind.Delete? && was[id].data == front[i].data;
      assert ops[i] == front[i];
    }
    assert forall i :: 0 <= i < n ==> front[i] == ops[i];
  }

  /** A value held after the batch was taken by an operation on its record, or held before by an untouched record. */
  lemma HeldAfter(rows: View, ops: seq<TxOp>, deadline: int, id: nat, field: string, key: string, now: int, later: int, c: Codec)
    requires Holds(After(rows, ops, deadline), id, field, key, later, c) && now <= later
    ensures if Untouched(ops, id) then Holds(rows, id, field, key, now, c)
            else exists i :: 0 <= i < |ops| && ops[i].id == id && Claim(ops[i], field, c) == Some(key)
  {
    Origin(rows, ops, deadline, id);
    var rows' := After(rows, ops, deadline);
    hide After;
    if Untouched(ops, id) {
      assert At(rows', id) == At(rows, id);
    } else {
      var i :| 0 <= i < |ops| && ops[i].id == id && !ops[i].kind.Delete? && rows'[id].data == ops[i].data;
      assert Claim(ops[i], field, c) == Some(key);
    }
  }

  /** After a checked batch no value of a unique field is held by two unexpired records, now or later. */
  lemma BatchKeepsUnique(rows: View, ops: seq<TxOp>, deadline: int, fields: set<string>, field: string, now: int, later: int, c: Codec)
    requires field in fields && Unique(rows, field, now, c) && ClaimsFree(rows, ops, fields, now, c) && now <= later
    ensures Unique(After(rows, ops, deadline), field, later, c)
  {
    var rows' := After(rows, ops, deadline);
    forall a, b, key | Holds(rows', a, field, key, later, c) && Holds(rows', b, field, key, later, c)
      ensures a == b
    {
      HeldAfter(rows, ops, deadline, a, field, key, now, later, c);
      HeldAfter(rows, ops, deadline, b, field, key, now, later, c);
      hide After, Holds, Claim;
      ClaimsMeet(rows, ops, fields, a, b, field, key, now, c);
    }
  }

  ghost predicate Taken(rows: View, ops: seq<TxOp>, id: nat, field: string, key: string, now: int, c: Codec) {
    if Untouched(ops, id) then Holds(rows, id, field, key, now, c)
    else exists i :: 0 <= i < |ops| && ops[i].id == id && Claim(ops[i], field, c) == Some(key)
  }

  /** A value taken by an operation on `id` was held by no other record. */
  lemma TakenAlone(rows: View, ops: seq<TxOp>, fields: set<string>, id: nat, field: string, key: string, now: int, c: Codec)
    requires field in fields && ClaimsFree(rows, ops, fields, now, c)
    requires Taken(rows, ops, id, field, key, now, c) && !Untouched(ops, id)
    ensures forall other :: Holds(rows, other, field, key, now, c) ==> other == id
    ensures forall j :: 0 <= j < |ops| && Claim(ops[j], field, c) == Some(key) ==> ops[j].id == id
  {
    hide Holds, Claim;
    var i :| 0 <= i < |ops| && ops[i].id == id && Claim(ops[i], field, c) == Some(key);
    assert ClaimFree(rows, ops, i, field, now, c);
    forall j | 0 <= j < |ops| && Claim(ops[j], field, c) == Some(key)
      ensures ops[j].id == id
    {
      assert ClaimFree(rows, ops, j, field, now, c);
    }
  }

  lemma ClaimsMeet(rows: View, ops: seq<TxOp>, fields: set<string>, a: nat, b: nat, field: string, key: string, now: int, c: Codec)
    requires field in fields && Unique(rows, field, now, c) && ClaimsFree(rows, ops, fields, now, c)
    requires Taken(rows, ops, a, field, key, now, c) && Taken(rows, ops, b, field, key, now, c)
    ensures a == b
  {
    hide Holds, Claim, ClaimsFree;
    if !Untouched(ops, a) {
      TakenAlone(rows, ops, fields, a, field, key, now, c);
    }
    if !Untouched(ops, b) {
      TakenAlone(rows, ops, fields, b, field, key, now, c);
    }
  }

  // ----- checking -------------------------------------------------------------------------------------------

  /** Whether another unexpired record holds the value; expired holders count as vacant. */
  method Conflict(rows: View, vals: map<nat, Value>, key: string, id: nat, field: string, now: int, c: Codec) returns (clash: bool)
    requires vals == Indexed(rows, field)
    ensures clash <==> exists other :: other != id && Holds(rows, other, field, key, now, c)
  {
    var rest := vals.Keys;
    while rest != {}
      invariant rest <= vals.Keys
      invariant forall other :: other in vals && other !in rest && other != id ==> !Holds(rows, other, field, key, now, c)
      decreases rest
    {
      var other :| other in rest;
      if other != id && Render(vals[other], c) == key && !Expired(rows[other].expiresAt, now) {
        assert Holds(rows, other, field, key, now, c);
        return true;
      }
      rest := rest - {other};
    }
    clash := false;
  }

  /** The values taken so far, by field and printed value. */
  ghost predicate Claims(claimed: map<(string, string), nat>, ops: seq<TxOp>, i: nat, field: string, c: Codec)
    requires i <= |ops|
  {
    forall key ::
      && (forall j :: 0 <= j < i && Claim(ops[j], field, c) == Some(key) ==> (field, key) in claimed && claimed[(field, key)] == ops[j].id)
      && ((field, key) in claimed ==> exists j :: 0 <= j < i && Claim(ops[j], field, c) == Some(key))
  }

  /** Checks one field over all operations. */
  method CheckField(rows: View, vals: map<nat, Value>, ops: seq<TxOp>, field: string, now: int, c: Codec) returns (ok: bool)
    requires vals == Indexed(rows, field)
    ensures ok <==> forall i :: 0 <= i < |ops| ==> ClaimFree(rows, ops, i, field, now, c)
  {
    hide Holds, Claim, Indexed;
    var claimed: map<(string, string), nat> := map[];
    for i := 0 to |ops|
      invariant forall k :: 0 <= k < i ==> ClaimFree(rows, ops, k, field, now, c)
      invariant Claims(claimed, ops, i, field, c)
    {
      var claim := Claim(ops[i], field, c);
      if claim.Some? {
        var key := claim.value;
        var clash := Conflict(rows, vals, key, ops[i].id, field, now, c);
        if clash || ((field, key) in claimed && claimed[(field, key)] != ops[i].id) {
          RefusedRightly(rows, ops, i, field, key, claimed, clash, now, c);
          return false;
        }
        claimed := claimed[(field, key) := ops[i].id];
      }
    }
    ok := true;
  }

  lemma RefusedRightly(rows: View, ops: seq<TxOp>, i: nat, field: string, key: string, claimed: map<(string, string), nat>, clash: bool,
                       now: int, c: Codec)
    requires i < |ops| && Claim(ops[i], field, c) == Some(key) && Claims(claimed, ops, i, field, c)
    requires clash <==> exists other :: other != ops[i].id && Holds(rows, other, field, key, now, c)
    requires clash || ((field, key) in claimed && claimed[(field, key)] != ops[i].id)
    ensures !ClaimFree(rows, ops, i, field, now, c)
  {
    hide Holds, Claim;
    if !clash {
      var j :| 0 <= j < i && Claim(ops[j], field, c) == Some(key);
      assert claimed[(field, key)] == ops[j].id;
    }
  }

  method CheckUnique(rows: View, indexed: map<string, map<nat, Value>>, ops: seq<TxOp>, fields: set<string>, now: int, c: Codec)
    returns (ok: bool)
    requires forall field :: field in fields ==> field in indexed && indexed[field] == Indexed(rows, field)
    ensures ok <==> ClaimsFree(rows, ops, fields, now, c)
  {
    var rest := fields;
    hide ClaimFree, Indexed;
    while rest != {}
      invariant rest <= fields
      invariant forall i, field :: 0 <= i < |ops| && field in fields - rest ==> ClaimFree(rows, ops, i, field, now, c)
      decreases rest
    {
      var field :| field in rest;
      var good := CheckField(rows, indexed[field], ops, field, now, c);
      if !good {
        return false;
      }
      rest := rest - {field};
    }
    ok := true;
  }

  method CheckTargets(rows: View, ops: seq<TxOp>) returns (ok: bool)
    ensures ok <==> forall i :: 0 <= i < |ops| && !ops[i].kind.Insert? ==> ops[i].id in rows
  {
    for i := 0 to |ops|
      invariant forall k :: 0 <= k < i && !ops[k].kind.Insert? ==> ops[k].id in rows
    {
      if !ops[i].kind.Insert? && ops[i].id !in rows {
        return false;
      }
    }
    ok := true;
  }

  // ----- the collection --------------------------------------------------------------------------------------

  /** What an operation does to the contents of one index. */
  function Filed(vals: map<nat, Value>, op: TxOp, field: string): map<nat, Value> {
    if op.kind.Delete? || field !in op.data || !Accepts(field, op.data[field]) then vals - {op.id}
    else vals[op.id := op.data[field]]
  }

  /** `Unrestored`: the segment and the rows were restored, the rebuild of the secondary indexes failed. */
  datatype Result = Ok | NoTarget | Duplicate | Failed | Unrestored | Fenced

  /** Which append fails, if any, whether the sync succeeds, and whether a rollback can cut the segment. */
  datatype Io = Io(failAt: nat, synced: bool, cut: bool)

  /** An update that does not set the caller-supplied key keeps the one its record is filed under. */
  function Keyed(op: TxOp, indexed: map<string, map<nat, Value>>): TxOp {
    if op.kind.Update? && KEY_FIELD !in op.data && KEY_FIELD in indexed && op.id in indexed[KEY_FIELD]
    then op.(data := op.data[KEY_FIELD := indexed[KEY_FIELD][op.id]]) else op
  }

  function KeyedAll(ops: seq<TxOp>, indexed: map<string, map<nat, Value>>): (r: seq<TxOp>)
    ensures |r| == |ops| && forall i :: 0 <= i < |ops| ==> r[i] == Keyed(ops[i], indexed)
  {
    seq(|ops|, i requires 0 <= i < |ops| => Keyed(ops[i], indexed))
  }

  lemma KeyedTouches(ops: seq<TxOp>, indexed: map<string, map<nat, Value>>, id: nat)
    ensures Untouched(KeyedAll(ops, indexed), id) <==> Untouched(ops, id)
  {
    var kept := KeyedAll(ops, indexed);
    assert forall i :: 0 <= i < |ops| ==> kept[i].id == ops[i].id;
  }

  /** Keeping keys takes no other value. */
  lemma KeyedClaims(rows: View, ops: seq<TxOp>, indexed: map<string, map<nat, Value>>, fields: set<string>, field: string, now: int, c: Codec)
    requires ClaimsFree(rows, ops, fields, now, c) && field in fields && field != KEY_FIELD
    ensures ClaimsFree(rows, KeyedAll(ops, indexed), {field}, now, c)
  {
    var kept := KeyedAll(ops, indexed);
    assert forall i :: 0 <= i < |ops| ==> Claim(kept[i], field, c) == Claim(ops[i], field, c) && kept[i].id == ops[i].id;
    hide Claim, Holds, Keyed;
    forall i | 0 <= i < |kept|
      ensures ClaimFree(rows, kept, i, field, now, c)
    {
      assert ClaimFree(rows, ops, i, field, now, c);
    }
  }

  /** How many operations are applied before the failure. */
  function Done(ops: seq<TxOp>, io: Io): (n: nat)
    ensures n <= |ops|
  {
    if io.failAt < |ops| then io.failAt else |ops|
  }

  class Collection {
    const codec: Codec
    /** The readable lines of the sealed segments, and of the active one. */
    const sealed: seq<Line>
    /** A sealed segment also has a line that a strict scan refuses; such a collection opens under the report policy. */
    const damaged: bool
    var active: seq<Line>
    var rows: View
    /** The contents of every secondary index, by field; the unique ones among them. */
    var indexed: map<string, map<nat, Value>>
    const unique: set<string>
    var fenced: bool

    /** The indexes are in step with the log, as the decisions show it. */
    ghost predicate Valid(dec: Decisions)
      reads this
    {
      && rows == Rebuilt(sealed + active, dec)
      && (forall field :: field in indexed ==> indexed[field] == Indexed(rows, field))
      && unique <= indexed.Keys
    }

    method Index(op: TxOp)
      modifies this`indexed
      ensures indexed.Keys == old(indexed.Keys)
      ensures forall field :: field in indexed ==> indexed[field] == Filed(old(indexed)[field], op, field)
    {
      indexed := map field | field in indexed :: Filed(indexed[field], op, field);
    }

    /** Appends and applies one operation. */
    method Apply(op: TxOp, deadline: int)
      requires forall field :: field in indexed ==> indexed[field] == Indexed(rows, field)
      modifies this`active, this`rows, this`indexed
      ensures active == old(active) + [LineOf(old(rows), op, deadline)]
      ensures rows == ApplyOne(old(rows), LineOf(old(rows), op, deadline).entry)
      ensures indexed.Keys == old(indexed.Keys) && forall field :: field in indexed ==> indexed[field] == Indexed(rows, field)
    {
      ghost var was := rows;
      var line: Line;
      match op.kind {
        case Insert => line := Line(Entry(op.id, Insert, 1, op.data, deadline, 0), None);
        case Update =>
          var newRev, exp := 1, 0;
          if op.id in rows {
            newRev, exp := rows[op.id].rev + 1, rows[op.id].expiresAt;
          }
          line := Line(Entry(op.id, Update, newRev, op.data, exp, 0), None);
        case Delete => line := Line(Entry(op.id, Delete, 0, map[], 0, 0), None);
      }
      active := active + [line];
      rows := ApplyOne(rows, line.entry);
      Index(op);
      forall field | field in indexed
        ensures indexed[field] == Indexed(rows, field)
      {
        IndexStep(was, op, deadline, field);
      }
    }

    /** The rows of the touched ids as they were before the batch. */
    method Remember(ops: seq<TxOp>) returns (before: map<nat, Option<Row>>)
      ensures forall id :: id in before <==> !Untouched(ops, id)
      ensures forall id :: id in before ==> before[id] == At(rows, id)
    {
      before := map[];
      for i := 0 to |ops|
        invariant forall id :: id in before <==> !Untouched(ops[..i], id)
        invariant forall id :: id in before ==> before[id] == At(rows, id)
      {
        assert ops[..i + 1] == ops[..i] + [ops[i]];
        TouchedNext(ops, i);
        if ops[i].id !in before {
          before := before[ops[i].id := At(rows, ops[i].id)];
        }
      }
      assert ops[..|ops|] == ops;
    }

    /** Cuts the segment back, restores the primary index and rebuilds the secondary ones from a strict scan of the log. */
    method Rollback(size: nat, before: map<nat, Option<Row>>, cut: bool, dec: Decisions, ghost rows0: View) returns (restored: bool)
      requires size <= |active| && rows0 == Rebuilt(sealed + active[..size], dec)
      requires forall id :: id in before ==> before[id] == At(rows0, id)
      requires forall id: nat :: id !in before ==> At(rows, id) == At(rows0, id)
      modifies this`active, this`rows, this`indexed, this`fenced
      ensures restored <==> cut && (!damaged || indexed == map[])
      ensures cut ==> active == old(active)[..size] && rows == rows0 && fenced == old(fenced) && indexed.Keys == old(indexed.Keys)
      ensures restored ==> forall field :: field in indexed ==> indexed[field] == Indexed(rows0, field)
      ensures cut && !restored ==> indexed == old(indexed)
      ensures !cut ==> fenced
    {
      if !cut {
        fenced := true;
        return false;
      }
      active := active[..size];
      var rest := before.Keys;
      while rest != {}
        invariant rest <= before.Keys && forall id: nat :: id !in rest ==> At(rows, id) == At(rows0, id)
        invariant indexed == old(indexed) && active == old(active)[..size] && fenced == old(fenced)
        decreases rest
      {
        var id :| id in rest;
        rows := if before[id].None? then rows - {id} else rows[id := before[id].value];
        rest := rest - {id};
      }
      ViewsEqual(rows, rows0);
      restored := !damaged || indexed == map[];
      if restored {
        indexed := map field | field in indexed :: Indexed(Rebuilt(sealed + active, dec), field);
      }
    }

    /** Stamps the kept keys into the updates. */
    method KeepKeys(ops: seq<TxOp>) returns (kept: seq<TxOp>)
      ensures kept == KeyedAll(ops, indexed)
    {
      kept := ops;
      for i := 0 to |ops|
        invariant |kept| == |ops| && forall j :: 0 <= j < |ops| ==> kept[j] == if j < i then Keyed(ops[j], indexed) else ops[j]
      {
        kept := kept[i := Keyed(kept[i], indexed)];
      }
    }

    method CommitTx(ops: seq<TxOp>, now: int, deadline: int, io: Io, dec: Decisions) returns (r: Result)
      requires Valid(dec) && InsertsFresh(rows, ops)
      modifies this
      ensures r.Ok? ==> Valid(dec) && rows == After(old(rows), KeyedAll(ops, old(indexed)), deadline)
      ensures r.Ok? ==> active == old(active) + LinesOf(old(rows), KeyedAll(ops, old(indexed)), deadline) && fenced == old(fenced)
      ensures r.Ok? ==> forall field, later ::
        field in unique && field != KEY_FIELD && now <= later && Unique(old(rows), field, now, codec) ==>
          Unique(rows, field, later, codec)
      ensures !r.Ok? && !r.Fenced? ==> active == old(active) && rows == old(rows) && fenced == old(fenced)
      ensures !r.Ok? && !r.Fenced? ==>
        (indexed == old(indexed) <==>
         !r.Unrestored? ||
         forall field :: field in old(indexed) ==> !Refiles(old(rows), KeyedAll(ops, old(indexed))[..Done(ops, io)], field))
      ensures r.Failed? || r.Unrestored? ==> (r.Unrestored? <==> damaged && old(indexed) != map[])
      ensures r.NoTarget? || r.Duplicate? || r.Failed? ==> Valid(dec)
      ensures r.Fenced? ==> fenced
      ensures r.Ok? ==> forall id: nat :: Leaves(At(old(rows), id), ops, deadline, KEY_FIELD in old(indexed), id, At(rows, id))
      ensures
        var open := !old(fenced);
        var targets := forall i :: 0 <= i < |ops| && !ops[i].kind.Insert? ==> ops[i].id in old(rows);
        var free := ClaimsFree(old(rows), ops, unique, now, codec);
        var written := io.failAt >= |ops| && io.synced;
        && (r.Ok? <==> open && targets && free && written)
        && (r.NoTarget? <==> open && !targets) && (r.Duplicate? <==> open && targets && !free)
        && (r.Fenced? <==> !open || (targets && free && !written && !io.cut))
    {
      if fenced {
        return Fenced;
      }
      var size := |active|;
      assert active[..size] == active;
      var before := Remember(ops);
      var targets := CheckTargets(rows, ops);
      if !targets {
        return NoTarget;
      }
      var free := CheckUnique(rows, indexed, ops, unique, now, codec);
      if !free {
        return Duplicate;
      }
      var kept := KeepKeys(ops);
      ghost var rows0, active0 := rows, active;
      var done := ApplyAll(kept, deadline, io, dec);
      if done < |kept| || !io.synced {
        forall id
          ensures Untouched(kept, id) <==> Untouched(ops, id)
        {
          KeyedTouches(ops, old(indexed), id);
        }
        Restorable(rows0, kept, done, deadline, before);
        ghost var left := indexed;
        var restored := Rollback(size, before, io.cut, dec, rows0);
        SameIndexes(old(indexed), rows0, left, kept[..done], deadline, indexed, restored, io.cut);
        return if restored then Failed else if io.cut then Unrestored else Fenced;
      }
      assert kept[..|kept|] == kept;
      BatchLogged(sealed, active0, rows0, kept, deadline, dec);
      forall id: nat
        ensures Leaves(At(rows0, id), ops, deadline, KEY_FIELD in old(indexed), id, At(rows, id))
      {
        BatchLeaves(rows0, ops, old(indexed), deadline, id);
      }
      hide Leaves;
      forall field, later | field in unique && field != KEY_FIELD && now <= later && Unique(rows0, field, now, codec)
        ensures Unique(rows, field, later, codec)
      {
        KeyedClaims(rows0, ops, old(indexed), unique, field, now, codec);
        BatchKeepsUnique(rows0, kept, deadline, {field}, field, now, later, codec);
      }
      r := Result.Ok;
    }

    /** Applies the operations up to the first failing append. */
    method ApplyAll(ops: seq<TxOp>, deadline: int, io: Io, ghost dec: Decisions) returns (done: nat)
      requires Valid(dec)
      modifies this`active, this`rows, this`indexed
      ensures done == Done(ops, io)
      ensures rows == After(old(rows), ops[..done], deadline) && active == old(active) + LinesOf(old(rows), ops[..done], deadline)
      ensures indexed.Keys == old(indexed.Keys) && forall field :: field in indexed ==> indexed[field] == Indexed(rows, field)
    {
      done := 0;
      assert LinesOf(rows, ops[..0], deadline) == [];
      while done < |ops| && done != io.failAt
        invariant done <= |ops| && (io.failAt < |ops| ==> done <= io.failAt)
        invariant rows == After(old(rows), ops[..done], deadline)
        invariant active == old(active) + LinesOf(old(rows), ops[..done], deadline)
        invariant indexed.Keys == old(indexed.Keys) && forall field :: field in indexed ==> indexed[field] == Indexed(rows, field)
      {
        AfterNext(old(rows), ops, done, deadline);
        Apply(ops[done], deadline);
        done := done + 1;
      }
    }
  }

  lemma IndexStep(was: View, op: TxOp, deadline: int, field: string)
    ensures Indexed(ApplyOne(was, LineOf(was, op, deadline).entry), field) == Filed(Indexed(was, field), op, field)
  {
  }

  lemma TouchedNext(ops: seq<TxOp>, i: nat)
    requires i < |ops|
    ensures forall id :: Untouched(ops[..i + 1], id) <==> Untouched(ops[..i], id) && ops[i].id != id
  {
    assert ops[..i + 1][i] == ops[i];
    assert forall k :: 0 <= k < i ==> ops[..i + 1][k] == ops[..i][k];
  }

  /** Only touched rows changed, so restoring those restores everything. */
  lemma Restorable(rows: View, ops: seq<TxOp>, done: nat, deadline: int, before: map<nat, Option<Row>>)
    requires done <= |ops| && forall id :: id in before <==> !Untouched(ops, id)
    ensures forall id: nat :: id !in before ==> At(After(rows, ops[..done], deadline), id) == At(rows, id)
  {
    forall id: nat | id !in before
      ensures At(After(rows, ops[..done], deadline), id) == At(rows, id)
    {
      assert Untouched(ops[..done], id);
      Origin(rows, ops[..done], deadline, id);
    }
  }

  // ----- what a failed rebuild leaves ----------------------------------------------------------------------

  function ValueIn(rows: View, id: nat, field: string): Option<Value> {
    if id in rows && field in rows[id].data && Accepts(field, rows[id].data[field]) then Some(rows[id].data[field]) else None
  }

  /** What the last operation on a record files under a field. */
  function LastFiled(ops: seq<TxOp>, id: nat, field: string): Option<Value> {
    if ops == [] then None
    else
      var op := ops[|ops| - 1];
      if op.id != id then LastFiled(ops[..|ops| - 1], id, field)
      else if op.kind.Delete? || field !in op.data || !Accepts(field, op.data[field]) then None
      else Some(op.data[field])
  }

  /** Some touched record is filed differently than before. */
  ghost predicate Refiles(rows: View, ops: seq<TxOp>, field: string) {
    exists id: nat :: !Untouched(ops, id) && LastFiled(ops, id, field) != ValueIn(rows, id, field)
  }

  lemma {:induction false} ValueAfter(rows: View, ops: seq<TxOp>, deadline: int, id: nat, field: string)
    ensures ValueIn(After(rows, ops, deadline), id, field) ==
      if Untouched(ops, id) then ValueIn(rows, id, field) else LastFiled(ops, id, field)
  {
    if ops != [] {
      var n := |ops| - 1;
      ValueAfter(rows, ops[..n], deadline, id, field);
      AfterNext(rows, ops, n, deadline);
      assert ops[..n + 1] == ops;
      TouchedNext(ops, n);
      hide After;
      ValueStep(After(rows, ops[..n], deadline), ops[n], deadline, id, field);
    }
  }

  lemma ValueStep(was: View, op: TxOp, deadline: int, id: nat, field: string)
    ensures ValueIn(ApplyOne(was, LineOf(was, op, deadline).entry), id, field) ==
      if op.id == id then LastFiled([op], id, field) else ValueIn(was, id, field)
  {
  }

  lemma IndexedByValue(rows: View, rows': View, field: string)
    ensures Indexed(rows, field) == Indexed(rows', field) <==> forall id: nat :: ValueIn(rows, id, field) == ValueIn(rows', id, field)
  {
    var a, b := Indexed(rows, field), Indexed(rows', field);
    assert forall id: nat :: ValueIn(rows, id, field) == if id in a then Some(a[id]) else None;
    assert forall id: nat :: ValueIn(rows', id, field) == if id in b then Some(b[id]) else None;
    if forall id: nat :: ValueIn(rows, id, field) == ValueIn(rows', id, field) {
      assert forall id: nat :: id in a ==> ValueIn(rows, id, field) == Some(a[id]);
      assert forall id: nat :: id in b ==> ValueIn(rows', id, field) == Some(b[id]);
      assert a == b;
    }
  }

  /** The contents of an index after a batch are those before it exactly if no touched record is filed differently. */
  lemma IndexKeptExactlyWhen(rows: View, ops: seq<TxOp>, deadline: int, field: string)
    ensures Indexed(After(rows, ops, deadline), field) == Indexed(rows, field) <==> !Refiles(rows, ops, field)
  {
    hide After, ValueIn, LastFiled, Indexed;
    IndexedByValue(After(rows, ops, deadline), rows, field);
    forall id: nat
      ensures ValueIn(After(rows, ops, deadline), id, field) ==
        if Untouched(ops, id) then ValueIn(rows, id, field) else LastFiled(ops, id, field)
    {
      ValueAfter(rows, ops, deadline, id, field);
    }
  }

  lemma SameIndexes(before: map<string, map<nat, Value>>, rows: View, left: map<string, map<nat, Value>>, ops: seq<TxOp>, deadline: int,
                    after: map<string, map<nat, Value>>, restored: bool, cut: bool)
    requires left.Keys == before.Keys && (cut ==> after.Keys == left.Keys) && (restored ==> cut)
    requires forall field :: field in before ==> before[field] == Indexed(rows, field)
    requires forall field :: field in left ==> left[field] == Indexed(After(rows, ops, deadline), field)
    requires restored ==> forall field :: field in after ==> after[field] == Indexed(rows, field)
    requires cut && !restored ==> after == left
    ensures restored ==> after == before
    ensures cut && !restored ==> (after == before <==> forall field :: field in before ==> !Refiles(rows, ops, field))
  {
    hide Indexed, After, Refiles;
    forall field | field in before
      ensures left[field] == before[field] <==> !Refiles(rows, ops, field)
    {
      IndexKeptExactlyWhen(rows, ops, deadline, field);
    }
    if forall field :: field in before ==> !Refiles(rows, ops, field) {
      assert left == before;
    }
  }

  /** The failing input: an update is applied, the next append fails, and the index of a damaged collection keeps the updated value. */
  lemma RolledBackValueStays(id: nat, other: nat, field: string, a: Value, b: Value, deadline: int)
    requires a != b && Accepts(field, a) && Accepts(field, b)
    ensures
      var rows := map[id := Row(1, map[field := a], 0, 0)];
      var ops := [TxOp(Update, id, map[field := b]), TxOp(Insert, other, map[])];
      && Done(ops, Io(1, true, true)) == 1 && Refiles(rows, ops[..1], field)
      && Indexed(rows, field) == map[id := a] && Indexed(After(rows, ops[..1], deadline), field) == map[id := b]
  {
    hide *;
    var rows := map[id := Row(1, map[field := a], 0, 0)];
    var first := TxOp(Update, id, map[field := b]);
    var ops := [first, TxOp(Insert, other, map[])];
    assert ops[..1] == [first];
    FirstOnly(ops);
    OneUpdateRefiles(rows, first, field, a, b);
    OneIndexed(rows, id, field, a);
    forall x: nat
      ensures ValueIn(After(rows, [first], deadline), x, field) == if x == id then Some(b) else None
    {
      ValueAfter(rows, [first], deadline, x, field);
      OneUpdateFiles(rows, first, field, a, b, x);
    }
    IndexedOne(After(rows, [first], deadline), id, field, b);
  }

  lemma FirstOnly(ops: seq<TxOp>)
    requires |ops| > 1
    ensures Done(ops, Io(1, true, true)) == 1
  {
  }

  lemma OneUpdateFiles(rows: View, op: TxOp, field: string, a: Value, b: Value, x: nat)
    requires rows == map[op.id := Row(1, map[field := a], 0, 0)] && op.kind.Update? && op.data == map[field := b] && Accepts(field, b)
    ensures Untouched([op], x) <==> x != op.id
    ensures LastFiled([op], op.id, field) == Some(b)
    ensures x != op.id ==> ValueIn(rows, x, field) == None
  {
    assert [op][0].id == op.id;
  }

  lemma OneUpdateRefiles(rows: View, op: TxOp, field: string, a: Value, b: Value)
    requires rows == map[op.id := Row(1, map[field := a], 0, 0)] && op.kind.Update? && op.data == map[field := b]
    requires a != b && Accepts(field, a) && Accepts(field, b)
    ensures Refiles(rows, [op], field)
  {
    hide LastFiled, Untouched, Accepts;
    OneUpdateFiles(rows, op, field, a, b, op.id);
    assert ValueIn(rows, op.id, field) == Some(a);
  }

  lemma OneIndexed(rows: View, id: nat, field: string, a: Value)
    requires rows == map[id := Row(1, map[field := a], 0, 0)] && Accepts(field, a)
    ensures Indexed(rows, field) == map[id := a]
  {
  }

  lemma IndexedOne(rows: View, id: nat, field: string, b: Value)
    requires forall x: nat :: ValueIn(rows, x, field) == if x == id then Some(b) else None
    ensures Indexed(rows, field) == map[id := b]
  {
    assert ValueIn(rows, id, field) == Some(b);
    forall x: nat | x in Indexed(rows, field)
      ensures x == id && Indexed(rows, field)[x] == b
    {
      assert ValueIn(rows, x, field).Some?;
    }
  }

  lemma {:induction false} PlainFold(rows: View, lines: seq<Line>, dec: Decisions)
    requires forall i :: 0 <= i < |lines| ==> lines[i].tx.None?
    ensures Fold(rows, lines, dec) == Fold(rows, lines, map[])
  {
    if lines != [] {
      PlainFold(rows, lines[..|lines| - 1], dec);
    }
  }

  lemma {:induction false} LinesPlain(rows: View, ops: seq<TxOp>, deadline: int)
    ensures forall i :: 0 <= i < |LinesOf(rows, ops, deadline)| ==> LinesOf(rows, ops, deadline)[i].tx.None?
  {
    if ops != [] {
      LinesPlain(rows, ops[..|ops| - 1], deadline);
    }
  }

  lemma BatchLogged(sealed: seq<Line>, active: seq<Line>, rows: View, ops: seq<TxOp>, deadline: int, dec: Decisions)
    requires rows == Rebuilt(sealed + active, dec)
    ensures After(rows, ops, deadline) == Rebuilt(sealed + (active + LinesOf(rows, ops, deadline)), dec)
  {
    var lines := LinesOf(rows, ops, deadline);
    hide LinesOf;
    LinesPlain(rows, ops, deadline);
    PlainFold(rows, lines, dec);
    FoldConcat(map[], sealed + active, lines, dec);
    assert (sealed + active) + lines == sealed + (active + lines);
  }
}
