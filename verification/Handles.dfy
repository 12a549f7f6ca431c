/**
 Optimistic transaction handles: staging and folding writes, recording point
 observations, and validating them at commit against concurrent writers.
 */
module Handles {
  import opened Values
  import opened Log
  import opened SecondaryIndex

  const MAX_OPS := 1000

  datatype Key = Key(col: string, id: nat)

  /** One staged operation as the caller gives it; inserts carry no id. */
  datatype Request = Request(col: string, op: Op, id: nat, data: Data, expectedRev: nat, expiresAt: int)

  /** The net operation a handle holds for a document, with the revision it is based on. */
  datatype Write = Write(op: Op, data: Data, base: nat, expiresAt: int)

  /** What the handle saw of a stored document. */
  datatype Obs = Obs(present: bool, rev: nat, write: bool)

  datatype Phase = Open | Deciding | Done | Failed | RolledBack | TimedOut | InDoubt | Closed

  datatype Fault = NotParticipant | NoCollection | Invalid | ReservedField | Finished | TooLarge | NotFound | Conflict

  datatype Result<T> = Ok(value: T) | Err(fault: Fault)

  /** The stored rows of every collection, its id counter, and the clock. */
  datatype Db = Db(rows: map<Key, Row>, next: map<string, nat>, now: int)

  function LiveAt(db: Db, k: Key): Option<Row> {
    if k in db.rows && !Expired(db.rows[k].expiresAt, db.now) then Some(db.rows[k]) else None
  }

  /** The value of a handle object. */
  datatype Handle = Handle(parts: set<string>, phase: Phase, writes: map<Key, Write>, order: seq<Key>, observed: map<Key, Obs>)

  /** A final phase keeps neither writes nor reads. */
  function Finish(h: Handle, p: Phase): Handle {
    h.(phase := p, writes := map[], order := [], observed := map[])
  }

  function Observe(h: Handle, db: Db, k: Key): Handle {
    if k in h.observed then h
    else h.(observed := h.observed[k := Obs(LiveAt(db, k).Some?, RevOf(LiveAt(db, k)), false)])
  }

  // ----- staging ---------------------------------------------------------------------------------------

  predicate WellShaped(r: Request) {
    if r.op.Insert? then r.id == 0 && r.expectedRev == 0 else r.id != 0
  }

  /** What is refused before the handle is looked at. */
  function Refused(h: Handle, db: Db, r: Request): Option<Fault> {
    if r.col !in h.parts then Some(NotParticipant)
    else if r.col !in db.next then Some(NoCollection)
    else if !WellShaped(r) then Some(Invalid)
    else if !r.op.Delete? && KEY_FIELD in r.data then Some(ReservedField)
    else None
  }

  /** An operation folded into the write already staged for its document; none when they cancel out. */
  function Folded(w: Write, r: Request): Result<Option<Write>> {
    match w.op
    case Delete => Err(NotFound)
    case Insert =>
      if r.expectedRev != 0 then Err(Conflict)
      else if r.op.Delete? then Ok(None)
      else Ok(Some(w.(data := r.data, expiresAt := if r.expiresAt != 0 then r.expiresAt else w.expiresAt)))
    case Update =>
      if r.expectedRev != 0 && r.expectedRev != w.base then Err(Conflict)
      else Ok(Some(Write(r.op, if r.op.Delete? then map[] else r.data, w.base, r.expiresAt)))
  }

  datatype Staged = Staged(h: Handle, next: map<string, nat>, result: Result<nat>)

  function StageInsert(h: Handle, db: Db, r: Request): Staged
    requires r.col in db.next
  {
    if |h.writes| >= MAX_OPS then Staged(h, db.next, Err(TooLarge))
    else
      var id := db.next[r.col] + 1;
      var k := Key(r.col, id);
      Staged(h.(writes := h.writes[k := Write(Insert, r.data, 0, r.expiresAt)], order := h.order + [k]),
             db.next[r.col := id], Ok(id))
  }

  function StageFold(h: Handle, db: Db, r: Request): Staged
    requires Key(r.col, r.id) in h.writes
  {
    var k := Key(r.col, r.id);
    match Folded(h.writes[k], r)
    case Err(f) => Staged(h, db.next, Err(f))
    case Ok(None) => Staged(h.(writes := h.writes - {k}), db.next, Ok(r.id))
    case Ok(Some(w)) => Staged(h.(writes := h.writes[k := w]), db.next, Ok(r.id))
  }

  /** The first write to a stored document takes its base from what the handle saw. */
  function StageFirst(h: Handle, db: Db, r: Request): Staged {
    var k := Key(r.col, r.id);
    var h1 := Observe(h, db, k);
    var obs := h1.observed[k];
    if !obs.present then Staged(h1, db.next, Err(NotFound))
    else if r.expectedRev != 0 && r.expectedRev != obs.rev then Staged(h1, db.next, Err(Conflict))
    else if |h.writes| >= MAX_OPS then Staged(h1, db.next, Err(TooLarge))
    else
      Staged(h1.(writes := h.writes[k := Write(r.op, if r.op.Delete? then map[] else r.data, obs.rev, r.expiresAt)],
                 order := h.order + [k], observed := h1.observed[k := obs.(write := true)]),
             db.next, Ok(r.id))
  }

  /** The handle once its time limits are applied. */
  function Timed(h: Handle, late: bool): Handle {
    if h.phase.Open? && late then Finish(h, TimedOut) else h
  }

  function Stage(h: Handle, db: Db, r: Request, late: bool): Staged {
    if Refused(h, db, r).Some? then Staged(h, db.next, Err(Refused(h, db, r).value))
    else
      var h1 := Timed(h, late);
      if !h1.phase.Open? then Staged(h1, db.next, Err(Finished))
      else if r.op.Insert? then StageInsert(h1, db, r)
      else if Key(r.col, r.id) in h1.writes then StageFold(h1, db, r)
      else StageFirst(h1, db, r)
  }

  /**
   A refused operation on an open handle changes the handle exactly if it got as far as looking at a document the
   handle had neither written nor seen: that observation stays, and the commit will check it.
   */
  lemma RefusedStageObserves(h: Handle, db: Db, r: Request)
    requires h.phase.Open? && Stage(h, db, r, false).result.Err?
    ensures
      var k := Key(r.col, r.id);
      var out := Stage(h, db, r, false);
      && (out.h != h <==> Refused(h, db, r).None? && !r.op.Insert? && k !in h.writes && k !in h.observed)
      && (out.h != h ==> out.h == h.(observed := h.observed[k := Obs(LiveAt(db, k).Some?, RevOf(LiveAt(db, k)), false)]))
  {
  }

  /** The failing input: an update of a document that is not there leaves its absence among the reads to validate. */
  lemma MissingTargetIsObserved(col: string, id: nat, data: Data, now: int)
    requires id > 0 && KEY_FIELD !in data
    ensures
      var h := Handle({col}, Open, map[], [], map[]);
      var db := Db(map[], map[col := 0], now);
      var out := Stage(h, db, Request(col, Update, id, data, 0, 0), false);
      out.result == Err(NotFound) && out.h.observed == map[Key(col, id) := Obs(false, 0, false)] && out.h != h
  {
    var h := Handle({col}, Open, map[], [], map[]);
    var db := Db(map[], map[col := 0], now);
    RefusedStageObserves(h, db, Request(col, Update, id, data, 0, 0));
  }

  /** What reading the staged document gives next: its data, or nothing once it is staged to go. */
  ghost predicate ReadsBack(h: Handle, out: Staged, db: Db, r: Request) {
    out.result.Ok? &&
    var k := Key(r.col, out.result.value);
    var got := Get(out.h, db.(next := out.next), k, false);
    && (!r.op.Delete? ==> got.result.Ok? && got.result.value.1 == r.data)
    && (k in out.h.writes ==> got.h == out.h && (r.op.Delete? ==> got.result == Err(NotFound)))
    && (k !in out.h.writes <==> k in h.writes && h.writes[k].op.Insert? && r.op.Delete?)
  }

  lemma InsertIsRead(h: Handle, db: Db, r: Request)
    requires h.phase.Open? && r.col in h.parts && r.col in db.next && r.op.Insert? && StageInsert(h, db, r).result.Ok?
    ensures ReadsBack(h, StageInsert(h, db, r), db, r)
  {
  }

  lemma FoldIsRead(h: Handle, db: Db, r: Request)
    requires h.phase.Open? && r.col in h.parts && r.col in db.next && !r.op.Insert? && Key(r.col, r.id) in h.writes
    requires StageFold(h, db, r).result.Ok?
    ensures ReadsBack(h, StageFold(h, db, r), db, r)
  {
    var k := Key(r.col, r.id);
    assert k !in h.writes - {k};
  }

  lemma FirstIsRead(h: Handle, db: Db, r: Request)
    requires h.phase.Open? && r.col in h.parts && r.col in db.next && !r.op.Insert? && Key(r.col, r.id) !in h.writes
    requires StageFirst(h, db, r).result.Ok?
    ensures ReadsBack(h, StageFirst(h, db, r), db, r)
  {
  }

  /** Read your writes: a staged operation is what the handle reads next, and only deleting an own insert leaves no write. */
  lemma StagedIsRead(h: Handle, db: Db, r: Request)
    requires Stage(h, db, r, false).result.Ok?
    ensures ReadsBack(h, Stage(h, db, r, false), db, r)
  {
    hide ReadsBack, StageInsert, StageFold, StageFirst;
    if r.op.Insert? {
      InsertIsRead(h, db, r);
    } else if Key(r.col, r.id) in h.writes {
      FoldIsRead(h, db, r);
    } else {
      FirstIsRead(h, db, r);
    }
  }

  // ----- reading ---------------------------------------------------------------------------------------

  datatype Got = Got(h: Handle, result: Result<(nat, Data)>)

  /** A point read: own staged writes first, then the stored document, repeatably. */
  function Get(h: Handle, db: Db, k: Key, late: bool): Got {
    if k.col !in h.parts then Got(h, Err(NotParticipant))
    else if k.col !in db.next then Got(h, Err(NoCollection))
    else
      var h1 := Timed(h, late);
      if !h1.phase.Open? then Got(h1, Err(Finished))
      else if k in h1.writes then
        Got(h1, if h1.writes[k].op.Delete? then Err(NotFound) else Ok((h1.writes[k].base, h1.writes[k].data)))
      else
        var row := LiveAt(db, k);
        if k in h1.observed && (h1.observed[k].present != row.Some? || h1.observed[k].rev != RevOf(row)) then
          Got(h1, Err(Conflict))
        else
          Got(Observe(h1, db, k), if row.None? then Err(NotFound) else Ok((row.value.rev, row.value.data)))
  }

  // ----- committing ------------------------------------------------------------------------------------

  /** Every observation still holds. */
  ghost predicate ReadsHold(observed: map<Key, Obs>, db: Db) {
    forall k :: k in observed ==> observed[k].present == LiveAt(db, k).Some? && observed[k].rev == RevOf(LiveAt(db, k))
  }

  /** An update keeps the record's caller-supplied key. */
  function Preserved(data: Data, was: Data): Data {
    if KEY_FIELD in was && was[KEY_FIELD].Str? && KEY_FIELD !in data then data[KEY_FIELD := was[KEY_FIELD]] else data
  }

  lemma PreservedKeeps(data: Data, was: Data)
    ensures KeepsKey(data, was, Preserved(data, was))
    ensures forall kept :: KeepsKey(data, was, kept) ==> kept == Preserved(data, was)
  {
    var p := Preserved(data, was);
    assert p - {KEY_FIELD} == data - {KEY_FIELD};
    forall kept: Data | KeepsKey(data, was, kept)
      ensures kept == p
    {
      forall f: string
        ensures f in kept <==> f in p
        ensures f in kept ==> kept[f] == p[f]
      {
        if f != KEY_FIELD {
          assert f in kept <==> f in kept - {KEY_FIELD};
          assert f in kept ==> (kept - {KEY_FIELD})[f] == kept[f];
          assert f in p <==> f in p - {KEY_FIELD};
          assert f in p ==> (p - {KEY_FIELD})[f] == p[f];
        }
      }
    }
  }

  /** Update and delete targets are live at the revision the write is based on. */
  predicate TargetOk(db: Db, k: Key, w: Write) {
    w.op.Insert? || (LiveAt(db, k).Some? && (w.base != 0 ==> LiveAt(db, k).value.rev == w.base))
  }

  /** The row one net write leaves. `ttl` is the default deadline of a collection at the commit's instant. */
  function Written(row: Option<Row>, k: Key, w: Write, ttl: string -> int): Option<Row> {
    match w.op
    case Insert => Some(Row(1, w.data, if w.expiresAt != 0 then w.expiresAt else ttl(k.col), 0))
    case Update =>
      if row.None? then None
      else
        var r := row.value;
        Some(Row(r.rev + 1, Preserved(w.data, r.data), if w.expiresAt != 0 then w.expiresAt else r.expiresAt, 0))
    case Delete => None
  }

  function RowAt(rows: map<Key, Row>, k: Key): Option<Row> {
    if k in rows then Some(rows[k]) else None
  }

  function Put(rows: map<Key, Row>, k: Key, row: Option<Row>): map<Key, Row> {
    if row.None? then rows - {k} else rows[k := row.value]
  }

  /**
   What one net write must leave: an insert its data at revision 1 with its own or the default deadline; an update of a
   stored row its data and the row's caller-supplied key, one revision up, with its own or the stored deadline; a
   delete nothing.
   */
  ghost predicate Leaves(row: Option<Row>, k: Key, w: Write, ttl: string -> int, row': Option<Row>) {
    && (row'.Some? <==> w.op.Insert? || (w.op.Update? && row.Some?))
    && (row'.Some? ==> row'.value.epoch == 0)
    && (w.op.Insert? ==>
          && row'.value.rev == 1 && row'.value.data == w.data
          && row'.value.expiresAt == if w.expiresAt != 0 then w.expiresAt else ttl(k.col))
    && (w.op.Update? && row.Some? ==>
          && row'.value.rev == row.value.rev + 1 && KeepsKey(w.data, row.value.data, row'.value.data)
          && row'.value.expiresAt == if w.expiresAt != 0 then w.expiresAt else row.value.expiresAt)
  }

  lemma LeavesWritten(row: Option<Row>, k: Key, w: Write, ttl: string -> int)
    ensures Leaves(row, k, w, ttl, Written(row, k, w, ttl))
    ensures forall row' :: Leaves(row, k, w, ttl, row') ==> row' == Written(row, k, w, ttl)
  {
    if w.op.Update? && row.Some? {
      PreservedKeeps(w.data, row.value.data);
    }
  }

  /** Every write has left what it must of its own document, and nothing else has changed. */
  ghost predicate AppliesAll(rows: map<Key, Row>, writes: map<Key, Write>, ttl: string -> int, rows': map<Key, Row>) {
    forall k ::
      if k in writes then Leaves(RowAt(rows, k), k, writes[k], ttl, RowAt(rows', k)) else RowAt(rows', k) == RowAt(rows, k)
  }

  lemma AppliesOne(rows: map<Key, Row>, done: map<Key, Write>, ttl: string -> int, rows': map<Key, Row>, k: Key, w: Write)
    requires AppliesAll(rows, done, ttl, rows') && k !in done
    ensures AppliesAll(rows, done[k := w], ttl, Put(rows', k, Written(RowAt(rows', k), k, w, ttl)))
  {
    var row := RowAt(rows', k);
    LeavesWritten(row, k, w, ttl);
    hide Leaves, Written;
    var rows2 := Put(rows', k, Written(row, k, w, ttl));
    forall x: Key
      ensures if x in done[k := w] then Leaves(RowAt(rows, x), x, done[k := w][x], ttl, RowAt(rows2, x))
              else RowAt(rows2, x) == RowAt(rows, x)
    {
      if x != k {
        assert RowAt(rows2, x) == RowAt(rows', x);
      } else {
        assert row == RowAt(rows, k);
      }
    }
  }

  /** Checks the recorded observations one by one. */
  method ValidateReads(checks: seq<(Key, Obs)>, db: Db) returns (ok: bool)
    ensures ok <==> forall i :: 0 <= i < |checks| ==>
      var row := LiveAt(db, checks[i].0);
      checks[i].1.present == row.Some? && checks[i].1.rev == RevOf(row)
  {
    for i := 0 to |checks|
      invariant forall j :: 0 <= j < i ==>
        var row := LiveAt(db, checks[j].0);
        checks[j].1.present == row.Some? && checks[j].1.rev == RevOf(row)
    {
      var row := LiveAt(db, checks[i].0);
      if row.Some? != checks[i].1.present || RevOf(row) != checks[i].1.rev {
        return false;
      }
    }
    ok := true;
  }

  ghost predicate EachKeyOnce(order: seq<Key>) {
    forall i, j :: 0 <= i < j < |order| ==> order[i] != order[j]
  }

  /** Checks the targets and applies the staged writes in staging order. */
  method ApplyWrites(order: seq<Key>, writes: map<Key, Write>, db: Db, ttl: string -> int) returns (rows: map<Key, Row>, ok: bool)
    requires EachKeyOnce(order) && forall k :: k in writes ==> k in order
    ensures ok <==> forall k :: k in writes && !writes[k].op.Insert? ==>
      && k in db.rows && (db.rows[k].expiresAt == 0 || db.now < db.rows[k].expiresAt)
      && (writes[k].base != 0 ==> db.rows[k].rev == writes[k].base)
    ensures ok ==> AppliesAll(db.rows, writes, ttl, rows)
    ensures !ok ==> rows == db.rows
  {
    rows := db.rows;
    ghost var applied: map<Key, Write> := map[];
    for i := 0 to |order|
      invariant forall k :: k in applied <==> k in writes && k in order[..i]
      invariant forall k :: k in applied ==> applied[k] == writes[k] && TargetOk(db, k, writes[k])
      invariant AppliesAll(db.rows, applied, ttl, rows)
    {
      var k := order[i];
      assert order[..i + 1] == order[..i] + [k];
      assert k !in order[..i];
      if k in writes {
        if !TargetOk(db, k, writes[k]) {
          return db.rows, false;
        }
        AppliesOne(db.rows, applied, ttl, rows, k, writes[k]);
        rows := Put(rows, k, Written(RowAt(rows, k), k, writes[k], ttl));
        applied := applied[k := writes[k]];
      }
    }
    assert order[..|order|] == order;
    assert applied == writes;
    ok := true;
  }

  // ----- the handle object -------------------------------------------------------------------------------

  /** How the coordinator answered: go ahead, refused, cancelled while waiting for locks, in doubt, or replayed by key. */
  datatype Answer = Proceed | Refuse | Cancel | Doubt | Replay

  /** The staged keys that still carry a write, in staging order. */
  function Ops(order: seq<Key>, writes: map<Key, Write>): seq<Key> {
    if order == [] then []
    else
      var n := |order| - 1;
      Ops(order[..n], writes) + if order[n] in writes then [order[n]] else []
  }

  lemma {:induction false} OpsMembers(order: seq<Key>, writes: map<Key, Write>)
    ensures forall k :: k in Ops(order, writes) <==> k in order && k in writes
  {
    if order != [] {
      OpsMembers(order[..|order| - 1], writes);
      assert order == order[..|order| - 1] + [order[|order| - 1]];
    }
  }

  class XTx {
    const parts: set<string>
    var phase: Phase
    var writes: map<Key, Write>
    var order: seq<Key>
    var observed: map<Key, Obs>

    function Value(): Handle
      reads this
    {
      Handle(parts, phase, writes, order, observed)
    }

    ghost predicate Valid()
      reads this
    {
      forall k :: k in writes ==> k in order
    }

    constructor (parts: set<string>)
      ensures Valid() && Value() == Handle(parts, Open, map[], [], map[])
    {
      this.parts := parts;
      phase, writes, order, observed := Open, map[], [], map[];
    }

    method EndAs(p: Phase)
      modifies this
      ensures Valid() && Value() == Finish(old(Value()), p)
    {
      phase, writes, order, observed := p, map[], [], map[];
    }

    method ObserveDoc(db: Db, k: Key) returns (obs: Obs)
      requires Valid()
      modifies this`observed
      ensures Value() == Observe(old(Value()), db, k) && obs == observed[k] && Valid()
    {
      if k !in observed {
        observed := observed[k := Obs(LiveAt(db, k).Some?, RevOf(LiveAt(db, k)), false)];
      }
      obs := observed[k];
    }

    /** Buffers one operation; nothing is written before the commit. */
    method StageOp(r: Request, db: Db, late: bool) returns (result: Result<nat>, next: map<string, nat>)
      requires Valid()
      modifies this
      ensures Valid() && Staged(Value(), next, result) == Stage(old(Value()), db, r, late)
    {
      next := db.next;
      if r.col !in parts {
        return Err(NotParticipant), next;
      }
      if r.col !in db.next {
        return Err(NoCollection), next;
      }
      if r.op.Insert? {
        if r.id != 0 || r.expectedRev != 0 {
          return Err(Invalid), next;
        }
      } else if r.id == 0 {
        return Err(Invalid), next;
      }
      if !r.op.Delete? && KEY_FIELD in r.data {
        return Err(ReservedField), next;
      }
      if phase.Open? && late {
        EndAs(TimedOut);
      }
      if !phase.Open? {
        return Err(Finished), next;
      }
      if r.op.Insert? {
        if |writes| >= MAX_OPS {
          return Err(TooLarge), next;
        }
        var id := next[r.col] + 1;
        next := next[r.col := id];
        writes, order := writes[Key(r.col, id) := Write(Insert, r.data, 0, r.expiresAt)], order + [Key(r.col, id)];
        return Ok(id), next;
      }
      var k := Key(r.col, r.id);
      var data := if r.op.Delete? then map[] else r.data;
      if k in writes {
        var w := writes[k];
        match w.op {
          case Delete => return Err(NotFound), next;
          case Insert =>
            if r.expectedRev != 0 {
              return Err(Conflict), next;
            }
            if r.op.Delete? {
              writes := writes - {k};
            } else {
              writes := writes[k := w.(data := data, expiresAt := if r.expiresAt != 0 then r.expiresAt else w.expiresAt)];
            }
          case Update =>
            if r.expectedRev != 0 && r.expectedRev != w.base {
              return Err(Conflict), next;
            }
            writes := writes[k := Write(r.op, data, w.base, r.expiresAt)];
        }
        return Ok(r.id), next;
      }
      var obs := ObserveDoc(db, k);
      if !obs.present {
        return Err(NotFound), next;
      }
      if r.expectedRev != 0 && r.expectedRev != obs.rev {
        return Err(Conflict), next;
      }
      if |writes| >= MAX_OPS {
        return Err(TooLarge), next;
      }
      observed := observed[k := obs.(write := true)];
      writes, order := writes[k := Write(r.op, data, obs.rev, r.expiresAt)], order + [k];
      result := Ok(r.id);
    }

    /** A point read through the transaction. */
    method GetDoc(k: Key, db: Db, late: bool) returns (result: Result<(nat, Data)>)
      requires Valid()
      modifies this
      ensures Valid() && Got(Value(), result) == Get(old(Value()), db, k, late)
    {
      if k.col !in parts {
        return Err(NotParticipant);
      }
      if k.col !in db.next {
        return Err(NoCollection);
      }
      if phase.Open? && late {
        EndAs(TimedOut);
      }
      if !phase.Open? {
        return Err(Finished);
      }
      if k in writes {
        if writes[k].op.Delete? {
          return Err(NotFound);
        }
        return Ok((writes[k].base, writes[k].data));
      }
      var row := LiveAt(db, k);
      if k in observed && (observed[k].present != row.Some? || observed[k].rev != RevOf(row)) {
        return Err(Conflict);
      }
      var _ := ObserveDoc(db, k);
      result := if row.None? then Err(NotFound) else Ok((row.value.rev, row.value.data));
    }

    /** The observations as a list, in some order. */
    method ReadSet() returns (checks: seq<(Key, Obs)>)
      ensures forall c :: c in checks <==> c.0 in observed && observed[c.0] == c.1
    {
      checks := [];
      var rest := observed.Keys;
      while rest != {}
        invariant rest <= observed.Keys
        invariant forall c :: c in checks <==> c.0 in observed && c.0 !in rest && observed[c.0] == c.1
        decreases rest
      {
        var k :| k in rest;
        checks, rest := checks + [(k, observed[k])], rest - {k};
      }
    }

    method CollectOps() returns (ops: seq<Key>)
      ensures ops == Ops(order, writes)
    {
      ops := [];
      for i := 0 to |order|
        invariant ops == Ops(order[..i], writes)
      {
        assert order[..i + 1][..i] == order[..i];
        if order[i] in writes {
          ops := ops + [order[i]];
        }
      }
      assert order[..|order|] == order;
    }

    /** Validates and applies under the locks of every touched collection, whose state is `db`. */
    method Commit(db: Db, ttl: string -> int, late: bool, answer: Answer) returns (rows: map<Key, Row>, applied: bool)
      requires Valid()
      modifies this
      ensures Valid()
      ensures applied <==>
        && old(phase).Open? && !late && answer.Proceed?
        && EachKeyOnce(Ops(old(order), old(writes))) && ReadsHold(old(observed), db)
        && (forall k :: k in old(writes) ==> TargetOk(db, k, old(writes)[k]))
      ensures applied ==> AppliesAll(db.rows, old(writes), ttl, rows) && phase.Done?
      ensures !applied ==> rows == db.rows
      ensures Value() ==
        if !old(phase).Open? || (!late && answer.Cancel?) then old(Value())
        else if late then Finish(old(Value()), TimedOut)
        else Finish(old(Value()), match answer
                                  case Proceed => if applied then Done else Failed
                                  case Refuse => Failed
                                  case Cancel => Open
                                  case Doubt => InDoubt
                                  case Replay => Done)
    {
      rows, applied := db.rows, false;
      if phase.Open? && late {
        EndAs(TimedOut);
      }
      if !phase.Open? {
        return;
      }
      phase := Deciding;
      var ops := CollectOps();
      var checks := ReadSet();
      OpsMembers(order, writes);
      match answer {
        case Cancel => phase := Open;
        case Doubt => EndAs(InDoubt);
        case Refuse => EndAs(Failed);
        case Replay => EndAs(Done);
        case Proceed =>
          var once := NoRepeats(ops);
          var held := ValidateReads(checks, db);
          ReadSetHolds(checks, observed, db);
          if !once || !held {
            EndAs(Failed);
            return;
          }
          rows, applied := ApplyWrites(ops, writes, db, ttl);
          EndAs(if applied then Done else Failed);
      }
    }

    /** Discards what was staged; a decision cannot be undone. */
    method Rollback() returns (ok: bool)
      requires Valid()
      modifies this
      ensures Valid()
      ensures ok <==> old(phase) in {Open, Failed, RolledBack, TimedOut, Closed}
      ensures Value() == if old(phase).Open? then Finish(old(Value()), RolledBack) else old(Value())
    {
      if phase.Open? {
        EndAs(RolledBack);
        return true;
      }
      ok := phase in {Failed, RolledBack, TimedOut, Closed};
    }
  }

  lemma ReadSetHolds(checks: seq<(Key, Obs)>, observed: map<Key, Obs>, db: Db)
    requires forall c :: c in checks <==> c.0 in observed && observed[c.0] == c.1
    ensures ReadsHold(observed, db) <==> forall i :: 0 <= i < |checks| ==>
      var row := LiveAt(db, checks[i].0);
      checks[i].1.present == row.Some? && checks[i].1.rev == RevOf(row)
  {
    forall k | k in observed
      ensures exists i :: 0 <= i < |checks| && checks[i] == (k, observed[k])
    {
      assert (k, observed[k]) in checks;
    }
    forall i | 0 <= i < |checks|
      ensures checks[i].0 in observed && observed[checks[i].0] == checks[i].1
    {
      assert checks[i] in checks;
    }
  }

  /** Refuses a commit that names a document twice. */
  method NoRepeats(ops: seq<Key>) returns (once: bool)
    ensures once <==> EachKeyOnce(ops)
  {
    var seen: set<Key> := {};
    for i := 0 to |ops|
      invariant EachKeyOnce(ops[..i]) && seen == set k | k in ops[..i]
    {
      assert ops[..i + 1] == ops[..i] + [ops[i]];
      if ops[i] in seen {
        var j :| 0 <= j < i && ops[..i][j] == ops[i];
        assert ops[j] == ops[i];
        return false;
      }
      seen := seen + {ops[i]};
    }
    assert ops[..|ops|] == ops;
    once := true;
  }
}
