/**
 The secondary index of one field: buckets of ids per printed value, a reverse map,
 duplicate markers, and an ordered view of the keys while the field is homogeneous.
 */
module SecondaryIndex {
  import opened Values
  import opened Query

  const KEY_FIELD := "_key"

  datatype Kind = Empty | Numeric | Text | Mixed

  datatype OrderedKey = OrderedKey(key: string, val: Value)

  function KindOf(v: Value): Kind {
    if v.Num? then Numeric else Text
  }

  /** The typed value used for ordering: a number, or the printed form. */
  function Typed(v: Value, c: Codec): Value {
    if v.Num? then v else Str(Render(v, c))
  }

  function MergeKind(cur: Kind, next: Kind): Kind {
    if cur.Empty? then next else if cur == next then cur else Mixed
  }

  function ValForKind(kind: Kind, key: string, c: Codec): Value {
    if kind.Numeric? then Num(c.parse(key)) else Str(key)
  }

  /** The reserved key index holds only strings. */
  predicate Accepts(field: string, v: Value) {
    field == KEY_FIELD ==> v.Str?
  }

  /** `kept` is `data`, with the caller-supplied key of `was` unless `data` brings its own. */
  ghost predicate KeepsKey(data: Data, was: Data, kept: Data) {
    && kept - {KEY_FIELD} == data - {KEY_FIELD}
    && if KEY_FIELD in data then KEY_FIELD in kept && kept[KEY_FIELD] == data[KEY_FIELD]
       else if KEY_FIELD in was && was[KEY_FIELD].Str? then KEY_FIELD in kept && kept[KEY_FIELD] == was[KEY_FIELD]
       else KEY_FIELD !in kept
  }

  // ----- the ordered view -------------------------------------------------------------------------------

  predicate OrderLess(a: OrderedKey, b: OrderedKey, c: Codec) {
    var r := Compare(a.val, b.val, c);
    if r != 0 then r < 0 else CompareStr(a.key, b.key) < 0
  }

  lemma OrderLessTransitive(x: OrderedKey, y: OrderedKey, z: OrderedKey, c: Codec)
    requires SameSort(x.val, y.val) && SameSort(y.val, z.val)
    requires OrderLess(x, y, c) && OrderLess(y, z, c)
    ensures OrderLess(x, z, c)
  {
    CompareTransitive(x.val, y.val, z.val, c);
    CompareSwap(x.val, z.val, c);
    CompareSwap(x.val, y.val, c);
    CompareSwap(y.val, z.val, c);
    if Compare(x.val, y.val, c) == 0 && Compare(y.val, z.val, c) == 0 {
      CompareTransitive(z.val, y.val, x.val, c);
      CompareStrTransitive(x.key, y.key, z.key);
    }
  }

  lemma OrderLessTotal(x: OrderedKey, y: OrderedKey, c: Codec)
    ensures OrderLess(x, y, c) || OrderLess(y, x, c) || x.key == y.key
    ensures !(OrderLess(x, y, c) && OrderLess(y, x, c))
    ensures x == y ==> !OrderLess(x, y, c)
  {
    CompareSwap(x.val, y.val, c);
    CompareStrSwap(x.key, y.key);
  }

  ghost predicate StrictlySorted(s: seq<OrderedKey>, c: Codec) {
    forall i, j :: 0 <= i < j < |s| ==> OrderLess(s[i], s[j], c)
  }

  /** Every element carries the value its key stands for. */
  ghost predicate WellTyped(s: seq<OrderedKey>, kind: Kind, c: Codec) {
    forall i :: 0 <= i < |s| ==> s[i].val == ValForKind(kind, s[i].key, c)
  }

  function Keys(s: seq<OrderedKey>): set<string> {
    set i | 0 <= i < |s| :: s[i].key
  }

  /** The ordered view lists the bucket keys in strict order, or is dropped because the field is mixed. */
  ghost predicate SortedOk(s: seq<OrderedKey>, kind: Kind, keys: set<string>, c: Codec) {
    if kind.Mixed? then s == []
    else StrictlySorted(s, c) && WellTyped(s, kind, c) && Keys(s) == keys
  }

  /** `i` splits `s` into what is below the target and what is not. */
  ghost predicate SplitsAt(s: seq<OrderedKey>, target: OrderedKey, i: nat, c: Codec) {
    && i <= |s|
    && (forall k :: 0 <= k < i ==> OrderLess(s[k], target, c))
    && (forall k :: i <= k < |s| ==> !OrderLess(s[k], target, c))
  }

  method SearchSorted(s: seq<OrderedKey>, target: OrderedKey, kind: Kind, c: Codec) returns (i: nat)
    requires StrictlySorted(s, c) && WellTyped(s, kind, c) && target.val == ValForKind(kind, target.key, c)
    ensures SplitsAt(s, target, i, c)
  {
    var lo, hi := 0, |s|;
    while lo < hi
      invariant 0 <= lo <= hi <= |s|
      invariant forall k :: 0 <= k < lo ==> OrderLess(s[k], target, c)
      invariant forall k :: hi <= k < |s| ==> !OrderLess(s[k], target, c)
    {
      var mid := (lo + hi) / 2;
      if OrderLess(s[mid], target, c) {
        forall k | lo <= k < mid
          ensures OrderLess(s[k], target, c)
        {
          OrderLessTransitive(s[k], s[mid], target, c);
        }
        lo := mid + 1;
      } else {
        forall k | mid < k < hi
          ensures !OrderLess(s[k], target, c)
        {
          if OrderLess(s[k], target, c) {
            OrderLessTransitive(s[mid], s[k], target, c);
          }
        }
        hi := mid;
      }
    }
    i := lo;
  }

  lemma KeysDistinct(s: seq<OrderedKey>, i: nat, j: nat, kind: Kind, c: Codec)
    requires StrictlySorted(s, c) && WellTyped(s, kind, c) && i < |s| && j < |s| && i != j
    ensures s[i].key != s[j].key
  {
    var lo, hi := if i < j then i else j, if i < j then j else i;
    assert OrderLess(s[lo], s[hi], c);
    OrderLessTotal(s[lo], s[hi], c);
  }

  /** A key is in the view exactly if it sits at its search position. */
  lemma FoundAt(s: seq<OrderedKey>, target: OrderedKey, i: nat, kind: Kind, c: Codec)
    requires StrictlySorted(s, c) && WellTyped(s, kind, c)
    requires SplitsAt(s, target, i, c) && target.val == ValForKind(kind, target.key, c)
    ensures target.key in Keys(s) <==> i < |s| && s[i].key == target.key
  {
    if target.key in Keys(s) {
      var p :| 0 <= p < |s| && s[p].key == target.key;
      assert s[p] == target;
      OrderLessTotal(target, target, c);
      if i < p {
        OrderLessTotal(s[i], s[p], c);
      }
      assert p == i;
    }
  }

  lemma InsertAtKeys(s: seq<OrderedKey>, target: OrderedKey, i: nat)
    requires i <= |s|
    ensures Keys(s[..i] + [target] + s[i..]) == Keys(s) + {target.key}
  {
    var r := s[..i] + [target] + s[i..];
    assert r[i] == target;
    forall p | 0 <= p < |r|
      ensures r[p].key in Keys(s) + {target.key}
    {
      assert p < i ==> r[p] == s[p];
      assert p > i ==> r[p] == s[p - 1];
    }
    forall p | 0 <= p < |s|
      ensures s[p].key in Keys(r)
    {
      assert r[if p < i then p else p + 1] == s[p];
    }
  }

  lemma InsertAt(s: seq<OrderedKey>, target: OrderedKey, i: nat, kind: Kind, c: Codec)
    requires StrictlySorted(s, c) && WellTyped(s, kind, c)
    requires SplitsAt(s, target, i, c) && target.val == ValForKind(kind, target.key, c)
    requires target.key !in Keys(s)
    ensures
      var r := s[..i] + [target] + s[i..];
      StrictlySorted(r, c) && WellTyped(r, kind, c) && Keys(r) == Keys(s) + {target.key}
  {
    var r := s[..i] + [target] + s[i..];
    InsertAtKeys(s, target, i);
    forall k | i <= k < |s|
      ensures OrderLess(target, s[k], c)
    {
      OrderLessTotal(target, s[k], c);
      assert s[k].key in Keys(s);
    }
    hide Keys, OrderLess;
    assert r[i] == target;
    assert forall p :: 0 <= p < i ==> r[p] == s[p];
    assert forall p :: i < p < |r| ==> r[p] == s[p - 1];
  }

  lemma RemoveAtKeys(s: seq<OrderedKey>, i: nat, kind: Kind, c: Codec)
    requires StrictlySorted(s, c) && WellTyped(s, kind, c) && i < |s|
    ensures Keys(s[..i] + s[i + 1..]) == Keys(s) - {s[i].key}
  {
    var r := s[..i] + s[i + 1..];
    forall j | 0 <= j < |s| && j != i
      ensures s[j].key != s[i].key
    {
      KeysDistinct(s, i, j, kind, c);
    }
    hide StrictlySorted, WellTyped;
    forall p | 0 <= p < |r|
      ensures r[p].key in Keys(s) - {s[i].key}
    {
      assert r[p] == s[if p < i then p else p + 1];
    }
    forall p | 0 <= p < |s| && p != i
      ensures s[p].key in Keys(r)
    {
      assert r[if p < i then p else p - 1] == s[p];
    }
  }

  lemma RemoveAt(s: seq<OrderedKey>, i: nat, kind: Kind, c: Codec)
    requires StrictlySorted(s, c) && WellTyped(s, kind, c) && i < |s|
    ensures
      var r := s[..i] + s[i + 1..];
      StrictlySorted(r, c) && WellTyped(r, kind, c) && Keys(r) == Keys(s) - {s[i].key}
  {
    RemoveAtKeys(s, i, kind, c);
    hide Keys, OrderLess;
    var r := s[..i] + s[i + 1..];
    forall p | 0 <= p < |r|
      ensures r[p] == s[if p < i then p else p + 1]
    {
    }
  }

  // ----- buckets -----------------------------------------------------------------------------------------------

  ghost predicate BucketsOk(buckets: map<string, set<nat>>, reverse: map<nat, string>) {
    && (forall k :: k in buckets ==> buckets[k] != {})
    && (forall k, id :: k in buckets && id in buckets[k] ==> id in reverse && reverse[id] == k)
    && (forall id :: id in reverse ==> reverse[id] in buckets && id in buckets[reverse[id]])
  }

  ghost predicate DupsOk(dups: set<string>, buckets: map<string, set<nat>>) {
    forall k :: k in dups <==> k in buckets && |buckets[k]| > 1
  }

  function Without(buckets: map<string, set<nat>>, key: string, id: nat): map<string, set<nat>> {
    if key !in buckets then buckets
    else if buckets[key] <= {id} then buckets - {key} else buckets[key := buckets[key] - {id}]
  }

  function With(buckets: map<string, set<nat>>, key: string, id: nat): map<string, set<nat>> {
    buckets[key := (if key in buckets then buckets[key] else {}) + {id}]
  }

  /** The markers are right for every bucket but `key`. */
  ghost predicate DupsExcept(dups: set<string>, buckets: map<string, set<nat>>, key: string) {
    forall k :: k != key ==> (k in dups <==> k in buckets && |buckets[k]| > 1)
  }

  lemma WithoutOk(buckets: map<string, set<nat>>, reverse: map<nat, string>, dups: set<string>, id: nat)
    requires BucketsOk(buckets, reverse) && DupsOk(dups, buckets) && id in reverse
    ensures
      var b := Without(buckets, reverse[id], id);
      && BucketsOk(b, reverse - {id}) && DupsExcept(dups, b, reverse[id])
      && (if reverse[id] in b then b.Keys == buckets.Keys else b.Keys + {reverse[id]} == buckets.Keys)
  {
  }

  lemma WithDups(buckets: map<string, set<nat>>, dups: set<string>, key: string, id: nat)
    requires DupsOk(dups, buckets)
    ensures DupsExcept(dups, With(buckets, key, id), key)
    ensures With(buckets, key, id).Keys == buckets.Keys + {key}
    ensures key !in buckets ==> With(buckets, key, id).Keys - {key} == buckets.Keys
    ensures key in buckets ==> With(buckets, key, id).Keys == buckets.Keys
  {
  }

  lemma WithOk(buckets: map<string, set<nat>>, reverse: map<nat, string>, key: string, id: nat)
    requires BucketsOk(buckets, reverse) && id !in reverse
    ensures BucketsOk(With(buckets, key, id), reverse[id := key])
  {
    var b := With(buckets, key, id);
    assert forall k :: k in b && k != key ==> k in buckets && b[k] == buckets[k];
    assert id in b[key];
  }

  lemma TypedAgrees(v: Value, c: Codec)
    requires ValidCodec(c)
    ensures Typed(v, c) == ValForKind(KindOf(v), Render(v, c), c)
  {
    if v.Num? {
      assert c.parse(c.render(v.rank)) == v.rank;
    }
  }

  /** Every indexed id is filed under what its value prints as. */
  ghost predicate Mirrors(vals: map<nat, Value>, reverse: map<nat, string>, field: string, c: Codec) {
    && vals.Keys == reverse.Keys
    && (forall id :: id in vals ==> reverse[id] == Render(vals[id], c) && Accepts(field, vals[id]))
  }

  /** What the recorded kind promises about the indexed values. */
  ghost predicate KindOk(kind: Kind, vals: map<nat, Value>) {
    match kind
    case Empty => vals == map[]
    case Numeric => forall id :: id in vals ==> vals[id].Num?
    case Text => forall id :: id in vals ==> !vals[id].Num?
    case Mixed => true
  }

  lemma LeavingKeeps(vals: map<nat, Value>, reverse: map<nat, string>, field: string, c: Codec, kind: Kind, id: nat)
    requires Mirrors(vals, reverse, field, c) && KindOk(kind, vals)
    ensures Mirrors(vals - {id}, reverse - {id}, field, c) && KindOk(kind, vals - {id})
  {
  }

  lemma EnteringKeeps(vals: map<nat, Value>, reverse: map<nat, string>, field: string, c: Codec, kind: Kind, id: nat, v: Value)
    requires Mirrors(vals, reverse, field, c) && KindOk(kind, vals) && Accepts(field, v)
    ensures Mirrors(vals[id := v], reverse[id := Render(v, c)], field, c)
    ensures KindOk(MergeKind(kind, KindOf(v)), vals[id := v])
  {
  }

  lemma NoBuckets(buckets: map<string, set<nat>>, reverse: map<nat, string>)
    requires BucketsOk(buckets, reverse)
    ensures reverse == map[] ==> buckets == map[]
  {
    if buckets != map[] {
      var k :| k in buckets;
      var id :| id in buckets[k];
      assert id in reverse;
    }
  }

  lemma NoKeys(s: seq<OrderedKey>)
    ensures Keys(s) == {} ==> s == []
  {
    if s != [] {
      assert s[0].key in Keys(s);
    }
  }

  /** Before any value was seen there is no bucket, so the first kind needs no reordering. */
  lemma KindMerges(s: seq<OrderedKey>, kind: Kind, next: Kind, buckets: map<string, set<nat>>, reverse: map<nat, string>,
                   vals: map<nat, Value>, field: string, c: Codec)
    requires KindOk(kind, vals) && Mirrors(vals, reverse, field, c) && BucketsOk(buckets, reverse)
    requires SortedOk(s, kind, buckets.Keys, c) && !next.Empty?
    ensures
      var merged := MergeKind(kind, next);
      SortedOk(if merged.Mixed? then [] else s, merged, buckets.Keys, c)
  {
    if kind.Empty? {
      NoBuckets(buckets, reverse);
      NoKeys(s);
    }
  }

  // ----- lookups ------------------------------------------------------------------------------------------------

  predicate IsRange(op: Op) {
    op.Gt? || op.Gte? || op.Lt? || op.Lte?
  }

  ghost predicate EachOnce(ids: seq<nat>) {
    forall i, j :: 0 <= i < j < |ids| ==> ids[i] != ids[j]
  }

  /** The positions of an ordered view that satisfy a range are consecutive: those from `lo` up to `hi`. */
  ghost predicate IsInterval(s: seq<OrderedKey>, op: Op, q: Value, lo: nat, hi: nat, c: Codec) {
    && lo <= hi <= |s|
    && (forall k :: 0 <= k < |s| ==> (Holds(op, s[k].val, q, c) <==> lo <= k < hi))
  }

  /** The first position whose value is above the query, or at least the query when `orEqual`. */
  method SearchValue(s: seq<OrderedKey>, q: Value, orEqual: bool, kind: Kind, c: Codec) returns (i: nat)
    requires StrictlySorted(s, c) && WellTyped(s, kind, c) && (q.Num? <==> kind.Numeric?)
    ensures i <= |s|
    ensures forall k :: 0 <= k < i ==> !Holds(if orEqual then Gte else Gt, s[k].val, q, c)
    ensures forall k :: i <= k < |s| ==> Holds(if orEqual then Gte else Gt, s[k].val, q, c)
  {
    var op := if orEqual then Gte else Gt;
    var lo, hi := 0, |s|;
    while lo < hi
      invariant 0 <= lo <= hi <= |s|
      invariant forall k :: 0 <= k < lo ==> !Holds(op, s[k].val, q, c)
      invariant forall k :: hi <= k < |s| ==> Holds(op, s[k].val, q, c)
    {
      var mid := (lo + hi) / 2;
      if Holds(op, s[mid].val, q, c) {
        forall k | mid < k < hi
          ensures Holds(op, s[k].val, q, c)
        {
          AboveStays(s[mid], s[k], op, q, c);
        }
        hi := mid;
      } else {
        forall k | lo <= k < mid
          ensures !Holds(op, s[k].val, q, c)
        {
          if Holds(op, s[k].val, q, c) {
            AboveStays(s[k], s[mid], op, q, c);
          }
        }
        lo := mid + 1;
      }
    }
    i := lo;
  }

  lemma AboveStays(a: OrderedKey, b: OrderedKey, op: Op, q: Value, c: Codec)
    requires SameSort(a.val, b.val) && SameSort(b.val, q) && OrderLess(a, b, c)
    requires (op == Gt || op == Gte) && Holds(op, a.val, q, c)
    ensures Holds(op, b.val, q, c)
  {
    CompareSwap(a.val, q, c);
    CompareSwap(b.val, q, c);
    CompareTransitive(q, a.val, b.val, c);
  }

  /** Comparing typed values is comparing the values themselves. */
  lemma TypedCompares(v: Value, q: Value, op: Op, c: Codec)
    requires SameSort(v, q) && IsRange(op)
    ensures Holds(op, v, q, c) <==> Holds(op, Typed(v, c), Typed(q, c), c)
  {
  }

  /** The ids filed under the keys of `s`. */
  ghost predicate Listed(ids: seq<nat>, s: seq<OrderedKey>, reverse: map<nat, string>) {
    forall id :: id in ids <==> id in reverse && reverse[id] in Keys(s)
  }

  lemma EachOnceConcat(a: seq<nat>, b: seq<nat>)
    requires EachOnce(a) && EachOnce(b) && forall x :: x in a ==> x !in b
    ensures EachOnce(a + b)
  {
    forall i, j | 0 <= i < j < |a + b|
      ensures (a + b)[i] != (a + b)[j]
    {
      if i < |a| <= j {
        assert a[i] in a && b[j - |a|] in b;
      }
    }
  }

  /** A set of ids as a list. */
  method Spread(bucket: set<nat>) returns (ids: seq<nat>)
    ensures EachOnce(ids) && forall id :: id in ids <==> id in bucket
  {
    ids := [];
    var rest := bucket;
    while rest != {}
      invariant rest <= bucket && EachOnce(ids)
      invariant forall id :: id in ids <==> id in bucket - rest
      decreases rest
    {
      var id :| id in rest;
      EachOnceConcat(ids, [id]);
      ids, rest := ids + [id], rest - {id};
    }
  }

  lemma GatherStep(ids: seq<nat>, more: seq<nat>, part: seq<OrderedKey>, k: nat, reverse: map<nat, string>)
    requires k < |part| && EachOnce(ids) && Listed(ids, part[..k], reverse)
    requires EachOnce(more) && forall id :: id in more <==> id in reverse && reverse[id] == part[k].key
    requires forall i, j :: 0 <= i < j < |part| ==> part[i].key != part[j].key
    ensures EachOnce(ids + more) && Listed(ids + more, part[..k + 1], reverse)
  {
    assert part[..k + 1][..k] == part[..k];
    assert Keys(part[..k + 1]) == Keys(part[..k]) + {part[k].key} by {
      InsertAtKeys(part[..k], part[k], k);
      assert part[..k][..k] + [part[k]] + part[..k][k..] == part[..k + 1];
    }
    assert forall x :: x in ids ==> x in reverse && reverse[x] in Keys(part[..k]);
    assert part[k].key !in Keys(part[..k]);
    EachOnceConcat(ids, more);
  }

  lemma PartOfView(s: seq<OrderedKey>, lo: nat, hi: nat, kind: Kind, c: Codec)
    requires StrictlySorted(s, c) && WellTyped(s, kind, c) && lo <= hi <= |s|
    ensures Keys(s[lo..hi]) <= Keys(s)
    ensures forall i, j :: 0 <= i < j < hi - lo ==> s[lo..hi][i].key != s[lo..hi][j].key
  {
    forall i, j | 0 <= i < j < hi - lo
      ensures s[lo..hi][i].key != s[lo..hi][j].key
    {
      KeysDistinct(s, lo + i, lo + j, kind, c);
    }
    forall i | 0 <= i < hi - lo
      ensures s[lo..hi][i].key in Keys(s)
    {
      assert s[lo..hi][i] == s[lo + i];
    }
  }

  /** A value satisfies the range exactly if its key lies in the interval. */
  lemma InRange(s: seq<OrderedKey>, op: Op, q: Value, lo: nat, hi: nat, kind: Kind, v: Value, c: Codec)
    requires ValidCodec(c) && StrictlySorted(s, c) && WellTyped(s, kind, c) && IsRange(op)
    requires IsInterval(s, op, Typed(q, c), lo, hi, c)
    requires KindOf(v) == kind == KindOf(q) && Render(v, c) in Keys(s)
    ensures Holds(op, v, q, c) <==> Render(v, c) in Keys(s[lo..hi])
  {
    var k :| 0 <= k < |s| && s[k].key == Render(v, c);
    TypedAgrees(v, c);
    TypedCompares(v, q, op, c);
    assert Holds(op, v, q, c) <==> lo <= k < hi;
    if lo <= k < hi {
      assert s[lo..hi][k - lo] == s[k];
    }
    if Render(v, c) in Keys(s[lo..hi]) {
      var i :| 0 <= i < hi - lo && s[lo..hi][i].key == Render(v, c);
      if lo + i != k {
        KeysDistinct(s, lo + i, k, kind, c);
      }
    }
  }

  lemma NotFiled(vals: map<nat, Value>, reverse: map<nat, string>, field: string, codec: Codec, id: nat)
    requires Mirrors(vals, reverse, field, codec)
    ensures id in reverse <==> id in vals
    ensures id !in vals ==> vals - {id} == vals
  {
  }

  class Index {
    const field: string
    const codec: Codec
    var buckets: map<string, set<nat>>
    var reverse: map<nat, string>
    var dups: set<string>
    var kind: Kind
    var sorted: seq<OrderedKey>
    /** The indexed value of every indexed id. */
    ghost var vals: map<nat, Value>

    ghost predicate Valid()
      reads this
    {
      && ValidCodec(codec)
      && Mirrors(vals, reverse, field, codec)
      && BucketsOk(buckets, reverse)
      && DupsOk(dups, buckets)
      && KindOk(kind, vals)
      && SortedOk(sorted, kind, buckets.Keys, codec)
    }

    constructor (field: string, codec: Codec)
      requires ValidCodec(codec)
      ensures Valid() && vals == map[] && this.field == field && this.codec == codec
    {
      this.field, this.codec := field, codec;
      buckets, reverse, dups, kind, sorted, vals := map[], map[], {}, Empty, [], map[];
    }

    /** Brings the ordered view in step after a bucket appeared. */
    method OrderedInsert(key: string, val: Value)
      requires ValidCodec(codec) && SortedOk(sorted, kind, buckets.Keys - {key}, codec)
      requires !kind.Mixed? ==> val == ValForKind(kind, key, codec)
      requires key in buckets
      modifies this`sorted
      ensures SortedOk(sorted, kind, buckets.Keys, codec)
    {
      if kind.Mixed? {
        return;
      }
      var target := OrderedKey(key, val);
      var i := SearchSorted(sorted, target, kind, codec);
      FoundAt(sorted, target, i, kind, codec);
      if i < |sorted| && sorted[i].key == key {
        return;
      }
      InsertAt(sorted, target, i, kind, codec);
      sorted := sorted[..i] + [target] + sorted[i..];
      assert buckets.Keys == (buckets.Keys - {key}) + {key};
    }

    /** Brings the ordered view in step after a bucket emptied. */
    method OrderedRemove(key: string)
      requires SortedOk(sorted, kind, buckets.Keys + {key}, codec) && key !in buckets
      modifies this`sorted
      ensures SortedOk(sorted, kind, buckets.Keys, codec)
    {
      if kind.Mixed? {
        return;
      }
      var target := OrderedKey(key, ValForKind(kind, key, codec));
      var i := SearchSorted(sorted, target, kind, codec);
      FoundAt(sorted, target, i, kind, codec);
      assert key in Keys(sorted);
      RemoveAt(sorted, i, kind, codec);
      sorted := sorted[..i] + sorted[i + 1..];
      assert (buckets.Keys + {key}) - {key} == buckets.Keys;
    }

    method Note(key: string)
      requires DupsExcept(dups, buckets, key)
      modifies this`dups
      ensures DupsOk(dups, buckets)
    {
      if key in buckets && |buckets[key]| > 1 {
        dups := dups + {key};
      } else {
        dups := dups - {key};
      }
    }

    /** Takes an indexed id out of its bucket. */
    method Leave(id: nat)
      requires Valid() && id in reverse
      modifies this
      ensures Valid() && vals == old(vals) - {id} && kind == old(kind)
    {
      hide BucketsOk, SortedOk, KindOk, Mirrors, DupsOk, DupsExcept, ValidCodec, Without;
      var key := reverse[id];
      WithoutOk(buckets, reverse, dups, id);
      LeavingKeeps(vals, reverse, field, codec, kind, id);
      buckets, reverse, vals := Without(buckets, key, id), reverse - {id}, vals - {id};
      if key !in buckets {
        OrderedRemove(key);
      }
      Note(key);
    }

    /** Puts an unindexed id into the bucket of a value the index accepts. */
    method Enter(id: nat, v: Value)
      requires Valid() && id !in reverse && Accepts(field, v)
      modifies this
      ensures Valid() && vals == old(vals)[id := v] && kind == MergeKind(old(kind), KindOf(v))
    {
      hide BucketsOk, SortedOk, KindOk, Mirrors, DupsOk, DupsExcept, ValidCodec, Typed, Render, With;
      var key := Render(v, codec);
      var isNew := key !in buckets;
      TypedAgrees(v, codec);
      WithOk(buckets, reverse, key, id);
      WithDups(buckets, dups, key, id);
      EnteringKeeps(vals, reverse, field, codec, kind, id, v);
      KindMerges(sorted, kind, KindOf(v), buckets, reverse, vals, field, codec);
      buckets, reverse, vals := With(buckets, key, id), reverse[id := key], vals[id := v];
      kind := MergeKind(kind, KindOf(v));
      if kind.Mixed? {
        sorted := [];
      }
      if isNew {
        OrderedInsert(key, Typed(v, codec));
      }
      Note(key);
    }

    method Add(v: Value, id: nat)
      requires Valid() && id !in vals
      modifies this
      ensures Valid() && vals == if Accepts(field, v) then old(vals)[id := v] else old(vals)
    {
      if Accepts(field, v) {
        Enter(id, v);
      }
    }

    method Remove(id: nat)
      requires Valid()
      modifies this
      ensures Valid() && vals == old(vals) - {id}
    {
      NotFiled(vals, reverse, field, codec, id);
      hide BucketsOk, DupsOk, SortedOk, KindOk, Mirrors, ValidCodec;
      if id in reverse {
        Leave(id);
      }
    }

    method Update(id: nat, v: Value)
      requires Valid()
      modifies this
      ensures Valid()
      ensures vals == if Accepts(field, v) then old(vals)[id := v] else old(vals) - {id}
    {
      hide BucketsOk, DupsOk, SortedOk, KindOk;
      if id in reverse {
        Leave(id);
      }
      if Accepts(field, v) {
        Enter(id, v);
      }
    }

    method Lookup(value: string) returns (ids: seq<nat>)
      requires Valid()
      ensures EachOnce(ids)
      ensures forall id :: id in ids <==> id in vals && Render(vals[id], codec) == value
    {
      ids := [];
      if value in buckets {
        ids := Spread(buckets[value]);
      }
    }

    /** The ids filed under the keys of a stretch of the ordered view. */
    method Gather(part: seq<OrderedKey>) returns (ids: seq<nat>)
      requires BucketsOk(buckets, reverse) && Keys(part) <= buckets.Keys
      requires forall i, j :: 0 <= i < j < |part| ==> part[i].key != part[j].key
      ensures EachOnce(ids) && Listed(ids, part, reverse)
    {
      ids := [];
      for k := 0 to |part|
        invariant EachOnce(ids) && Listed(ids, part[..k], reverse)
      {
        assert part[k].key in Keys(part);
        var more := Spread(buckets[part[k].key]);
        GatherStep(ids, more, part, k, reverse);
        ids := ids + more;
      }
      assert part[..|part|] == part;
    }

    method LookupRange(op: Op, q: Value) returns (ids: seq<nat>, ok: bool)
      requires Valid()
      ensures ok <==> kind.Empty? || (kind == (if q.Num? then Numeric else Text) && !op.Eq? && !op.Neq?)
      ensures ok ==> EachOnce(ids) && forall id :: id in ids <==> id in vals && Holds(op, vals[id], q, codec)
    {
      ids := [];
      if kind.Empty? {
        return [], true;
      }
      if kind.Mixed? || KindOf(q) != kind || !IsRange(op) {
        return [], false;
      }
      var qv := Typed(q, codec);
      var cut := SearchValue(sorted, qv, op.Gte? || op.Lt?, kind, codec);
      var lo, hi := if op.Gt? || op.Gte? then cut else 0, if op.Gt? || op.Gte? then |sorted| else cut;
      assert IsInterval(sorted, op, qv, lo, hi, codec);
      PartOfView(sorted, lo, hi, kind, codec);
      ids := Gather(sorted[lo..hi]);
      ok := true;
      forall id
        ensures id in ids <==> id in vals && Holds(op, vals[id], q, codec)
      {
        if id in vals {
          InRange(sorted, op, q, lo, hi, kind, vals[id], codec);
        }
      }
    }
  }
}
