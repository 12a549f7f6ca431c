/**
 Ordered scans: a lexicographic multi-field sort with the id as last resort, a bounded
 max-heap that keeps one page, and page tokens that resume after the last row.
 */
module Pagination {
  import opened Values
  import opened Query
  import opened Scan

  datatype SortField = SortField(field: string, desc: bool)

  /** A missing field sorts as null. */
  function KeyOf(h: Hit, field: string): Value {
    if field in h.data then h.data[field] else Null
  }

  // ----- the ordering ---------------------------------------------------------------------------------

  /** Lexicographic comparison on the sort fields alone. */
  function Cmp(fields: seq<SortField>, a: Hit, b: Hit, c: Codec): int {
    if fields == [] then 0
    else
      var k := Compare(KeyOf(a, fields[0].field), KeyOf(b, fields[0].field), c);
      if k != 0 then (if fields[0].desc then -k else k) else Cmp(fields[1..], a, b, c)
  }

  predicate Less(fields: seq<SortField>, a: Hit, b: Hit, c: Codec) {
    var k := Cmp(fields, a, b, c);
    k < 0 || (k == 0 && a.id < b.id)
  }

  /** Every sort field holds numbers in both rows, or in neither. */
  ghost predicate Alike(fields: seq<SortField>, a: Hit, b: Hit) {
    forall i :: 0 <= i < |fields| ==> SameSort(KeyOf(a, fields[i].field), KeyOf(b, fields[i].field))
  }

  /** Rows of one homogeneous result set: ids are unique and every pair is alike. */
  ghost predicate Comparable(fields: seq<SortField>, rows: set<Hit>) {
    && (forall a, b :: a in rows && b in rows && a.id == b.id ==> a == b)
    && (forall a, b :: a in rows && b in rows ==> Alike(fields, a, b))
  }

  lemma {:induction false} CmpSwap(fields: seq<SortField>, a: Hit, b: Hit, c: Codec)
    ensures Cmp(fields, a, b, c) == -Cmp(fields, b, a, c)
  {
    if fields != [] {
      CompareSwap(KeyOf(a, fields[0].field), KeyOf(b, fields[0].field), c);
      CmpSwap(fields[1..], a, b, c);
    }
  }

  lemma {:induction false} CmpTransitive(fields: seq<SortField>, x: Hit, y: Hit, z: Hit, c: Codec)
    requires Alike(fields, x, y) && Alike(fields, y, z)
    requires Cmp(fields, x, y, c) <= 0 && Cmp(fields, y, z, c) <= 0
    ensures Cmp(fields, x, z, c) <= 0
    ensures Cmp(fields, x, y, c) < 0 || Cmp(fields, y, z, c) < 0 ==> Cmp(fields, x, z, c) < 0
  {
    if fields != [] {
      var f := fields[0].field;
      var kx, ky, kz := KeyOf(x, f), KeyOf(y, f), KeyOf(z, f);
      CompareSwap(kx, ky, c);
      CompareSwap(ky, kz, c);
      CompareSwap(kx, kz, c);
      if fields[0].desc {
        CompareTransitive(kz, ky, kx, c);
      } else {
        CompareTransitive(kx, ky, kz, c);
      }
      if Compare(kx, ky, c) == 0 && Compare(ky, kz, c) == 0 {
        CompareTransitive(kx, ky, kz, c);
        CompareTransitive(kz, ky, kx, c);
        assert Alike(fields[1..], x, y) && Alike(fields[1..], y, z);
        CmpTransitive(fields[1..], x, y, z, c);
      }
    }
  }

  /** On a homogeneous result set the ordering is total, ... */
  lemma LessTotal(fields: seq<SortField>, rows: set<Hit>, a: Hit, b: Hit, c: Codec)
    requires Comparable(fields, rows) && a in rows && b in rows
    ensures a == b || Less(fields, a, b, c) || Less(fields, b, a, c)
    ensures !(Less(fields, a, b, c) && Less(fields, b, a, c))
    ensures !Less(fields, a, a, c)
  {
    CmpSwap(fields, a, b, c);
    CmpSwap(fields, a, a, c);
  }

  /** ... and transitive. */
  lemma LessTransitive(fields: seq<SortField>, rows: set<Hit>, x: Hit, y: Hit, z: Hit, c: Codec)
    requires Comparable(fields, rows) && x in rows && y in rows && z in rows
    requires Less(fields, x, y, c) && Less(fields, y, z, c)
    ensures Less(fields, x, z, c)
  {
    CmpTransitive(fields, x, y, z, c);
    CmpSwap(fields, x, z, c);
    CmpSwap(fields, x, y, c);
    CmpSwap(fields, y, z, c);
    if Cmp(fields, x, y, c) == 0 && Cmp(fields, y, z, c) == 0 {
      CmpTransitive(fields, z, y, x, c);
    }
  }

  /** If neither step goes up, the whole does not. */
  lemma NotLessTransitive(fields: seq<SortField>, rows: set<Hit>, x: Hit, y: Hit, z: Hit, c: Codec)
    requires Comparable(fields, rows) && x in rows && y in rows && z in rows
    requires !Less(fields, x, y, c) && !Less(fields, y, z, c)
    ensures !Less(fields, x, z, c)
  {
    LessTotal(fields, rows, x, y, c);
    LessTotal(fields, rows, y, z, c);
    LessTotal(fields, rows, x, z, c);
    if x != y && y != z {
      LessTransitive(fields, rows, z, y, x, c);
    }
  }

  /** How two rows compare under one field, a missing one counting as null. */
  ghost function FieldOrder(field: string, a: Hit, b: Hit, c: Codec): int {
    Compare(if field in a.data then a.data[field] else Null, if field in b.data then b.data[field] else Null, c)
  }

  /** The rows agree on the first `n` sort fields. */
  ghost predicate AgreeOn(fields: seq<SortField>, n: nat, a: Hit, b: Hit, c: Codec)
    requires n <= |fields|
  {
    forall m :: 0 <= m < n ==> FieldOrder(fields[m].field, a, b, c) == 0
  }

  /** At sort field `n`, the first to tell the rows apart, `a` is below `b` if it is ascending and above it if it is descending. */
  ghost predicate DecidedAt(fields: seq<SortField>, n: nat, a: Hit, b: Hit, c: Codec)
    requires n < |fields|
  {
    && AgreeOn(fields, n, a, b, c)
    && if fields[n].desc then FieldOrder(fields[n].field, a, b, c) > 0 else FieldOrder(fields[n].field, a, b, c) < 0
  }

  /** The promised order: the first sort field that differs decides, in its own direction, and then the smaller id. */
  ghost predicate Precedes(fields: seq<SortField>, a: Hit, b: Hit, c: Codec) {
    || (exists n :: 0 <= n < |fields| && DecidedAt(fields, n, a, b, c))
    || (AgreeOn(fields, |fields|, a, b, c) && a.id < b.id)
  }

  lemma {:induction false} CmpDecides(fields: seq<SortField>, a: Hit, b: Hit, c: Codec)
    ensures Cmp(fields, a, b, c) == 0 <==> AgreeOn(fields, |fields|, a, b, c)
    ensures Cmp(fields, a, b, c) < 0 <==> exists n :: 0 <= n < |fields| && DecidedAt(fields, n, a, b, c)
  {
    if fields != [] {
      var rest := fields[1..];
      CmpDecides(rest, a, b, c);
      assert forall n :: 0 <= n < |rest| ==> rest[n] == fields[n + 1];
      if FieldOrder(fields[0].field, a, b, c) == 0 {
        forall n | 0 <= n <= |rest|
          ensures AgreeOn(rest, n, a, b, c) <==> AgreeOn(fields, n + 1, a, b, c)
        {
          AgreeNext(fields, n, a, b, c);
        }
        if exists n :: 0 <= n < |rest| && DecidedAt(rest, n, a, b, c) {
          var n :| 0 <= n < |rest| && DecidedAt(rest, n, a, b, c);
          assert DecidedAt(fields, n + 1, a, b, c);
        }
        if exists n :: 0 <= n < |fields| && DecidedAt(fields, n, a, b, c) {
          var n :| 0 <= n < |fields| && DecidedAt(fields, n, a, b, c);
          assert DecidedAt(rest, n - 1, a, b, c);
        }
      } else {
        assert !AgreeOn(fields, |fields|, a, b, c);
        assert DecidedAt(fields, 0, a, b, c) || !exists n :: 0 <= n < |fields| && DecidedAt(fields, n, a, b, c);
      }
    }
  }

  lemma AgreeNext(fields: seq<SortField>, n: nat, a: Hit, b: Hit, c: Codec)
    requires fields != [] && n <= |fields| - 1 && FieldOrder(fields[0].field, a, b, c) == 0
    ensures AgreeOn(fields[1..], n, a, b, c) <==> AgreeOn(fields, n + 1, a, b, c)
  {
    hide FieldOrder;
    var rest := fields[1..];
    if AgreeOn(rest, n, a, b, c) {
      forall m | 0 <= m < n + 1
        ensures FieldOrder(fields[m].field, a, b, c) == 0
      {
        assert m > 0 ==> rest[m - 1] == fields[m];
      }
    }
    if AgreeOn(fields, n + 1, a, b, c) {
      forall m | 0 <= m < n
        ensures FieldOrder(rest[m].field, a, b, c) == 0
      {
        assert rest[m] == fields[m + 1];
      }
    }
  }

  /** The comparison a scan sorts by is the promised order. */
  lemma LessIsPrecedes(fields: seq<SortField>, a: Hit, b: Hit, c: Codec)
    ensures Less(fields, a, b, c) <==> Precedes(fields, a, b, c)
  {
    CmpDecides(fields, a, b, c);
  }

  ghost predicate InOrder(s: seq<Hit>, fields: seq<SortField>, c: Codec) {
    forall i, j :: 0 <= i < j < |s| ==> Precedes(fields, s[i], s[j], c)
  }

  // ----- the bounded heap --------------------------------------------------------------------------

  ghost predicate Within(buf: seq<Hit>, rows: set<Hit>) {
    forall x :: x in buf ==> x in rows
  }

  function Parent(i: nat): nat
    requires i > 0
  {
    (i - 1) / 2
  }

  /** No row sorts above its parent. */
  ghost predicate HeapAt(buf: seq<Hit>, k: nat, fields: seq<SortField>, c: Codec)
    requires 0 < k < |buf|
  {
    !Less(fields, buf[Parent(k)], buf[k], c)
  }

  ghost predicate HeapOk(buf: seq<Hit>, fields: seq<SortField>, c: Codec) {
    forall k :: 0 < k < |buf| ==> HeapAt(buf, k, fields, c)
  }

  lemma {:induction false} RootIsLargest(buf: seq<Hit>, i: nat, fields: seq<SortField>, rows: set<Hit>, c: Codec)
    requires Comparable(fields, rows) && HeapOk(buf, fields, c) && i < |buf|
    requires Within(buf, rows)
    ensures !Less(fields, buf[0], buf[i], c)
  {
    if i == 0 {
      LessTotal(fields, rows, buf[0], buf[0], c);
    } else {
      RootIsLargest(buf, Parent(i), fields, rows, c);
      assert HeapAt(buf, i, fields, c);
      NotLessTransitive(fields, rows, buf[0], buf[Parent(i)], buf[i], c);
    }
  }

  /** `kept` holds the smallest rows of `seen`, as many as fit. */
  ghost predicate Smallest(kept: set<Hit>, seen: set<Hit>, cap: nat, fields: seq<SortField>, c: Codec) {
    && kept <= seen
    && |kept| == (if cap < |seen| then cap else |seen|)
    && (forall x, y :: x in kept && y in seen - kept ==> Less(fields, x, y, c))
  }

  lemma SwapKeeps(buf: seq<Hit>, i: nat, j: nat)
    requires i < |buf| && j < |buf|
    ensures multiset(buf[i := buf[j]][j := buf[i]]) == multiset(buf)
    ensures forall rows :: Within(buf, rows) ==> Within(buf[i := buf[j]][j := buf[i]], rows)
  {
  }

  /** A heap except that the row at `j` may sort above its parent. */
  ghost predicate RisingAt(buf: seq<Hit>, j: nat, fields: seq<SortField>, c: Codec) {
    && (forall k :: 0 < k < |buf| && k != j ==> HeapAt(buf, k, fields, c))
    && (forall k :: 0 < k < |buf| && 0 < j < |buf| && Parent(k) == j ==> !Less(fields, buf[Parent(j)], buf[k], c))
  }

  /** A heap except that the row at `i` may sort below its children. */
  ghost predicate SinkingAt(buf: seq<Hit>, i: nat, fields: seq<SortField>, c: Codec) {
    && (forall k :: 0 < k < |buf| && Parent(k) != i ==> HeapAt(buf, k, fields, c))
    && (forall k :: 0 < k < |buf| && 0 < i < |buf| && Parent(k) == i ==> !Less(fields, buf[Parent(i)], buf[k], c))
  }

  lemma RiseStep(buf: seq<Hit>, j: nat, fields: seq<SortField>, rows: set<Hit>, c: Codec)
    requires Comparable(fields, rows) && Within(buf, rows)
    requires 0 < j < |buf| && RisingAt(buf, j, fields, c) && Less(fields, buf[Parent(j)], buf[j], c)
    ensures RisingAt(buf[Parent(j) := buf[j]][j := buf[Parent(j)]], Parent(j), fields, c)
  {
    hide Less, Comparable;
    var p := Parent(j);
    var r := buf[p := buf[j]][j := buf[p]];
    forall k | 0 < k < |buf| && k != p
      ensures HeapAt(r, k, fields, c)
    {
      if k == j {
        LessTotal(fields, rows, buf[p], buf[j], c);
      } else if Parent(k) == p {
        assert HeapAt(buf, k, fields, c);
        LessTotal(fields, rows, buf[p], buf[j], c);
        NotLessTransitive(fields, rows, buf[j], buf[p], buf[k], c);
      } else if Parent(k) != j {
        assert HeapAt(buf, k, fields, c);
      }
    }
    forall k | 0 < k < |buf| && 0 < p && Parent(k) == p
      ensures !Less(fields, r[Parent(p)], r[k], c)
    {
      assert HeapAt(buf, p, fields, c);
      if k != j {
        assert HeapAt(buf, k, fields, c);
        NotLessTransitive(fields, rows, buf[Parent(p)], buf[p], buf[k], c);
      }
    }
  }

  lemma SinkHeap(buf: seq<Hit>, i: nat, j: nat, k: nat, fields: seq<SortField>, rows: set<Hit>, c: Codec)
    requires Comparable(fields, rows) && Within(buf, rows)
    requires i < j < |buf| && Parent(j) == i && SinkingAt(buf, i, fields, c) && Less(fields, buf[i], buf[j], c)
    requires 0 < k < |buf| && Parent(k) != j && (Parent(k) == i ==> !Less(fields, buf[j], buf[k], c))
    ensures HeapAt(buf[i := buf[j]][j := buf[i]], k, fields, c)
  {
    hide Less, Comparable;
    if Parent(k) == i {
      LessTotal(fields, rows, buf[i], buf[j], c);
    } else if k != i {
      assert HeapAt(buf, k, fields, c);
    }
  }

  lemma SinkStep(buf: seq<Hit>, i: nat, j: nat, fields: seq<SortField>, rows: set<Hit>, c: Codec)
    requires Comparable(fields, rows) && Within(buf, rows)
    requires i < j < |buf| && Parent(j) == i && SinkingAt(buf, i, fields, c) && Less(fields, buf[i], buf[j], c)
    requires forall k :: 0 < k < |buf| && Parent(k) == i ==> !Less(fields, buf[j], buf[k], c)
    ensures SinkingAt(buf[i := buf[j]][j := buf[i]], j, fields, c)
  {
    hide Less, Comparable, Within;
    var r := buf[i := buf[j]][j := buf[i]];
    forall k | 0 < k < |buf| && Parent(k) != j
      ensures HeapAt(r, k, fields, c)
    {
      SinkHeap(buf, i, j, k, fields, rows, c);
    }
    forall k | 0 < k < |buf| && Parent(k) == j
      ensures !Less(fields, r[i], r[k], c)
    {
      assert HeapAt(buf, k, fields, c);
    }
  }

  /** With the larger child not above its parent, nothing sinks any further. */
  lemma SinkDone(buf: seq<Hit>, i: nat, j: nat, fields: seq<SortField>, rows: set<Hit>, c: Codec)
    requires Comparable(fields, rows) && Within(buf, rows)
    requires i < |buf| && SinkingAt(buf, i, fields, c)
    requires i < j < |buf| && Parent(j) == i && !Less(fields, buf[i], buf[j], c)
    requires forall k :: 0 < k < |buf| && Parent(k) == i ==> !Less(fields, buf[j], buf[k], c)
    ensures HeapOk(buf, fields, c)
  {
    forall k | 0 < k < |buf|
      ensures HeapAt(buf, k, fields, c)
    {
      if Parent(k) == i {
        NotLessTransitive(fields, rows, buf[i], buf[j], buf[k], c);
      }
    }
  }

  /** The larger of the two children of `i` is at least both. */
  lemma LargerChild(buf: seq<Hit>, i: nat, j: nat, fields: seq<SortField>, rows: set<Hit>, c: Codec)
    requires Comparable(fields, rows) && Within(buf, rows)
    requires 2 * i + 1 < |buf|
    requires
      var j1, j2 := 2 * i + 1, 2 * i + 2;
      j == if j2 < |buf| && Less(fields, buf[j1], buf[j2], c) then j2 else j1
    ensures forall k :: 0 < k < |buf| && Parent(k) == i ==> !Less(fields, buf[j], buf[k], c)
  {
    forall k | 0 < k < |buf| && Parent(k) == i
      ensures !Less(fields, buf[j], buf[k], c)
    {
      assert k == 2 * i + 1 || k == 2 * i + 2;
      LessTotal(fields, rows, buf[j], buf[k], c);
    }
  }

  lemma SinkBottom(buf: seq<Hit>, i: nat, fields: seq<SortField>, c: Codec)
    requires SinkingAt(buf, i, fields, c) && 2 * i + 1 >= |buf|
    ensures HeapOk(buf, fields, c)
  {
  }

  lemma KeptWithin(buf: seq<Hit>, kept: set<Hit>, rows: set<Hit>)
    requires multiset(buf) == multiset(kept) && kept <= rows
    ensures Within(buf, rows) && |buf| == |kept|
  {
    forall x | x in buf
      ensures x in kept
    {
      assert x in multiset(buf);
    }
    assert |multiset(buf)| == |multiset(kept)|;
  }

  lemma KeptSize(kept: set<Hit>, seen: set<Hit>, cap: nat, fields: seq<SortField>, c: Codec)
    requires Smallest(kept, seen, cap, fields, c)
    ensures |kept| <= cap
  {
  }

  lemma PushNone(kept: set<Hit>, seen: set<Hit>, r: Hit, fields: seq<SortField>, c: Codec)
    requires Smallest(kept, seen, 0, fields, c)
    ensures Smallest(kept, seen + {r}, 0, fields, c)
  {
  }

  /** With room to spare everything seen is kept, and so is the next row. */
  lemma PushRoom(buf: seq<Hit>, r: Hit, kept: set<Hit>, seen: set<Hit>, cap: nat, fields: seq<SortField>, c: Codec)
    requires multiset(buf) == multiset(kept) && Smallest(kept, seen, cap, fields, c) && HeapOk(buf, fields, c)
    requires |kept| < cap && r !in seen
    ensures multiset(buf + [r]) == multiset(kept + {r}) && Smallest(kept + {r}, seen + {r}, cap, fields, c)
    ensures RisingAt(buf + [r], |buf|, fields, c)
  {
    SubsetSize(kept, seen);
    forall k | 0 < k < |buf|
      ensures HeapAt(buf + [r], k, fields, c)
    {
      assert HeapAt(buf, k, fields, c);
    }
  }

  lemma {:induction false} SubsetSize(a: set<Hit>, b: set<Hit>)
    requires a <= b && |a| == |b|
    ensures a == b
  {
    assert b == a + (b - a);
  }

  /** A row below the root takes its place. */
  lemma PushReplaces(buf: seq<Hit>, r: Hit, kept: set<Hit>, seen: set<Hit>, cap: nat, fields: seq<SortField>, rows: set<Hit>, c: Codec)
    requires Comparable(fields, rows) && seen <= rows && r in rows && r !in seen && |buf| > 0
    requires multiset(buf) == multiset(kept) && Smallest(kept, seen, cap, fields, c) && HeapOk(buf, fields, c)
    requires |kept| == cap && Less(fields, r, buf[0], c)
    ensures multiset(buf[0 := r]) == multiset(kept - {buf[0]} + {r})
    ensures Smallest(kept - {buf[0]} + {r}, seen + {r}, cap, fields, c)
    ensures SinkingAt(buf[0 := r], 0, fields, c)
  {
    var root := buf[0];
    KeptWithin(buf, kept, kept);
    assert root in buf;
    RootTops(buf, kept, fields, rows, c);
    forall x, y | x in kept - {root} + {r} && y in seen - (kept - {root})
      ensures Less(fields, x, y, c)
    {
      if y != root && x == r {
        LessTransitive(fields, rows, r, root, y, c);
      }
    }
    forall k | 0 < k < |buf| && Parent(k) != 0
      ensures HeapAt(buf[0 := r], k, fields, c)
    {
      assert HeapAt(buf, k, fields, c);
    }
  }

  /** Every retained row but the root sorts before it. */
  lemma RootTops(buf: seq<Hit>, kept: set<Hit>, fields: seq<SortField>, rows: set<Hit>, c: Codec)
    requires Comparable(fields, rows) && kept <= rows && multiset(buf) == multiset(kept) && |buf| > 0
    requires HeapOk(buf, fields, c)
    ensures forall x :: x in kept && x != buf[0] ==> Less(fields, x, buf[0], c)
  {
    KeptWithin(buf, kept, rows);
    forall x | x in kept && x != buf[0]
      ensures Less(fields, x, buf[0], c)
    {
      assert x in multiset(buf);
      var i :| 0 <= i < |buf| && buf[i] == x;
      RootIsLargest(buf, i, fields, rows, c);
      assert buf[0] in buf;
      LessTotal(fields, rows, buf[0], x, c);
    }
  }

  /** A row not below the root is left out. */
  lemma PushSkips(buf: seq<Hit>, r: Hit, kept: set<Hit>, seen: set<Hit>, cap: nat, fields: seq<SortField>, rows: set<Hit>, c: Codec)
    requires Comparable(fields, rows) && seen <= rows && r in rows && r !in seen && |buf| > 0
    requires multiset(buf) == multiset(kept) && Smallest(kept, seen, cap, fields, c) && HeapOk(buf, fields, c)
    requires |kept| == cap && !Less(fields, r, buf[0], c)
    ensures Smallest(kept, seen + {r}, cap, fields, c)
  {
    KeptWithin(buf, kept, kept);
    assert buf[0] in buf;
    RootTops(buf, kept, fields, rows, c);
    LessTotal(fields, rows, r, buf[0], c);
    forall x | x in kept
      ensures Less(fields, x, r, c)
    {
      if x != buf[0] {
        LessTransitive(fields, rows, x, buf[0], r, c);
      }
    }
  }

  class TopK {
    const fields: seq<SortField>
    const codec: Codec
    const cap: nat
    var buf: seq<Hit>
    /** Everything pushed, what is retained of it, and a homogeneous result set around both. */
    ghost var seen: set<Hit>
    ghost var kept: set<Hit>
    ghost const rows: set<Hit>

    ghost predicate Valid()
      reads this
    {
      && Comparable(fields, rows) && seen <= rows
      && multiset(buf) == multiset(kept)
      && HeapOk(buf, fields, codec)
      && Smallest(kept, seen, cap, fields, codec)
    }

    constructor (fields: seq<SortField>, codec: Codec, cap: nat, ghost rows: set<Hit>)
      requires Comparable(fields, rows)
      ensures Valid() && seen == {} && this.fields == fields && this.codec == codec && this.cap == cap && this.rows == rows
    {
      this.fields, this.codec, this.cap, this.rows := fields, codec, cap, rows;
      buf, seen, kept := [], {}, {};
    }

    /** Lets the last row rise to its place. */
    method Up()
      requires Comparable(fields, rows) && Within(buf, rows)
      requires |buf| > 0 && RisingAt(buf, |buf| - 1, fields, codec)
      modifies this`buf
      ensures HeapOk(buf, fields, codec) && multiset(buf) == old(multiset(buf))
    {
      var j := |buf| - 1;
      while j > 0 && Less(fields, buf[Parent(j)], buf[j], codec)
        invariant 0 <= j < |buf| == old(|buf|) && multiset(buf) == old(multiset(buf))
        invariant Within(buf, rows)
        invariant RisingAt(buf, j, fields, codec)
      {
        var p := Parent(j);
        RiseStep(buf, j, fields, rows, codec);
        SwapKeeps(buf, p, j);
        buf := buf[p := buf[j]][j := buf[p]];
        j := p;
      }
    }

    /** Lets the root sink to its place. */
    method Down()
      requires Comparable(fields, rows) && Within(buf, rows)
      requires |buf| > 0 && SinkingAt(buf, 0, fields, codec)
      modifies this`buf
      ensures HeapOk(buf, fields, codec) && multiset(buf) == old(multiset(buf))
    {
      hide SinkingAt, HeapOk, Within, Less, Comparable;
      var i := 0;
      while 2 * i + 1 < |buf|
        invariant 0 <= i < |buf| == old(|buf|) && multiset(buf) == old(multiset(buf))
        invariant Within(buf, rows)
        invariant SinkingAt(buf, i, fields, codec)
        decreases |buf| - i
      {
        var j := 2 * i + 1;
        if j + 1 < |buf| && Less(fields, buf[j], buf[j + 1], codec) {
          j := j + 1;
        }
        LargerChild(buf, i, j, fields, rows, codec);
        if !Less(fields, buf[i], buf[j], codec) {
          SinkDone(buf, i, j, fields, rows, codec);
          return;
        }
        SinkStep(buf, i, j, fields, rows, codec);
        SwapKeeps(buf, i, j);
        buf := buf[i := buf[j]][j := buf[i]];
        i := j;
      }
      SinkBottom(buf, i, fields, codec);
    }

    method Grow(r: Hit)
      requires Valid() && r in rows && r !in seen && |buf| < cap
      modifies this
      ensures Valid() && seen == old(seen) + {r}
    {
      assert kept <= seen;
      hide HeapOk, RisingAt, Comparable, Within, Smallest;
      KeptWithin(buf, kept, rows);
      PushRoom(buf, r, kept, seen, cap, fields, codec);
      buf, seen, kept := buf + [r], seen + {r}, kept + {r};
      KeptWithin(buf, kept, rows);
      Up();
    }

    method Replace(r: Hit)
      requires Valid() && r in rows && r !in seen && |buf| == cap > 0 && Less(fields, r, buf[0], codec)
      modifies this
      ensures Valid() && seen == old(seen) + {r}
    {
      assert kept <= seen;
      hide SinkingAt, HeapOk, Less, Comparable, Within, Smallest;
      KeptWithin(buf, kept, rows);
      PushReplaces(buf, r, kept, seen, cap, fields, rows, codec);
      buf, seen, kept := buf[0 := r], seen + {r}, kept - {buf[0]} + {r};
      KeptWithin(buf, kept, rows);
      Down();
    }

    method Push(r: Hit)
      requires Valid() && r in rows && r !in seen
      modifies this
      ensures Valid() && seen == old(seen) + {r}
    {
      assert kept <= seen;
      hide HeapOk, Less, Comparable, Smallest;
      KeptWithin(buf, kept, rows);
      KeptSize(kept, seen, cap, fields, codec);
      if cap <= 0 {
        PushNone(kept, seen, r, fields, codec);
        seen := seen + {r};
      } else if |buf| < cap {
        Grow(r);
      } else if Less(fields, r, buf[0], codec) {
        Replace(r);
      } else {
        PushSkips(buf, r, kept, seen, cap, fields, rows, codec);
        seen := seen + {r};
      }
    }
  }

  // ----- sorting ----------------------------------------------------------------------------------------

  ghost predicate SortedBy(s: seq<Hit>, fields: seq<SortField>, c: Codec) {
    forall i, j :: 0 <= i < j < |s| ==> Less(fields, s[i], s[j], c)
  }

  lemma SortedInOrder(s: seq<Hit>, fields: seq<SortField>, c: Codec)
    ensures SortedBy(s, fields, c) <==> InOrder(s, fields, c)
  {
    hide Less, Precedes;
    forall i, j | 0 <= i < j < |s|
      ensures Less(fields, s[i], s[j], c) <==> Precedes(fields, s[i], s[j], c)
    {
      LessIsPrecedes(fields, s[i], s[j], c);
    }
  }

  lemma WindowInOrder(s: seq<Hit>, offset: nat, limit: nat, fields: seq<SortField>, c: Codec)
    requires InOrder(s, fields, c)
    ensures InOrder(Window(s, offset, limit), fields, c)
  {
    hide Precedes;
  }

  function Rows(s: seq<Hit>): set<Hit> {
    set h | h in s
  }

  function Inserted(s: seq<Hit>, h: Hit, fields: seq<SortField>, c: Codec): seq<Hit> {
    if s == [] || Less(fields, h, s[0], c) then [h] + s
    else [s[0]] + Inserted(s[1..], h, fields, c)
  }

  /** The full sort of a result set. */
  function FullSort(rows: seq<Hit>, fields: seq<SortField>, c: Codec): seq<Hit> {
    if rows == [] then [] else Inserted(FullSort(rows[1..], fields, c), rows[0], fields, c)
  }

  ghost predicate Distinct(s: seq<Hit>) {
    forall i, j :: 0 <= i < j < |s| ==> s[i] != s[j]
  }

  lemma {:induction false} InsertedSorts(s: seq<Hit>, h: Hit, fields: seq<SortField>, rows: set<Hit>, c: Codec)
    requires Comparable(fields, rows) && Within(s, rows) && h in rows && h !in s && SortedBy(s, fields, c)
    ensures
      var r := Inserted(s, h, fields, c);
      SortedBy(r, fields, c) && |r| == |s| + 1 && forall x :: x in r <==> x in s || x == h
  {
    if s == [] {
    } else if Less(fields, h, s[0], c) {
      forall i | 0 < i < |s|
        ensures Less(fields, h, s[i], c)
      {
        LessTransitive(fields, rows, h, s[0], s[i], c);
      }
    } else {
      LessTotal(fields, rows, h, s[0], c);
      InsertedSorts(s[1..], h, fields, rows, c);
      var t := Inserted(s[1..], h, fields, c);
      assert s == [s[0]] + s[1..];
      forall i | 0 <= i < |t|
        ensures Less(fields, s[0], t[i], c)
      {
        assert t[i] in t;
      }
    }
  }

  lemma FirstRow(rows: seq<Hit>, fields: seq<SortField>)
    requires rows != [] && Comparable(fields, Rows(rows)) && Distinct(rows)
    ensures Comparable(fields, Rows(rows[1..])) && Distinct(rows[1..])
    ensures rows[0] in Rows(rows) && rows[0] !in rows[1..] && Rows(rows) == Rows(rows[1..]) + {rows[0]}
  {
    hide Alike;
    assert rows == [rows[0]] + rows[1..];
    assert Rows(rows[1..]) <= Rows(rows);
  }

  lemma RowsMembers(s: seq<Hit>, rows: set<Hit>)
    ensures forall x :: x in s <==> x in Rows(s)
    ensures Rows(s) <= rows ==> Within(s, rows)
  {
  }

  lemma {:induction false} FullSortOk(rows: seq<Hit>, fields: seq<SortField>, c: Codec)
    requires Comparable(fields, Rows(rows)) && Distinct(rows)
    ensures
      var r := FullSort(rows, fields, c);
      SortedBy(r, fields, c) && InOrder(r, fields, c) && |r| == |rows| && Rows(r) == Rows(rows)
  {
    hide Less, Precedes, InOrder;
    if rows != [] {
      FirstRow(rows, fields);
      var t := FullSort(rows[1..], fields, c);
      var r := Inserted(t, rows[0], fields, c);
      assert FullSort(rows, fields, c) == r;
      hide Comparable, Distinct, SortedBy, Within, Rows, FullSort, Inserted;
      FullSortOk(rows[1..], fields, c);
      RowsMembers(t, Rows(rows));
      RowsMembers(r, Rows(rows));
      RowsMembers(rows[1..], Rows(rows));
      InsertedSorts(t, rows[0], fields, Rows(rows), c);
      assert Rows(r) == Rows(rows);
    }
    SortedInOrder(FullSort(rows, fields, c), fields, c);
  }

  lemma NoRows(s: seq<Hit>)
    ensures Rows(s) == {} <==> s == []
  {
    if s != [] {
      assert s[0] in Rows(s);
    }
  }

  /** There is only one sorted arrangement of a result set. */
  lemma {:induction false} SortedUnique(a: seq<Hit>, b: seq<Hit>, fields: seq<SortField>, rows: set<Hit>, c: Codec)
    requires Comparable(fields, rows) && Within(a, rows)
    requires SortedBy(a, fields, c) && SortedBy(b, fields, c) && Rows(a) == Rows(b)
    ensures a == b
  {
    if a == [] || b == [] {
      NoRows(a);
      NoRows(b);
    } else {
      assert a[0] in Rows(b) && b[0] in Rows(a);
      LessTotal(fields, rows, a[0], b[0], c);
      assert a[0] == b[0];
      TailRows(a, fields, rows, c);
      TailRows(b, fields, rows, c);
      SortedUnique(a[1..], b[1..], fields, rows, c);
      assert a == [a[0]] + a[1..] && b == [b[0]] + b[1..];
    }
  }

  lemma TailRows(s: seq<Hit>, fields: seq<SortField>, rows: set<Hit>, c: Codec)
    requires Comparable(fields, rows) && Rows(s) <= rows && SortedBy(s, fields, c) && s != []
    ensures Rows(s[1..]) == Rows(s) - {s[0]}
  {
    assert s == [s[0]] + s[1..];
    assert s[0] in Rows(s);
    LessTotal(fields, rows, s[0], s[0], c);
    forall i | 0 < i < |s|
      ensures s[i] != s[0]
    {
      assert Less(fields, s[0], s[i], c);
    }
  }

  lemma {:induction false} SortedSize(s: seq<Hit>, fields: seq<SortField>, rows: set<Hit>, c: Codec)
    requires Comparable(fields, rows) && Rows(s) <= rows && SortedBy(s, fields, c)
    ensures |Rows(s)| == |s|
  {
    if s != [] {
      TailRows(s, fields, rows, c);
      assert s[0] in Rows(s);
      SortedSize(s[1..], fields, rows, c);
    }
  }

  /** What the heap keeps is a prefix of the full sort. */
  lemma SmallestIsPrefix(kept: set<Hit>, full: seq<Hit>, cap: nat, fields: seq<SortField>, c: Codec)
    requires Comparable(fields, Rows(full)) && SortedBy(full, fields, c)
    requires Smallest(kept, Rows(full), cap, fields, c)
    ensures kept == Rows(full[..if cap < |full| then cap else |full|])
  {
    var m := if cap < |full| then cap else |full|;
    var front := Rows(full[..m]);
    SortedSize(full, fields, Rows(full), c);
    SortedSize(full[..m], fields, Rows(full), c);
    if kept <= front {
      SubsetSize(kept, front);
    } else {
      var x :| x in kept && x !in front;
      if front <= kept {
        SubsetSize(front, kept);
      } else {
        var y :| y in front && y !in kept;
        forall k | 0 <= k < m
          ensures full[k] != x
        {
          assert full[..m][k] in front;
        }
        var i :| 0 <= i < |full| && full[i] == x;
        var j :| 0 <= j < m && full[..m][j] == y;
        assert Less(fields, full[j], full[i], c) && full[j] == y;
        LessTotal(fields, Rows(full), x, y, c);
      }
    }
  }

  // ----- page tokens ------------------------------------------------------------------------------------

  /** A decoded page token: the sort keys and the id of the last row of the page before. */
  datatype Cursor = Cursor(keys: seq<Value>, id: nat)

  function CursorOf(h: Hit, fields: seq<SortField>): Cursor {
    Cursor(seq(|fields|, i requires 0 <= i < |fields| => KeyOf(h, fields[i].field)), h.id)
  }

  function BoundaryData(fields: seq<SortField>, keys: seq<Value>): Data
    requires |fields| == |keys|
  {
    if fields == [] then map[]
    else
      var n := |fields| - 1;
      BoundaryData(fields[..n], keys[..n])[fields[n].field := keys[n]]
  }

  /** The row a token stands for, as far as the ordering can tell. */
  function Boundary(cur: Cursor, fields: seq<SortField>): Hit
    requires |fields| == |cur.keys|
  {
    Hit(cur.id, 0, BoundaryData(fields, cur.keys))
  }

  lemma {:induction false} BoundaryKeys(fields: seq<SortField>, keys: seq<Value>, h: Hit, i: nat)
    requires |keys| == |fields| && i < |fields|
    requires forall j :: 0 <= j < |fields| ==> keys[j] == KeyOf(h, fields[j].field)
    ensures fields[i].field in BoundaryData(fields, keys)
    ensures BoundaryData(fields, keys)[fields[i].field] == KeyOf(h, fields[i].field)
  {
    var n := |fields| - 1;
    if fields[i].field != fields[n].field {
      BoundaryKeys(fields[..n], keys[..n], h, i);
    }
  }

  lemma {:induction false} SameKeysSameCmp(fields: seq<SortField>, a: Hit, b: Hit, x: Hit, c: Codec)
    requires forall i :: 0 <= i < |fields| ==> KeyOf(a, fields[i].field) == KeyOf(b, fields[i].field)
    ensures Cmp(fields, a, x, c) == Cmp(fields, b, x, c)
  {
    if fields != [] {
      assert KeyOf(a, fields[0].field) == KeyOf(b, fields[0].field);
      forall i | 0 <= i < |fields[1..]|
        ensures KeyOf(a, fields[1..][i].field) == KeyOf(b, fields[1..][i].field)
      {
        assert fields[1..][i] == fields[i + 1];
      }
      SameKeysSameCmp(fields[1..], a, b, x, c);
    }
  }

  /** A token resumes exactly where the row it was made from stands. */
  lemma TokenRoundTrip(h: Hit, x: Hit, fields: seq<SortField>, c: Codec)
    ensures Less(fields, Boundary(CursorOf(h, fields), fields), x, c) <==> Less(fields, h, x, c)
    ensures AfterToken(Some(CursorOf(h, fields)), x, fields, c) <==> Precedes(fields, h, x, c)
  {
    LessIsPrecedes(fields, h, x, c);
    var b := Boundary(CursorOf(h, fields), fields);
    forall i | 0 <= i < |fields|
      ensures KeyOf(b, fields[i].field) == KeyOf(h, fields[i].field)
    {
      BoundaryKeys(fields, CursorOf(h, fields).keys, h, i);
    }
    SameKeysSameCmp(fields, b, h, x, c);
  }

  predicate AfterToken(token: Option<Cursor>, h: Hit, fields: seq<SortField>, c: Codec)
    requires token.Some? ==> |token.value.keys| == |fields|
  {
    token.None? || Less(fields, Boundary(token.value, fields), h, c)
  }

  /** The pageable rows: those strictly after the token. */
  function Pageable(rows: seq<Hit>, token: Option<Cursor>, fields: seq<SortField>, c: Codec): seq<Hit>
    requires token.Some? ==> |token.value.keys| == |fields|
  {
    if rows == [] then []
    else
      var n := |rows| - 1;
      var front := Pageable(rows[..n], token, fields, c);
      if AfterToken(token, rows[n], fields, c) then front + [rows[n]] else front
  }

  lemma {:induction false} PageableRows(rows: seq<Hit>, token: Option<Cursor>, fields: seq<SortField>, c: Codec)
    requires token.Some? ==> |token.value.keys| == |fields|
    requires Distinct(rows)
    ensures
      var u := Pageable(rows, token, fields, c);
      && Distinct(u) && Rows(u) <= Rows(rows)
      && (forall h :: h in u <==> h in rows && AfterToken(token, h, fields, c))
  {
    if rows != [] {
      var n := |rows| - 1;
      PageableRows(rows[..n], token, fields, c);
      assert rows == rows[..n] + [rows[n]];
      var u := Pageable(rows[..n], token, fields, c);
      assert forall k :: 0 <= k < n ==> rows[..n][k] != rows[n];
      assert forall i :: 0 <= i < |u| ==> u[i] in rows[..n];
    }
  }

  /** The part of a sorted result that offset and limit select; a zero limit means no limit. */
  function Window(s: seq<Hit>, offset: nat, limit: nat): seq<Hit> {
    if offset >= |s| then []
    else if limit > 0 && limit < |s| - offset then s[offset..offset + limit]
    else s[offset..]
  }

  function Limited(s: seq<Hit>, limit: nat): seq<Hit> {
    if limit > 0 && limit < |s| then s[..limit] else s
  }

  /** One page of an ordered scan over the matching rows, however they arrive. */
  method ScanOrdered(rows: seq<Hit>, fields: seq<SortField>, offset: nat, limit: nat, token: Option<Cursor>, c: Codec)
    returns (page: seq<Hit>, next: Option<Cursor>, ok: bool)
    requires Comparable(fields, Rows(rows)) && Distinct(rows)
    ensures ok <==> (token.Some? ==> |token.value.keys| == |fields|)
    ensures ok ==>
      var u := Pageable(rows, token, fields, c);
      && page == Window(FullSort(u, fields, c), offset, limit)
      && (next.Some? <==> limit > 0 && |page| > 0 && offset + limit < |u|)
      && (next.Some? ==> next.value == CursorOf(page[|page| - 1], fields))
    ensures InOrder(page, fields, c)
  {
    page, next, ok := [], None, true;
    if token.Some? && |token.value.keys| != |fields| {
      return [], None, false;
    }
    PageableRows(rows, token, fields, c);
    ghost var u := Pageable(rows, token, fields, c);
    FullSortOk(u, fields, c);
    SortedInOrder(FullSort(u, fields, c), fields, c);
    WindowInOrder(FullSort(u, fields, c), offset, limit, fields, c);
    hide Precedes, Less;
    var matched: nat;
    if limit > 0 {
      page, matched := CollectTop(rows, fields, offset + limit, token, c);
      TopWindow(u, page, offset, limit, fields, c);
    } else {
      page, matched := CollectAll(rows, fields, token, c);
      page := FullSort(page, fields, c);
    }
    page := Limited(if offset < |page| then page[offset..] else [], limit);
    if limit > 0 && |page| > 0 && matched > offset + limit {
      next := Some(CursorOf(page[|page| - 1], fields));
    }
  }

  method CollectAll(rows: seq<Hit>, fields: seq<SortField>, token: Option<Cursor>, c: Codec)
    returns (page: seq<Hit>, matched: nat)
    requires token.Some? ==> |token.value.keys| == |fields|
    ensures page == Pageable(rows, token, fields, c) && matched == |page|
  {
    page, matched := [], 0;
    for i := 0 to |rows|
      invariant page == Pageable(rows[..i], token, fields, c) && matched == |page|
    {
      assert rows[..i + 1][..i] == rows[..i];
      if AfterToken(token, rows[i], fields, c) {
        matched, page := matched + 1, page + [rows[i]];
      }
    }
    assert rows[..|rows|] == rows;
  }

  /** Keeps only the smallest `cap` pageable rows, in order. */
  method CollectTop(rows: seq<Hit>, fields: seq<SortField>, cap: nat, token: Option<Cursor>, c: Codec)
    returns (page: seq<Hit>, matched: nat)
    requires token.Some? ==> |token.value.keys| == |fields|
    requires Comparable(fields, Rows(rows)) && Distinct(rows)
    ensures matched == |Pageable(rows, token, fields, c)|
    ensures
      var full := FullSort(Pageable(rows, token, fields, c), fields, c);
      page == full[..if cap < |full| then cap else |full|]
  {
    hide Comparable, Distinct, Pageable, AfterToken, TopK.Valid;
    var heap := new TopK(fields, c, cap, Rows(rows));
    matched := 0;
    PageableNone(rows, token, fields, c);
    for i := 0 to |rows|
      invariant heap.Valid() && fresh(heap)
      invariant heap.fields == fields && heap.codec == c && heap.cap == cap && heap.rows == Rows(rows)
      invariant heap.seen == Rows(Pageable(rows[..i], token, fields, c))
      invariant matched == |Pageable(rows[..i], token, fields, c)|
    {
      PageableStep(rows, i, token, fields, c);
      if AfterToken(token, rows[i], fields, c) {
        matched := matched + 1;
        heap.Push(rows[i]);
      }
    }
    assert rows[..|rows|] == rows;
    page := Drain(heap, Pageable(rows, token, fields, c), token, rows);
  }

  lemma PageableNone(rows: seq<Hit>, token: Option<Cursor>, fields: seq<SortField>, c: Codec)
    requires token.Some? ==> |token.value.keys| == |fields|
    ensures Pageable(rows[..0], token, fields, c) == []
  {
  }

  lemma PageableStep(rows: seq<Hit>, i: nat, token: Option<Cursor>, fields: seq<SortField>, c: Codec)
    requires token.Some? ==> |token.value.keys| == |fields|
    requires Distinct(rows) && i < |rows|
    ensures
      var u, w := Pageable(rows[..i], token, fields, c), Pageable(rows[..i + 1], token, fields, c);
      && rows[i] in Rows(rows) && rows[i] !in Rows(u)
      && (if AfterToken(token, rows[i], fields, c) then Rows(w) == Rows(u) + {rows[i]} && |w| == |u| + 1 else w == u)
  {
    assert rows[..i + 1][..i] == rows[..i];
    PageableRows(rows[..i], token, fields, c);
    assert forall k :: 0 <= k < i ==> rows[..i][k] != rows[i];
  }

  /** The retained rows in ascending order. */
  method Drain(heap: TopK, ghost u: seq<Hit>, ghost token: Option<Cursor>, ghost rows: seq<Hit>) returns (page: seq<Hit>)
    requires heap.Valid() && heap.rows == Rows(rows) && Distinct(rows)
    requires token.Some? ==> |token.value.keys| == |heap.fields|
    requires u == Pageable(rows, token, heap.fields, heap.codec) && heap.seen == Rows(u)
    ensures
      var full := FullSort(u, heap.fields, heap.codec);
      page == full[..if heap.cap < |full| then heap.cap else |full|]
  {
    page := FullSort(heap.buf, heap.fields, heap.codec);
    PageableRows(rows, token, heap.fields, heap.codec);
    HeapDrains(heap.buf, heap.kept, u, heap.cap, heap.fields, heap.rows, heap.codec);
  }

  lemma HeapDrains(buf: seq<Hit>, kept: set<Hit>, u: seq<Hit>, cap: nat, fields: seq<SortField>, rows: set<Hit>, c: Codec)
    requires Comparable(fields, rows) && Rows(u) <= rows && Distinct(u)
    requires multiset(buf) == multiset(kept) && Smallest(kept, Rows(u), cap, fields, c)
    ensures
      var full := FullSort(u, fields, c);
      FullSort(buf, fields, c) == full[..if cap < |full| then cap else |full|]
  {
    hide Less, Precedes, InOrder, Alike, FullSort;
    var full := FullSort(u, fields, c);
    var front := full[..if cap < |full| then cap else |full|];
    FullSortOk(u, fields, c);
    SmallestIsPrefix(kept, full, cap, fields, c);
    KeptDistinct(buf, kept);
    FullSortOk(buf, fields, c);
    SortedUnique(FullSort(buf, fields, c), front, fields, rows, c);
  }

  lemma KeptDistinct(buf: seq<Hit>, kept: set<Hit>)
    requires multiset(buf) == multiset(kept)
    ensures Distinct(buf) && Rows(buf) == kept
  {
    forall x
      ensures x in buf <==> x in kept
    {
      assert x in multiset(buf) <==> x in buf;
    }
    forall i, j | 0 <= i < j < |buf|
      ensures buf[i] != buf[j]
    {
      assert buf == buf[..i] + [buf[i]] + buf[i + 1..j] + [buf[j]] + buf[j + 1..];
      assert multiset(buf)[buf[i]] <= 1;
    }
  }

  lemma TopWindow(u: seq<Hit>, page: seq<Hit>, offset: nat, limit: nat, fields: seq<SortField>, c: Codec)
    requires limit > 0
    requires
      var full := FullSort(u, fields, c);
      page == full[..if offset + limit < |full| then offset + limit else |full|]
    ensures
      var rest := if offset < |page| then page[offset..] else [];
      Limited(rest, limit) == Window(FullSort(u, fields, c), offset, limit)
  {
  }

  // ----- following tokens ------------------------------------------------------------------------------

  /** The token under which the next page starts at position `p` of the full sort. */
  ghost predicate TokenAt(token: Option<Cursor>, full: seq<Hit>, p: nat, fields: seq<SortField>) {
    if token.None? then p == 0 else 0 < p < |full| && token.value == CursorOf(full[p - 1], fields)
  }

  /** The pageable rows under that token are the rest of the sort. */
  lemma ResumesAt(rows: seq<Hit>, token: Option<Cursor>, p: nat, fields: seq<SortField>, c: Codec)
    requires Comparable(fields, Rows(rows)) && Distinct(rows)
    requires TokenAt(token, FullSort(rows, fields, c), p, fields)
    ensures
      var full := FullSort(rows, fields, c);
      var u := Pageable(rows, token, fields, c);
      p <= |full| && FullSort(u, fields, c) == full[p..] && |u| == |full| - p
  {
    var full := FullSort(rows, fields, c);
    var u := Pageable(rows, token, fields, c);
    FullSortOk(rows, fields, c);
    PageableRows(rows, token, fields, c);
    FullSortOk(u, fields, c);
    if token.None? {
      PageableAll(rows, fields, c);
    } else {
      forall h
        ensures h in u <==> h in full[p..]
      {
        assert h in rows <==> h in Rows(full);
        TokenRoundTrip(full[p - 1], h, fields, c);
        AfterIsRest(full, p, h, fields, c);
      }
      SortedUnique(FullSort(u, fields, c), full[p..], fields, Rows(rows), c);
    }
  }

  lemma AfterIsRest(full: seq<Hit>, p: nat, h: Hit, fields: seq<SortField>, c: Codec)
    requires Comparable(fields, Rows(full)) && SortedBy(full, fields, c) && 0 < p <= |full|
    ensures h in full[p..] <==> h in full && Less(fields, full[p - 1], h, c)
  {
    if h in full {
      var i :| 0 <= i < |full| && full[i] == h;
      assert full[p - 1] in Rows(full);
      LessTotal(fields, Rows(full), full[p - 1], h, c);
      if i >= p {
        assert full[p..][i - p] == h;
      } else {
        forall k | p <= k < |full|
          ensures full[k] != h
        {
          assert Less(fields, full[i], full[k], c);
          LessTotal(fields, Rows(full), full[i], full[i], c);
        }
      }
    }
  }

  lemma TokenKeys(token: Option<Cursor>, full: seq<Hit>, p: nat, fields: seq<SortField>)
    requires TokenAt(token, full, p, fields)
    ensures token.Some? ==> |token.value.keys| == |fields|
  {
  }

  /** One page moves on by its rows; without a token it was the last one. */
  lemma PageMoves(full: seq<Hit>, p: nat, page: seq<Hit>, next: Option<Cursor>, limit: nat, fields: seq<SortField>)
    requires p <= |full| && page == Window(full[p..], 0, limit) && limit > 0
    requires next.Some? <==> |page| > 0 && limit < |full| - p
    requires next.Some? ==> next.value == CursorOf(page[|page| - 1], fields)
    ensures p + |page| <= |full| && full[..p] + page == full[..p + |page|]
    ensures if next.Some? then |page| > 0 && TokenAt(next, full, p + |page|, fields) else p + |page| == |full|
  {
    hide Window, CursorOf;
    PageExtends(full, p, page, limit);
  }

  /** Following the tokens from the first page ends, and the pages together are the full sort. */
  method FollowPages(rows: seq<Hit>, fields: seq<SortField>, limit: nat, c: Codec) returns (all: seq<Hit>)
    requires Comparable(fields, Rows(rows)) && Distinct(rows) && limit > 0
    ensures all == FullSort(rows, fields, c)
    ensures InOrder(all, fields, c) && |all| == |rows| && Rows(all) == Rows(rows)
  {
    ghost var full := FullSort(rows, fields, c);
    FullSortOk(rows, fields, c);
    SortedInOrder(full, fields, c);
    var token: Option<Cursor> := None;
    assert TokenAt(token, full, 0, fields);
    hide Comparable, Distinct, FullSort, Pageable, SortedBy, InOrder, Rows, Window, TokenAt, CursorOf;
    all := [];
    var more := true;
    while more
      invariant |all| <= |full| && all == full[..|all|]
      invariant if more then TokenAt(token, full, |all|, fields) else |all| == |full|
      decreases more, |full| - |all|
    {
      ghost var p := |all|;
      TokenKeys(token, full, p, fields);
      ResumesAt(rows, token, p, fields, c);
      var page, next, ok := ScanOrdered(rows, fields, 0, limit, token, c);
      PageMoves(full, p, page, next, limit, fields);
      all := all + page;
      token, more := next, next.Some?;
    }
  }

  lemma PageExtends(full: seq<Hit>, p: nat, page: seq<Hit>, limit: nat)
    requires p <= |full| && page == Window(full[p..], 0, limit) && limit > 0
    ensures p + |page| <= |full| && full[..p] + page == full[..p + |page|]
    ensures |full| - p > limit ==> |page| == limit
    ensures |full| - p <= limit ==> p + |page| == |full|
    ensures |page| > 0 ==> page[|page| - 1] == full[p + |page| - 1]
  {
  }

  lemma {:induction false} PageableAll(rows: seq<Hit>, fields: seq<SortField>, c: Codec)
    ensures Pageable(rows, None, fields, c) == rows
  {
    if rows != [] {
      PageableAll(rows[..|rows| - 1], fields, c);
    }
  }
}
