/** Files of newline-terminated lines. */
module Lines {
  /** The records of a file, each written as one line. */
  function Body<T>(xs: seq<T>, enc: T -> string): string {
    if xs == [] then "" else enc(xs[0]) + "\n" + Body(xs[1..], enc)
  }

  /** Every record is written without a newline of its own. */
  ghost predicate OneLine<T>(xs: seq<T>, enc: T -> string) {
    forall i :: 0 <= i < |xs| ==> '\n' !in enc(xs[i])
  }

  lemma OneLineRest<T>(xs: seq<T>, enc: T -> string)
    requires OneLine(xs, enc) && xs != []
    ensures OneLine(xs[1..], enc) && '\n' !in enc(xs[0])
  {
    assert forall i :: 0 <= i < |xs[1..]| ==> xs[1..][i] == xs[i + 1];
  }

  /** The position of the first newline, or the length. */
  function LineEnd(s: string): (i: nat)
    ensures i <= |s| && '\n' !in s[..i] && (i < |s| ==> s[i] == '\n')
  {
    if s == "" || s[0] == '\n' then 0 else 1 + LineEnd(s[1..])
  }

  lemma {:induction false} LineEndIs(a: string, b: string)
    requires '\n' !in a
    ensures LineEnd(a + "\n" + b) == |a| == LineEnd(a)
    ensures (a + "\n" + b)[..|a|] == a && (a + "\n" + b)[|a| + 1..] == b
  {
    if a != "" {
      assert a == [a[0]] + a[1..];
      assert (a + "\n" + b)[1..] == a[1..] + "\n" + b;
      LineEndIs(a[1..], b);
    }
  }

  lemma BodyHead<T>(xs: seq<T>, enc: T -> string)
    requires xs != []
    ensures Body(xs, enc) == (enc(xs[0]) + "\n") + Body(xs[1..], enc)
  {
  }

  /** How many whole records the first `n` bytes of a body hold. */
  function WholeIn<T>(xs: seq<T>, n: nat, enc: T -> string): (m: nat)
    ensures m <= |xs|
  {
    if xs == [] || n < |enc(xs[0])| + 1 then 0 else 1 + WholeIn(xs[1..], n - |enc(xs[0])| - 1, enc)
  }

  /** A cut body is its whole records and a piece of the next line. */
  lemma {:induction false} CutBody<T>(xs: seq<T>, n: nat, enc: T -> string)
    requires OneLine(xs, enc) && n <= |Body(xs, enc)|
    ensures
      var m := WholeIn(xs, n, enc);
      && |Body(xs[..m], enc)| <= n && Body(xs, enc)[..n] == Body(xs[..m], enc) + Body(xs, enc)[|Body(xs[..m], enc)|..n]
      && '\n' !in Body(xs, enc)[|Body(xs[..m], enc)|..n]
  {
    if xs == [] || n < |enc(xs[0])| + 1 {
      assert xs[..0] == [];
      assert '\n' !in Body(xs, enc)[..n] by {
        if xs != [] {
          assert Body(xs, enc)[..n] == enc(xs[0])[..n];
        }
      }
    } else {
      var line := enc(xs[0]) + "\n";
      var k := n - |line|;
      var m := WholeIn(xs[1..], k, enc);
      assert Body(xs, enc) == line + Body(xs[1..], enc);
      OneLineRest(xs, enc);
      CutBody(xs[1..], k, enc);
      assert xs[..m + 1][0] == xs[0] && xs[..m + 1][1..] == xs[1..][..m];
      assert Body(xs[..m + 1], enc) == line + Body(xs[1..][..m], enc);
      hide Body, OneLine;
      CutJoin(line, Body(xs[1..], enc), Body(xs[1..][..m], enc), k);
    }
  }

  lemma CutJoin(line: string, body: string, whole: string, k: nat)
    requires |whole| <= k <= |body| && body[..k] == whole + body[|whole|..k]
    ensures (line + body)[..|line| + k] == (line + whole) + (line + body)[|line + whole|..|line| + k]
    ensures (line + body)[|line + whole|..|line| + k] == body[|whole|..k]
  {
    assert (line + body)[|line + whole|..|line| + k] == body[|whole|..k];
    assert (line + body)[..|line| + k] == line + body[..k];
  }

  method IndexNewline(data: string, from: nat) returns (i: nat)
    requires from <= |data|
    ensures from <= i <= |data| && i - from == LineEnd(data[from..])
  {
    i := from;
    while i < |data| && data[i] != '\n'
      invariant from <= i <= |data| && LineEnd(data[from..]) == i - from + LineEnd(data[i..])
    {
      assert data[i..][1..] == data[i + 1..];
      i := i + 1;
    }
  }

  lemma SuffixTwice(s: string, a: nat, b: nat)
    requires a + b <= |s|
    ensures s[a..][b..] == s[a + b..]
  {
  }

  lemma {:induction false} BodyAppend<T>(xs: seq<T>, x: T, enc: T -> string)
    ensures Body(xs + [x], enc) == Body(xs, enc) + (enc(x) + "\n")
  {
    if xs == [] {
      assert xs + [x] == [x];
      assert [x][1..] == [];
    } else {
      assert (xs + [x])[1..] == xs[1..] + [x];
      BodyAppend(xs[1..], x, enc);
    }
  }
}
