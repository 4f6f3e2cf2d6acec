/** Sequence helpers shared by the wrapper, the two book encoders and the
    big-book planner: flattening, fixed-size grouping (the `range(0, n, size)`
    slicing idiom of the formatter), and joining/splitting on one separator. */
module Seqs {

  /** Integer ceiling of a / b: the number of b-sized groups needed to hold a items,
      which is the value of Python's `ceil(a / b)` when the division is exact. */
  function CeilDiv(a: nat, b: nat): nat
    requires b > 0
    decreases a
  {
    if a == 0 then 0
    else if a <= b then 1
    else 1 + CeilDiv(a - b, b)
  }

  /** CeilDiv is the least number of b-sized groups that covers a items. */
  lemma {:induction false} CeilDivBounds(a: nat, b: nat)
    requires b > 0
    ensures b * CeilDiv(a, b) >= a
    ensures a > 0 ==> b * (CeilDiv(a, b) - 1) < a
    ensures a == 0 <==> CeilDiv(a, b) == 0
    decreases a
  {
    if a > b {
      CeilDivBounds(a - b, b);
      var c := CeilDiv(a - b, b);
      assert b * (c + 1) == b * c + b;
      assert b * c == b * (c - 1) + b;
    }
  }

  /** Group k exists exactly when it starts before the end. */
  lemma CeilDivBelow(a: nat, b: nat, k: nat)
    requires b > 0
    ensures k < CeilDiv(a, b) <==> k * b < a
  {
    var c := CeilDiv(a, b);
    CeilDivBounds(a, b);
    if k < c {
      assert k * b <= (c - 1) * b;
    } else {
      assert k * b >= c * b;
    }
  }

  /** More items never need fewer groups. */
  lemma {:induction false} CeilDivMonotone(a: nat, m: nat, b: nat)
    requires b > 0 && a <= m
    ensures CeilDiv(a, b) <= CeilDiv(m, b)
    decreases m
  {
    if a > b {
      CeilDivMonotone(a - b, m - b, b);
    }
  }

  /** Adding k whole groups of b items adds k to the ceiling. */
  lemma {:induction false} CeilDivShift(a: nat, k: nat, b: nat)
    requires b > 0
    ensures CeilDiv(a + k * b, b) == CeilDiv(a, b) + k
    decreases k
  {
    if k > 0 {
      CeilDivShift(a, k - 1, b);
      var x := a + (k - 1) * b;
      assert a + k * b == x + b;
      assert CeilDiv(x + b, b) == CeilDiv(x, b) + 1;
    }
  }

  /** A ceiling of a ceiling is one ceiling over the product of the divisors. */
  lemma {:induction false} NestedCeilDiv(n: nat, a: nat, b: nat)
    requires a > 0 && b > 0
    ensures CeilDiv(CeilDiv(n, a), b) == CeilDiv(n, a * b)
    decreases n
  {
    if n == 0 {
    } else if n <= a * b {
      CeilDivMonotone(n, a * b, a);
      CeilDivShift(0, b, a);
      assert 0 + b * a == a * b;
      assert 1 <= CeilDiv(n, a) <= b;
    } else {
      var m := n - a * b;
      NestedCeilDiv(m, a, b);
      CeilDivShift(m, b, a);
      assert m + b * a == n;
      CeilDivShift(CeilDiv(m, a), 1, b);
    }
  }

  /** Concatenation of a sequence of sequences, in order. */
  function Concat<T>(ss: seq<seq<T>>): seq<T>
  {
    if ss == [] then [] else ss[0] + Concat(ss[1..])
  }

  lemma {:induction false} ConcatAppend<T>(a: seq<seq<T>>, b: seq<seq<T>>)
    ensures Concat(a + b) == Concat(a) + Concat(b)
  {
    if a == [] {
      assert a + b == b;
    } else {
      assert (a + b)[1..] == a[1..] + b;
      ConcatAppend(a[1..], b);
    }
  }

  lemma ConcatSnoc<T>(a: seq<seq<T>>, x: seq<T>)
    ensures Concat(a + [x]) == Concat(a) + x
  {
    ConcatAppend(a, [x]);
    assert Concat([x]) == x + Concat([x][1..]);
  }

  /** Past a known head, the fields of a concatenation are the tail's. */
  lemma ShiftSlice<T>(head: seq<T>, tail: seq<T>, o: nat, len: nat)
    requires o + 1 + len <= |tail|
    ensures (head + tail)[|head| + o] == tail[o]
    ensures (head + tail)[|head| + o + 1 .. |head| + o + 1 + len] == tail[o + 1 .. o + 1 + len]
  {
  }

  /** `s` cut into consecutive groups of `size` items, the last one possibly shorter. */
  function Chunks<T>(s: seq<T>, size: nat): (r: seq<seq<T>>)
    requires size > 0
    ensures |r| == CeilDiv(|s|, size)
    decreases |s|
  {
    if |s| == 0 then []
    else
      var m := Min(size, |s|);
      [s[..m]] + Chunks(s[m..], size)
  }

  /** The groups, put back together in order, are exactly `s`. */
  lemma {:induction false} ChunksConcat<T>(s: seq<T>, size: nat)
    requires size > 0
    ensures Concat(Chunks(s, size)) == s
    decreases |s|
  {
    if |s| > 0 {
      var m := Min(size, |s|);
      ChunksConcat(s[m..], size);
      var r := Chunks(s, size);
      assert r == [s[..m]] + Chunks(s[m..], size);
      assert r[1..] == Chunks(s[m..], size);
      assert s == s[..m] + s[m..];
    }
  }

  /** Group k of `Chunks(s, size)` is `s[k*size : k*size + min(size, len(s) - k*size)]`. */
  lemma {:induction false} ChunkAt<T>(s: seq<T>, size: nat, k: nat)
    requires size > 0 && k < |Chunks(s, size)|
    ensures k * size < |s|
    ensures Chunks(s, size)[k] == s[k * size .. k * size + Min(size, |s| - k * size)]
    decreases k
  {
    var m := Min(size, |s|);
    var rest := s[m..];
    assert Chunks(s, size) == [s[..m]] + Chunks(rest, size);
    if k == 0 {
      assert k * size == 0;
      assert Chunks(s, size)[k] == s[..m];
    } else {
      ChunkAt(rest, size, k - 1);
      var j := (k - 1) * size;
      MulStep(k, size);
      assert m == size;
      var len := Min(size, |rest| - j);
      SliceOfSlice(s, m, j, len);
      assert Chunks(s, size)[k] == rest[j .. j + len];
      assert m + j == k * size && len == Min(size, |s| - k * size);
    }
  }

  lemma MulStep(k: nat, size: nat)
    requires k > 0
    ensures k * size == size + (k - 1) * size
  {
  }

  lemma SliceOfSlice<T>(s: seq<T>, m: nat, j: nat, len: nat)
    requires m + j + len <= |s|
    ensures s[m..][j .. j + len] == s[m + j .. m + j + len]
  {
  }

  function Min(a: int, b: int): int
  {
    if a <= b then a else b
  }

  /** Python's `sep.join(fields)`: the fields with one separator between neighbours. */
  function Join(fields: seq<string>, sep: char): string
  {
    if |fields| == 0 then ""
    else if |fields| == 1 then fields[0]
    else fields[0] + [sep] + Join(fields[1..], sep)
  }

  lemma {:induction false} JoinAppend(a: seq<string>, b: seq<string>, sep: char)
    requires a != [] && b != []
    ensures Join(a + b, sep) == Join(a, sep) + [sep] + Join(b, sep)
  {
    if |a| == 1 {
      assert (a + b)[1..] == b;
    } else {
      assert (a + b)[1..] == a[1..] + b;
      JoinAppend(a[1..], b, sep);
    }
  }

  /** Index of the first `sep` in `s`, or |s| when there is none. */
  function IndexOf(s: string, sep: char): (i: nat)
    ensures i <= |s|
    ensures i < |s| ==> s[i] == sep
    ensures forall j :: 0 <= j < i ==> s[j] != sep
  {
    if |s| == 0 then 0
    else if s[0] == sep then 0
    else 1 + IndexOf(s[1..], sep)
  }

  /** Python's `s.split(sep)` for a one-character separator. */
  function Split(s: string, sep: char): seq<string>
    decreases |s|
  {
    var i := IndexOf(s, sep);
    if i == |s| then [s] else [s[..i]] + Split(s[i + 1..], sep)
  }

  /** Splitting the joined fields gives the fields back when no field holds the separator. */
  lemma {:induction false} SplitJoin(fields: seq<string>, sep: char)
    requires fields != []
    requires forall k :: 0 <= k < |fields| ==> sep !in fields[k]
    ensures Split(Join(fields, sep), sep) == fields
  {
    var s := Join(fields, sep);
    var f := fields[0];
    if |fields| == 1 {
      assert forall j :: 0 <= j < |s| ==> s[j] in f;
    } else {
      assert s == f + [sep] + Join(fields[1..], sep);
      assert s[|f|] == sep;
      assert forall j :: 0 <= j < |f| ==> s[j] in f;
      assert s[..|f|] == f;
      assert s[|f| + 1..] == Join(fields[1..], sep);
      SplitJoin(fields[1..], sep);
    }
  }
}
