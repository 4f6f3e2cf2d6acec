/** The catalog of big-book data templates. The template directory holds files
    named `dat template <pages>.dat`; a name counts when the pattern
    `dat template (\d+)\.dat` matches at its start (a longer name such as
    `dat template 12.dat.bak` still counts), and the captured number is the
    template's page capacity. A book of p pages is copied from the template
    found by `bisect_left` on the sorted capacities, the smallest one >= p,
    opened under the name `dat template <capacity>.dat` rebuilt from it. */
module Templates {
  import opened Text
  import opened Wrappers

  const Prefix: string := "dat template "
  const Suffix: string := ".dat"

  /** Number of ASCII digits at the start of `s`. */
  function DigitRun(s: string): (d: nat)
    ensures d <= |s|
    ensures AllDigits(s[..d])
    ensures d < |s| ==> !IsDigit(s[d])
  {
    if |s| == 0 || !IsDigit(s[0]) then 0
    else
      var d := 1 + DigitRun(s[1..]);
      assert s[..d] == [s[0]] + s[1..][..d - 1];
      d
  }

  /** `reDatTemplateFilename.match(name)`: the captured size when `name` starts
      with `dat template `, one or more digits and `.dat`. */
  function MatchTemplateName(name: string): Option<nat>
  {
    if |name| < |Prefix| || name[..|Prefix|] != Prefix then None
    else
      var rest := name[|Prefix|..];
      var d := DigitRun(rest);
      if d == 0 || |rest| < d + |Suffix| || rest[d..d + |Suffix|] != Suffix then None
      else Some(ParseDigits(rest[..d]))
  }

  /** A name matches only when it has the shape `dat template <digits>.dat<tail>`,
      and the captured size is the value of those digits; `MatchOfShape` is the
      converse. */
  lemma MatchShape(name: string)
    requires MatchTemplateName(name).Some?
    ensures exists digits, tail ::
              0 < |digits| && AllDigits(digits) && name == Prefix + digits + Suffix + tail &&
              MatchTemplateName(name).value == ParseDigits(digits)
  {
    var rest := name[|Prefix|..];
    var d := DigitRun(rest);
    assert name == Prefix + rest[..d] + Suffix + rest[d + |Suffix|..];
  }

  /** `'dat template %s.dat' % size`: the file a template of `size` pages is
      copied from. */
  function TemplateFileName(size: nat): string
  {
    Prefix + NatToString(size) + Suffix
  }

  /** The pattern matches a copied template's name back to its size. */
  lemma TemplateFileNameMatches(size: nat)
    ensures MatchTemplateName(TemplateFileName(size)) == Some(size)
  {
    assert TemplateFileName(size) == Prefix + NatToString(size) + Suffix + [];
    MatchOfShape(NatToString(size), []);
    ParseNatToString(size);
  }

  lemma {:induction false} DigitRunStops(digits: string, t: string)
    requires AllDigits(digits)
    requires t == [] || !IsDigit(t[0])
    ensures DigitRun(digits + t) == |digits|
    decreases |digits|
  {
    if digits != [] {
      assert (digits + t)[1..] == digits[1..] + t;
      DigitRunStops(digits[1..], t);
    } else {
      assert digits + t == t;
    }
  }

  /** How the matcher sees a name of the shape `dat template <digits>.dat<tail>`. */
  lemma ShapeParts(digits: string, tail: string)
    requires 0 < |digits| && AllDigits(digits)
    ensures var name := Prefix + digits + Suffix + tail;
      var rest := digits + (Suffix + tail);
      |name| >= |Prefix| && name[..|Prefix|] == Prefix && name[|Prefix|..] == rest &&
      DigitRun(rest) == |digits| && |rest| >= |digits| + |Suffix| &&
      rest[..|digits|] == digits && rest[|digits|..|digits| + |Suffix|] == Suffix
  {
    var rest := digits + (Suffix + tail);
    assert Prefix + digits + Suffix + tail == Prefix + rest;
    DigitRunStops(digits, Suffix + tail);
    assert rest[|digits|..] == Suffix + tail;
  }

  /** Every name of the shape `dat template <digits>.dat<tail>` matches, and
      captures the value of its digits, leading zeros included
      (`dat template 007.dat` gives 7). */
  lemma MatchOfShape(digits: string, tail: string)
    requires 0 < |digits| && AllDigits(digits)
    ensures MatchTemplateName(Prefix + digits + Suffix + tail) == Some(ParseDigits(digits))
  {
    ShapeParts(digits, tail);
  }

  /** The pattern is anchored only at the start: whatever follows a matching
      name does not change the captured size. */
  lemma MatchIgnoresTail(name: string, tail: string)
    requires MatchTemplateName(name).Some?
    ensures MatchTemplateName(name + tail) == MatchTemplateName(name)
  {
    var full := name + tail;
    assert full[..|Prefix|] == name[..|Prefix|];
    var rest := name[|Prefix|..];
    var d := DigitRun(rest);
    assert d > 0 && |rest| >= d + |Suffix| && rest[d..d + |Suffix|] == Suffix;
    assert full[|Prefix|..] == rest + tail;
    DigitRunStops(rest[..d], rest[d..] + tail);
    assert rest[..d] + (rest[d..] + tail) == rest + tail;
    assert (rest + tail)[..d + |Suffix|] == rest[..d + |Suffix|];
    assert (rest + tail)[d..d + |Suffix|] == rest[..d + |Suffix|][d..];
    assert (rest + tail)[..d] == rest[..d];
  }

  /** The sizes captured from `names`, in directory order, duplicates kept. */
  function MatchedSizes(names: seq<string>): (sizes: seq<nat>)
    ensures |sizes| <= |names|
  {
    if names == [] then []
    else
      var init := MatchedSizes(names[..|names| - 1]);
      match MatchTemplateName(names[|names| - 1])
      case Some(size) => init + [size]
      case None => init
  }

  /** A size is in the catalog exactly when some file name matches with it. */
  lemma {:induction false} MatchedSizesMembers(names: seq<string>, size: nat)
    ensures size in MatchedSizes(names) <==>
      exists k :: 0 <= k < |names| && MatchTemplateName(names[k]) == Some(size)
    decreases |names|
  {
    if names != [] {
      var init := names[..|names| - 1];
      MatchedSizesMembers(init, size);
      if size in MatchedSizes(init) {
        var k :| 0 <= k < |init| && MatchTemplateName(init[k]) == Some(size);
        assert names[k] == init[k];
      }
      if k :| 0 <= k < |names| && MatchTemplateName(names[k]) == Some(size) {
        if k < |init| {
          assert init[k] == names[k];
        }
      }
    }
  }

  predicate Sorted(s: seq<int>)
  {
    forall i, j :: 0 <= i < j < |s| ==> s[i] <= s[j]
  }

  function Insert(x: nat, s: seq<nat>): (r: seq<nat>)
    ensures multiset(r) == multiset(s) + multiset{x}
  {
    if s == [] || x <= s[0] then [x] + s
    else
      assert s == [s[0]] + s[1..];
      [s[0]] + Insert(x, s[1..])
  }

  /** Every element of `Insert(x, s)` is x or an element of s. */
  lemma {:induction false} InsertMembers(x: nat, s: seq<nat>)
    ensures forall y :: y in Insert(x, s) ==> y == x || y in s
    decreases |s|
  {
    if s != [] && x > s[0] {
      InsertMembers(x, s[1..]);
    }
  }

  /** Putting an element no larger than any other in front keeps a list sorted. */
  lemma SortedCons(a: int, t: seq<int>)
    requires Sorted(t)
    requires forall j :: 0 <= j < |t| ==> a <= t[j]
    ensures Sorted([a] + t)
  {
    var r := [a] + t;
    forall i, j | 0 <= i < j < |r|
      ensures r[i] <= r[j]
    {
      if i > 0 {
        assert r[i] == t[i - 1] && r[j] == t[j - 1];
      }
    }
  }

  lemma {:induction false} InsertSorted(x: nat, s: seq<nat>)
    requires Sorted(s)
    ensures Sorted(Insert(x, s))
    decreases |s|
  {
    if s == [] || x <= s[0] {
      SortedCons(x, s);
    } else {
      var t := Insert(x, s[1..]);
      InsertSorted(x, s[1..]);
      InsertMembers(x, s[1..]);
      forall j | 0 <= j < |t|
        ensures s[0] <= t[j]
      {
        assert t[j] in t;
      }
      SortedCons(s[0], t);
    }
  }

  /** Python's `sorted` on a list of sizes: ascending, the same sizes. */
  function Sort(s: seq<nat>): (r: seq<nat>)
    ensures Sorted(r)
    ensures multiset(r) == multiset(s)
  {
    if s == [] then []
    else
      assert s == [s[0]] + s[1..];
      InsertSorted(s[0], Sort(s[1..]));
      Insert(s[0], Sort(s[1..]))
  }

  /** `_get_template_sizes`: the sizes of the matching names of the template
      directory (given here as the list of its file names), sorted ascending. */
  method TemplateSizes(names: seq<string>) returns (sizes: seq<nat>)
    ensures sizes == Sort(MatchedSizes(names))
    ensures Sorted(sizes)
    ensures multiset(sizes) == multiset(MatchedSizes(names))
  {
    var found: seq<nat> := [];
    for k := 0 to |names|
      invariant found == MatchedSizes(names[..k])
    {
      assert names[..k + 1][..k] == names[..k];
      var m := MatchTemplateName(names[k]);
      if m.Some? {
        found := found + [m.value];
      }
    }
    assert names[..|names|] == names;
    sizes := Sort(found);
  }

  /** The first index whose element is >= x (|a| when there is none). */
  function LowerBound(a: seq<int>, x: int): (i: nat)
    ensures i <= |a|
    ensures forall j :: 0 <= j < i ==> a[j] < x
    ensures i < |a| ==> a[i] >= x
  {
    if |a| == 0 || a[0] >= x then 0 else 1 + LowerBound(a[1..], x)
  }

  /** The first index whose element is >= x is determined by those two facts. */
  lemma {:induction false} LowerBoundUnique(a: seq<int>, x: int, i: nat)
    requires i <= |a|
    requires forall j :: 0 <= j < i ==> a[j] < x
    requires i < |a| ==> a[i] >= x
    ensures i == LowerBound(a, x)
    decreases i
  {
    if i > 0 {
      LowerBoundUnique(a[1..], x, i - 1);
    }
  }

  /** Python's `bisect_left(a, x)`: binary search for the insertion point of x
      to the left of any equal elements; on a sorted list it is the first index
      whose element is >= x. */
  method BisectLeft(a: seq<int>, x: int) returns (i: nat)
    ensures i <= |a|
    ensures Sorted(a) ==> i == LowerBound(a, x)
  {
    var lo, hi := 0, |a|;
    while lo < hi
      invariant 0 <= lo <= hi <= |a|
      invariant Sorted(a) ==> forall j :: 0 <= j < lo ==> a[j] < x
      invariant Sorted(a) ==> forall j :: hi <= j < |a| ==> a[j] >= x
    {
      var mid := (lo + hi) / 2;
      if a[mid] < x {
        lo := mid + 1;
      } else {
        hi := mid;
      }
    }
    i := lo;
    if Sorted(a) {
      LowerBoundUnique(a, x, i);
    }
  }

  /** `booksizes[bisect_left(booksizes, numpages)]`: the capacity chosen for a
      book of `numpages` pages, or None where the indexing raises IndexError. */
  function SelectTemplate(sizes: seq<nat>, numpages: int): (r: Option<nat>)
    ensures r.Some? ==> r.value in sizes && r.value >= numpages
    ensures r.None? <==> forall t :: t in sizes ==> t < numpages
  {
    var i := LowerBound(sizes, numpages);
    if i < |sizes| then Some(sizes[i]) else None
  }

  /** On a sorted catalog the chosen template is the smallest that holds the book,
      and a capacity equal to the page count is chosen itself. */
  lemma SelectTemplateSmallest(sizes: seq<nat>, numpages: int)
    requires Sorted(sizes)
    ensures var r := SelectTemplate(sizes, numpages);
      r.Some? ==> forall t :: t in sizes && t >= numpages ==> r.value <= t
    ensures numpages in sizes ==> SelectTemplate(sizes, numpages) == Some(numpages)
  {
    var i := LowerBound(sizes, numpages);
    if i < |sizes| {
      forall t | t in sizes && t >= numpages
        ensures sizes[i] <= t
      {
        var j :| 0 <= j < |sizes| && sizes[j] == t;
      }
    }
  }
}
