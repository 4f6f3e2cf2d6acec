/** Word wrapping of the whole text: the text is cut into paragraphs with
    `splitlines`, each paragraph is wrapped on its own, a paragraph that wraps
    to no lines at all still yields one empty line, and the per-paragraph
    results are put one after the other.

    The line wrapper itself (a `textwrap.TextWrapper` of a fixed width) is a
    parameter: the model only relies on it never returning a line longer than
    its width. */
module Wrap {
  import opened Text
  import opened Formats

  /** `TextWrapper.wrap`: one paragraph to its lines. */
  type Wrapper = string -> seq<string>

  /** Every line the wrapper returns, for any paragraph, is at most `width` long. */
  ghost predicate FitsWidth(wrap: Wrapper, width: nat)
  {
    forall p: string, j :: 0 <= j < |wrap(p)| ==> |wrap(p)[j]| <= width
  }

  /** The lines one paragraph contributes: its wrapped lines, or a single
      empty line when it wraps to nothing. */
  function Block(wrap: Wrapper, p: string): (b: seq<string>)
    ensures |b| >= 1
  {
    var w := wrap(p);
    if |w| == 0 then [""] else w
  }

  /** The lines of a sequence of paragraphs: their blocks, in order. No paragraph
      is lost: there are at least as many lines as paragraphs. */
  function WrapAll(wrap: Wrapper, ps: seq<string>): (lines: seq<string>)
    ensures |lines| >= |ps|
  {
    if ps == [] then [] else WrapAll(wrap, ps[..|ps| - 1]) + Block(wrap, ps[|ps| - 1])
  }

  /** Wrapping two runs of paragraphs one after the other gives the lines of
      the first run followed by the lines of the second: paragraph order is kept. */
  lemma {:induction false} WrapAllAppend(wrap: Wrapper, a: seq<string>, b: seq<string>)
    ensures WrapAll(wrap, a + b) == WrapAll(wrap, a) + WrapAll(wrap, b)
    decreases |b|
  {
    if b == [] {
      assert a + b == a;
    } else {
      var i := |b| - 1;
      assert (a + b)[..|a + b| - 1] == a + b[..i];
      assert (a + b)[|a + b| - 1] == b[i];
      WrapAllAppend(wrap, a, b[..i]);
    }
  }

  /** Paragraph k's lines sit exactly after the lines of the paragraphs before it. */
  lemma WrapAllParagraph(wrap: Wrapper, ps: seq<string>, k: nat)
    requires k < |ps|
    ensures var before := |WrapAll(wrap, ps[..k])|;
      before + |Block(wrap, ps[k])| <= |WrapAll(wrap, ps)| &&
      WrapAll(wrap, ps)[before .. before + |Block(wrap, ps[k])|] == Block(wrap, ps[k])
  {
    var pre := ps[..k + 1];
    assert ps == pre + ps[k + 1..];
    WrapAllAppend(wrap, pre, ps[k + 1..]);
    assert pre[..k] == ps[..k];
    assert WrapAll(wrap, pre) == WrapAll(wrap, ps[..k]) + Block(wrap, ps[k]);
  }

  /** With a wrapper that respects its width, every produced line does. */
  lemma {:induction false} WrapAllWidth(wrap: Wrapper, width: nat, ps: seq<string>)
    requires FitsWidth(wrap, width)
    ensures forall j :: 0 <= j < |WrapAll(wrap, ps)| ==> |WrapAll(wrap, ps)[j]| <= width
    decreases |ps|
  {
    if ps != [] {
      var init := ps[..|ps| - 1];
      WrapAllWidth(wrap, width, init);
      var b := Block(wrap, ps[|ps| - 1]);
      var w := WrapAll(wrap, init);
      assert forall j :: 0 <= j < |b| ==> |b[j]| <= width;
      assert forall j :: 0 <= j < |w + b| ==> (w + b)[j] == if j < |w| then w[j] else b[j - |w|];
    }
  }

  /** The paragraph loop shared by `book_wrap` and `big_book_wrap`. */
  method WrapText(text: string, wrap: Wrapper) returns (lines: seq<string>)
    ensures lines == WrapAll(wrap, SplitLines(text))
  {
    var paragraphs := SplitLines(text);
    lines := [];
    for k := 0 to |paragraphs|
      invariant lines == WrapAll(wrap, paragraphs[..k])
    {
      var newlines := wrap(paragraphs[k]);
      if |newlines| == 0 {
        newlines := newlines + [""];
      }
      assert paragraphs[..k + 1][..k] == paragraphs[..k];
      assert newlines == Block(wrap, paragraphs[k]);
      lines := lines + newlines;
    }
    assert paragraphs[..|paragraphs|] == paragraphs;
  }

  /** `book_wrap`: the text wrapped for a vanilla book, lines at most 18 wide. */
  method BookWrap(text: string, bookWrapper: Wrapper) returns (lines: seq<string>)
    requires FitsWidth(bookWrapper, VanillaWrapWidth)
    ensures lines == WrapAll(bookWrapper, SplitLines(text))
    ensures |lines| >= |SplitLines(text)|
    ensures forall j :: 0 <= j < |lines| ==> |lines[j]| <= 18
  {
    lines := WrapText(text, bookWrapper);
    WrapAllWidth(bookWrapper, VanillaWrapWidth, SplitLines(text));
  }

  /** `big_book_wrap`: the text wrapped for a big book, lines at most 69 wide. */
  method BigBookWrap(text: string, bigBookWrapper: Wrapper) returns (lines: seq<string>)
    requires FitsWidth(bigBookWrapper, BigBookWrapWidth)
    ensures lines == WrapAll(bigBookWrapper, SplitLines(text))
    ensures |lines| >= |SplitLines(text)|
    ensures forall j :: 0 <= j < |lines| ==> |lines[j]| <= 69
  {
    lines := WrapText(text, bigBookWrapper);
    WrapAllWidth(bigBookWrapper, BigBookWrapWidth, SplitLines(text));
  }
}
