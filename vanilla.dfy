/** The vanilla book file written by `book_write`: the title, the author and the
    word `public` on three lines, then for every group of 13 lines a page marker
    `#pgx<k>` (k counting from 0) followed by the group's lines, everything
    separated by single newlines. No limit on the number of pages or lines is
    enforced by the writer. */
module Vanilla {
  import opened Seqs
  import opened Text
  import opened Formats
  import opened Wrappers

  /** The line that opens page k. */
  function Marker(k: nat): string
  {
    "#pgx" + NatToString(k)
  }

  /** A marker is `#pgx` followed by digits that read back as its page number. */
  lemma MarkerNumber(k: nat)
    ensures var m := Marker(k);
      |m| > 4 && m[..4] == "#pgx" && AllDigits(m[4..]) && ParseDigits(m[4..]) == k
  {
    ParseNatToString(k);
    assert Marker(k)[4..] == NatToString(k);
  }

  /** The pages of a vanilla book: its lines in groups of 13. */
  function Pages(lines: seq<string>): seq<seq<string>>
  {
    Chunks(lines, 13)
  }

  /** The fields of the page part: each page's marker, numbered from `first`,
      followed by that page's lines. */
  function PageFields(pages: seq<seq<string>>, first: nat): seq<string>
  {
    if pages == [] then [] else [Marker(first)] + pages[0] + PageFields(pages[1..], first + 1)
  }

  /** The page part has one field per marker and one per line. */
  lemma {:induction false} PageFieldsLength(pages: seq<seq<string>>, first: nat)
    ensures |PageFields(pages, first)| == |pages| + |Concat(pages)|
    decreases |pages|
  {
    if pages != [] {
      PageFieldsLength(pages[1..], first + 1);
    }
  }

  /** All newline-separated fields of the file, in order. */
  function Fields(lines: seq<string>, author: string, title: string): seq<string>
  {
    [title, author, "public"] + PageFields(Pages(lines), 0)
  }

  /** The whole file content. */
  function VanillaText(lines: seq<string>, author: string, title: string): string
  {
    Join(Fields(lines, author, title), '\n')
  }

  lemma {:induction false} PageFieldsSnoc(pages: seq<seq<string>>, first: nat, p: seq<string>)
    ensures PageFields(pages + [p], first) == PageFields(pages, first) + [Marker(first + |pages|)] + p
    decreases |pages|
  {
    if pages == [] {
      assert PageFields([p], first) == [Marker(first)] + p + PageFields([], first + 1);
    } else {
      assert (pages + [p])[1..] == pages[1..] + [p];
      PageFieldsSnoc(pages[1..], first + 1, p);
    }
  }

  /** One turn of the page loop of `book_write`: with `13k` lines already paged,
      it appends a newline, the marker `#pgx<k>` and the next (up to) 13 lines,
      which is the text of pages 0..k-1 extended by page k. */
  lemma WritePageStep(lines: seq<string>, header: seq<string>, k: nat)
    requires header != [] && 13 * k < |lines|
    ensures k < |Pages(lines)|
    ensures Join(header + PageFields(Pages(lines)[..k + 1], 0), '\n')
         == Join(header + PageFields(Pages(lines)[..k], 0), '\n')
          + Join(["\n#pgx" + NatToString(k)] + lines[13 * k .. 13 * k + Min(13, |lines| - 13 * k)], '\n')
  {
    CeilDivBelow(|lines|, 13, k);
    PageLines(lines, k);
    JoinPageStep(header, Pages(lines), k);
  }

  /** Extending the pages joined so far by page k appends a newline, page k's
      marker and its lines. */
  lemma JoinPageStep(header: seq<string>, pages: seq<seq<string>>, k: nat)
    requires header != [] && k < |pages|
    ensures Join(header + PageFields(pages[..k + 1], 0), '\n')
         == Join(header + PageFields(pages[..k], 0), '\n') + Join(["\n#pgx" + NatToString(k)] + pages[k], '\n')
  {
    var head := header + PageFields(pages[..k], 0);
    var next := [Marker(k)] + pages[k];
    PageFieldsPrefix(pages, k);
    assert header + PageFields(pages[..k + 1], 0) == head + next;
    JoinAppend(head, next, '\n');
    JoinMarker(k, pages[k]);
  }

  /** The pages up to k, one page more. */
  lemma PageFieldsPrefix(pages: seq<seq<string>>, k: nat)
    requires k < |pages|
    ensures PageFields(pages[..k + 1], 0) == PageFields(pages[..k], 0) + ([Marker(k)] + pages[k])
  {
    assert pages[..k + 1] == pages[..k] + [pages[k]];
    PageFieldsSnoc(pages[..k], 0, pages[k]);
  }

  /** The loop's text for page k: a newline, then the page's marker and lines. */
  lemma JoinMarker(k: nat, page: seq<string>)
    ensures Join(["\n#pgx" + NatToString(k)] + page, '\n') == "\n" + Join([Marker(k)] + page, '\n')
  {
    assert "\n#pgx" + NatToString(k) == "\n" + Marker(k);
    if page != [] {
      assert ([Marker(k)] + page)[1..] == page;
      assert (["\n#pgx" + NatToString(k)] + page)[1..] == page;
    }
  }

  /** `book_write`: builds the file content page by page and names the file.
      Writing the file to the output directory is not modelled. */
  method BookWrite(lines: seq<string>, author: string, title: string)
    returns (fileName: string, book: string)
    ensures fileName == InfoFileName(author, title)
    ensures book == VanillaText(lines, author, title)
  {
    fileName := InfoFileName(author, title);
    var header := [title, author, "public"];
    book := Join(header, '\n');
    var firstline := 0;
    ghost var k := 0;
    assert header + PageFields(Pages(lines)[..0], 0) == header;
    while firstline < |lines|
      invariant k <= |Pages(lines)|
      invariant firstline == 13 * k
      invariant book == Join(header + PageFields(Pages(lines)[..k], 0), '\n')
    {
      var pagenum := firstline / VanillaLinesPerPage;
      var page := lines[firstline .. firstline + Min(VanillaLinesPerPage, |lines| - firstline)];
      assert pagenum == k && page == lines[13 * k .. 13 * k + Min(13, |lines| - 13 * k)];
      WritePageStep(lines, header, k);
      book := book + Join(["\n#pgx" + NatToString(pagenum)] + page, '\n');
      firstline := firstline + VanillaLinesPerPage;
      k := k + 1;
    }
    CeilDivBelow(|lines|, 13, k);
    assert Pages(lines)[..k] == Pages(lines);
  }

  /** The parsed content of a vanilla book file. */
  datatype VanillaBook = VanillaBook(title: string, author: string, lines: seq<string>)

  /** Reads the page part back: every page starts with its marker, numbered
      from `k`, and holds up to 13 lines. */
  function ReadPages(body: seq<string>, k: nat): Option<seq<string>>
    decreases |body|
  {
    if body == [] then Some([])
    else if body[0] != Marker(k) then None
    else
      var m := Min(1 + VanillaLinesPerPage, |body|);
      match ReadPages(body[m..], k + 1)
      case None => None
      case Some(rest) => Some(body[1..m] + rest)
  }

  /** Reads a vanilla book file back into its title, author and lines. */
  function ReadVanilla(text: string): Option<VanillaBook>
  {
    var fields := Split(text, '\n');
    if |fields| < 3 || fields[2] != "public" then None
    else
      match ReadPages(fields[3..], 0)
      case None => None
      case Some(lines) => Some(VanillaBook(fields[0], fields[1], lines))
  }

  lemma {:induction false} ReadPagesOfPages(lines: seq<string>, k: nat)
    ensures ReadPages(PageFields(Pages(lines), k), k) == Some(lines)
    decreases |lines|
  {
    if lines != [] {
      var c := Min(13, |lines|);
      var rest := lines[c..];
      var body := PageFields(Pages(lines), k);
      assert Pages(lines) == [lines[..c]] + Pages(rest);
      assert body == [Marker(k)] + lines[..c] + PageFields(Pages(rest), k + 1);
      var m := Min(1 + VanillaLinesPerPage, |body|);
      if c < VanillaLinesPerPage {
        assert rest == [];
        assert Pages(rest) == [];
      }
      assert m == 1 + c;
      assert body[1..m] == lines[..c];
      assert body[m..] == PageFields(Pages(rest), k + 1);
      ReadPagesOfPages(rest, k + 1);
      assert lines[..c] + rest == lines;
    }
  }

  /** Every field of the page part is a marker or one of the book's lines. */
  lemma {:induction false} PageFieldsFrom(pages: seq<seq<string>>, first: nat, f: string)
    requires f in PageFields(pages, first)
    ensures (exists k: nat :: f == Marker(k)) || (exists p :: p in pages && f in p)
    decreases |pages|
  {
    if pages != [] {
      if f != Marker(first) && f !in pages[0] {
        PageFieldsFrom(pages[1..], first + 1, f);
      }
    }
  }

  /** No field of the page part holds a newline when no line does. */
  lemma PageFieldNoNewline(lines: seq<string>, f: string)
    requires forall j :: 0 <= j < |lines| ==> '\n' !in lines[j]
    requires f in PageFields(Pages(lines), 0)
    ensures '\n' !in f
  {
    PageFieldsFrom(Pages(lines), 0, f);
    if p :| p in Pages(lines) && f in p {
      var k :| 0 <= k < |Pages(lines)| && Pages(lines)[k] == p;
      PageLines(lines, k);
      var j :| 0 <= j < |p| && p[j] == f;
      assert f == lines[13 * k + j];
    } else {
      var k: nat :| f == Marker(k);
      assert AllDigits(NatToString(k));
    }
  }

  /** Reading a written vanilla book gives back its title, author and lines,
      as long as none of them contains a newline. */
  lemma VanillaRoundTrip(lines: seq<string>, author: string, title: string)
    requires '\n' !in title && '\n' !in author
    requires forall j :: 0 <= j < |lines| ==> '\n' !in lines[j]
    ensures ReadVanilla(VanillaText(lines, author, title)) == Some(VanillaBook(title, author, lines))
  {
    var fields := Fields(lines, author, title);
    forall i | 0 <= i < |fields|
      ensures '\n' !in fields[i]
    {
      if i >= 3 {
        assert fields[i] in PageFields(Pages(lines), 0);
        PageFieldNoNewline(lines, fields[i]);
      }
    }
    SplitJoin(fields, '\n');
    assert fields[3..] == PageFields(Pages(lines), 0);
    ReadPagesOfPages(lines, 0);
  }

  /** Page k's marker is field 14k of the page part and is followed by exactly
      the lines of page k. */
  lemma {:induction false} PageAt(lines: seq<string>, first: nat, k: nat)
    requires k < |Pages(lines)|
    ensures var body := PageFields(Pages(lines), first);
      var page := Pages(lines)[k];
      14 * k + 1 + |page| <= |body| &&
      body[14 * k] == Marker(first + k) &&
      body[14 * k + 1 .. 14 * k + 1 + |page|] == page
    decreases k
  {
    forall j | 0 <= j < k
      ensures |Pages(lines)[j]| == 13
    {
      FullPage(lines, j);
    }
    PageFieldsAt(Pages(lines), first, k);
  }

  /** In the fields of any pages, page k's marker is field 14k when the pages
      before it hold 13 lines each. */
  lemma {:induction false} PageFieldsAt(pages: seq<seq<string>>, first: nat, k: nat)
    requires k < |pages|
    requires forall j :: 0 <= j < k ==> |pages[j]| == 13
    ensures var body := PageFields(pages, first);
      14 * k + 1 + |pages[k]| <= |body| &&
      body[14 * k] == Marker(first + k) &&
      body[14 * k + 1 .. 14 * k + 1 + |pages[k]|] == pages[k]
    decreases k
  {
    var head := [Marker(first)] + pages[0];
    var tail := PageFields(pages[1..], first + 1);
    assert PageFields(pages, first) == head + tail;
    if k > 0 {
      assert |head| == 14;
      PageFieldsAt(pages[1..], first + 1, k - 1);
      assert pages[1..][k - 1] == pages[k];
      ShiftSlice(head, tail, 14 * (k - 1), |pages[k]|);
    }
  }

  /** Every page but the last holds 13 lines. */
  lemma {:induction false} FullPage(lines: seq<string>, j: nat)
    requires j + 1 < |Pages(lines)|
    ensures |Pages(lines)[j]| == 13
    decreases j
  {
    PagesCons(lines, 0);
    var rest := lines[Min(13, |lines|)..];
    if j > 0 {
      FullPage(rest, j - 1);
    }
  }

  /** The first page of a non-empty book and the pages after it. */
  lemma PagesCons(lines: seq<string>, first: nat)
    requires lines != []
    ensures var c := Min(13, |lines|);
      Pages(lines) == [lines[..c]] + Pages(lines[c..]) &&
      PageFields(Pages(lines), first) == [Marker(first)] + lines[..c] + PageFields(Pages(lines[c..]), first + 1) &&
      (lines[c..] != [] ==> c == 13)
  {
  }

  /** Page k holds `lines[13k : 13k + min(13, n - 13k)]`. */
  lemma PageLines(lines: seq<string>, k: nat)
    requires k < |Pages(lines)|
    ensures 13 * k < |lines|
    ensures Pages(lines)[k] == lines[13 * k .. 13 * k + Min(13, |lines| - 13 * k)]
  {
    ChunkAt(lines, 13, k);
  }

  /** Page k of a vanilla file: in the part after the three-line header, its
      marker `#pgx<k>` is field 14k and is followed by exactly the lines
      `lines[13k : 13k + min(13, n - 13k)]`, for each of the ceil(n / 13) pages. */
  lemma VanillaPage(lines: seq<string>, k: nat)
    requires k < CeilDiv(|lines|, 13)
    ensures 13 * k < |lines|
    ensures var body := PageFields(Pages(lines), 0);
      var c := Min(13, |lines| - 13 * k);
      14 * k + 1 + c <= |body| &&
      body[14 * k] == Marker(k) &&
      body[14 * k + 1 .. 14 * k + 1 + c] == lines[13 * k .. 13 * k + c]
  {
    PageLines(lines, k);
    PageAt(lines, 0, k);
  }

  /** The shape of a vanilla file: the three-line header, then the page part;
      one marker per page (ceil(n / 13) of them) and every line once; with no
      lines, only the header. */
  lemma VanillaLayout(lines: seq<string>, author: string, title: string)
    ensures var fields := Fields(lines, author, title);
      fields == [title, author, "public"] + PageFields(Pages(lines), 0) &&
      |fields| == 3 + CeilDiv(|lines|, 13) + |lines|
    ensures lines == [] ==> VanillaText(lines, author, title) == title + "\n" + author + "\n" + "public"
  {
    var fields := Fields(lines, author, title);
    ChunksConcat(lines, 13);
    PageFieldsLength(Pages(lines), 0);
    if lines == [] {
      assert fields == [title, author, "public"];
      assert Join(fields, '\n') == title + "\n" + Join([author, "public"], '\n');
      assert Join([author, "public"], '\n') == author + "\n" + Join(["public"], '\n');
    }
  }
}
