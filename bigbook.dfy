/** `big_book_write`: plans how the wrapped lines are laid out in BiblioCraft
    big books (44 lines a page, 256 pages a book) and records, book by book,
    what the writer does to the output directory: the info file it renders,
    the data template it copies, and the ordered tag writes it hands to the
    external tag tool. The external tool, the copy and the file writes are not
    run here; each becomes an entry of a trace, in the order they happen. */
module BigBook {
  import opened Seqs
  import opened Text
  import opened Formats
  import opened Wrappers
  import opened Templates

  /** `TooManyPagesError`; the IndexError of indexing past the last template size;
      or the FileNotFoundError of opening a file the template directory lacks. */
  datatype Error = TooManyPagesError | IndexError | FileNotFoundError(name: string)

  /** The template the info files are rendered from, read from the template directory. */
  const InfoTemplateName: string := "info template"

  datatype Effect =
      /** The info file, rendered from the info template with these values. */
    | WriteInfo(file: string, author: string, title: string, numpages: int)
      /** `shutil.copy` of a data template to the book's data file. */
    | CopyTemplate(source: string, target: string)
      /** One call of the tag tool: set the tag at `path` in `file` to `value`. */
    | SetTag(file: string, path: seq<string>, value: string)

  /** What a call did before it returned or raised, and what it raised. */
  datatype Run = Run(trace: seq<Effect>, failure: Option<Error>)

  /** `ceil(len(lines) / 44)`: the fewest 44-line pages that hold n lines. */
  function TotalPages(n: nat): (p: nat)
    ensures 44 * p >= n && (n > 0 ==> 44 * (p - 1) < n)
  {
    CeilDivBounds(n, BigBookLinesPerPage);
    CeilDiv(n, BigBookLinesPerPage)
  }

  /** `ceil(totalpages / 256)`: the fewest 256-page books that hold those pages. */
  function TotalBooks(n: nat): (t: nat)
    ensures 256 * t >= TotalPages(n) && (TotalPages(n) > 0 ==> 256 * (t - 1) < TotalPages(n))
  {
    CeilDivBounds(TotalPages(n), BigBookMaxPages);
    CeilDiv(TotalPages(n), BigBookMaxPages)
  }

  /** Iterations of `range(0, len(lines), 11264)`: the books actually written.
      The last book starts before n, and one more would not. */
  function BookCount(n: nat): (c: nat)
    ensures 11264 * c >= n && (n > 0 ==> 11264 * (c - 1) < n)
  {
    CeilDivBounds(n, BigBookLinesPerBook);
    CeilDiv(n, BigBookLinesPerBook)
  }

  /** The loop writes exactly the number of books the page count calls for. */
  lemma BookCountIsTotalBooks(n: nat)
    ensures BookCount(n) == TotalBooks(n)
  {
    NestedCeilDiv(n, 44, 256);
  }

  /** Book b starts at line 11264 * b and there is at least one line left for it. */
  lemma BookStartInRange(n: nat, b: nat)
    requires b < BookCount(n)
    ensures 11264 * b < n
    ensures 256 * b < TotalPages(n)
  {
    CeilDivBounds(n, 11264);
    BookCountIsTotalBooks(n);
    CeilDivBounds(TotalPages(n), 256);
  }

  /** `lines[linesslice]` for book b. */
  function BookSlice(lines: seq<string>, b: nat): (s: seq<string>)
    requires b < BookCount(|lines|)
    ensures 0 < |s| <= BigBookLinesPerBook
  {
    BookStartInRange(|lines|, b);
    var start := BigBookLinesPerBook * b;
    lines[start .. start + Min(BigBookLinesPerBook, |lines| - start)]
  }

  /** The pages of book b: `min(256, totalpages - 256 * b)`, always 1 to 256. */
  function NumPages(n: nat, b: nat): (np: nat)
    requires b < BookCount(n)
    ensures 1 <= np <= BigBookMaxPages
  {
    BookStartInRange(n, b);
    Min(BigBookMaxPages, TotalPages(n) - BigBookMaxPages * b)
  }

  /** The page count of book b is the number of 44-line pages its own lines fill. */
  lemma NumPagesOfSlice(lines: seq<string>, b: nat)
    requires b < BookCount(|lines|)
    ensures NumPages(|lines|, b) == CeilDiv(|BookSlice(lines, b)|, 44)
  {
    var n := |lines|;
    BookStartInRange(n, b);
    var m := n - 11264 * b;
    CeilDivShift(m, 256 * b, 44);
    assert m + 256 * b * 44 == n;
    assert TotalPages(n) - 256 * b == CeilDiv(m, 44);
    CeilDivShift(0, 256, 44);
    assert CeilDiv(11264, 44) == 256;
    if m >= 11264 {
      CeilDivMonotone(11264, m, 44);
    } else {
      CeilDivMonotone(m, 11264, 44);
    }
  }

  /** Every page index a line of book b is written to exists in a book of
      NumPages pages, and so in the template chosen for it. */
  lemma LinePageInBook(lines: seq<string>, b: nat, i: nat)
    requires b < BookCount(|lines|) && i < |BookSlice(lines, b)|
    ensures i / 44 < NumPages(|lines|, b)
  {
    NumPagesOfSlice(lines, b);
    CeilDivBounds(|BookSlice(lines, b)|, 44);
  }

  /** The books' slices of lines, in book order. */
  function Slices(lines: seq<string>): (ss: seq<seq<string>>)
    ensures |ss| == BookCount(|lines|)
  {
    seq(BookCount(|lines|), b requires 0 <= b < BookCount(|lines|) => BookSlice(lines, b))
  }

  /** The books cut the lines into consecutive slices of 11264 lines (the last one
      shorter): together, in order, they are exactly the lines. */
  lemma SlicesPartition(lines: seq<string>)
    ensures Slices(lines) == Chunks(lines, 11264)
    ensures Concat(Slices(lines)) == lines
  {
    var ss := Slices(lines);
    var cs := Chunks(lines, 11264);
    forall b | 0 <= b < |ss|
      ensures ss[b] == cs[b]
    {
      ChunkAt(lines, 11264, b);
    }
    ChunksConcat(lines, 11264);
  }

  /** `title if totalbooks == 1 else title + str(booknum)`: the title, followed,
      when there are several books, by digits that read back as the book number. */
  function BookTitle(title: string, totalBooks: nat, b: nat): (t: string)
    ensures |t| >= |title| && t[..|title|] == title
    ensures totalBooks == 1 ==> t == title
    ensures totalBooks != 1 ==> |t| > |title| && AllDigits(t[|title|..]) && ParseDigits(t[|title|..]) == b
  {
    if totalBooks == 1 then title
    else
      ParseNatToString(b);
      assert (title + NatToString(b))[|title|..] == NatToString(b);
      title + NatToString(b)
  }

  /** A single book keeps the title; with several, every book (book 0 included)
      gets its number appended, so no two books share a title, an info file name
      or a data file name. */
  lemma BookTitles(author: string, title: string, totalBooks: nat, b1: nat, b2: nat)
    ensures totalBooks == 1 ==> BookTitle(title, totalBooks, b1) == title
    ensures totalBooks != 1 ==> BookTitle(title, totalBooks, b1) == title + NatToString(b1)
    ensures totalBooks != 1 && b1 != b2 ==>
      var t1, t2 := BookTitle(title, totalBooks, b1), BookTitle(title, totalBooks, b2);
      t1 != t2 && InfoFileName(author, t1) != InfoFileName(author, t2) &&
      DatFileName(author, t1) != DatFileName(author, t2)
  {
    var t1, t2 := BookTitle(title, totalBooks, b1), BookTitle(title, totalBooks, b2);
    FileNamesInjective(author, t1, t2);
    if totalBooks != 1 && t1 == t2 {
      assert t1[|title|..] == NatToString(b1);
      assert t2[|title|..] == NatToString(b2);
      NatToStringInjective(b1, b2);
    }
  }

  /** Tag path of the i-th line of a book: `pages/page<i div 44>/<i mod 44>`.
      The page and line numbers in the path read back to the line's index
      within its book. */
  function LinePath(i: nat): (p: seq<string>)
    ensures |p| == 3 && p[0] == "pages" && |p[1]| > 4 && p[1][..4] == "page"
    ensures AllDigits(p[1][4..]) && AllDigits(p[2])
    ensures ParseDigits(p[2]) < 44 && 44 * ParseDigits(p[1][4..]) + ParseDigits(p[2]) == i
  {
    var page, line := NatToString(i / BigBookLinesPerPage), NatToString(i % BigBookLinesPerPage);
    ParseNatToString(i / BigBookLinesPerPage);
    ParseNatToString(i % BigBookLinesPerPage);
    assert ("page" + page)[4..] == page;
    ["pages", "page" + page, line]
  }

  lemma LinePathInjective(i: nat, j: nat)
    ensures LinePath(i) == LinePath(j) ==> i == j
  {
    if LinePath(i) == LinePath(j) {
      assert ("page" + NatToString(i / 44))[4..] == NatToString(i / 44);
      assert ("page" + NatToString(j / 44))[4..] == NatToString(j / 44);
      NatToStringInjective(i / 44, j / 44);
      NatToStringInjective(i % 44, j % 44);
    }
  }

  /** The tag writes for a book's lines: one per non-empty line, in line order;
      an empty line is left at the template's blank default. */
  function LineWrites(dat: string, slice: seq<string>): (r: seq<Effect>)
    ensures |r| <= |slice|
  {
    if slice == [] then []
    else
      var i := |slice| - 1;
      LineWrites(dat, slice[..i])
        + (if slice[i] != "" then [SetTag(dat, LinePath(i), slice[i])] else [])
  }

  /** The writes that precede the lines: author, display name, the signed flag
      (only for an unsigned book), and the page count. All go to the data file,
      at paths of one or two names, so none of them is a line's path. */
  function HeaderWrites(dat: string, author: string, bookTitle: string, signed: bool, numpages: nat)
    : (r: seq<Effect>)
    ensures |r| == if signed then 3 else 4
    ensures forall e :: e in r ==> e.SetTag? && e.file == dat && 1 <= |e.path| <= 2
  {
    [SetTag(dat, ["author"], author), SetTag(dat, ["display", "Name"], bookTitle)]
      + (if signed then [] else [SetTag(dat, ["signed"], "0")])
      + [SetTag(dat, ["pagesTotal"], NatToString(numpages))]
  }

  /** What writing book b does, given the sorted template capacities and the
      names in the template directory. The info file is always written first, and
      a book never raises `TooManyPagesError`. */
  function BookRun(lines: seq<string>, b: nat, author: string, title: string, signed: bool, sizes: seq<nat>,
                   names: seq<string>): (r: Run)
    requires b < BookCount(|lines|)
    ensures r.trace != [] && r.trace[0].WriteInfo?
    ensures r.failure != Some(TooManyPagesError)
  {
    var n := |lines|;
    var bookTitle := BookTitle(title, TotalBooks(n), b);
    var numpages := NumPages(n, b);
    var dat := DatFileName(author, bookTitle);
    var info := WriteInfo(InfoFileName(author, bookTitle), author, bookTitle, numpages);
    match SelectTemplate(sizes, numpages)
    case None => Run([info], Some(IndexError))
    case Some(size) =>
      var source := TemplateFileName(size);
      if source !in names then Run([info], Some(FileNotFoundError(source)))
      else
        Run([info, CopyTemplate(source, dat)]
              + HeaderWrites(dat, author, bookTitle, signed, numpages)
              + LineWrites(dat, BookSlice(lines, b)),
            None)
  }

  /** Runs one after the other: the traces in order, and the first failure
      ends the whole (later runs are not attempted). */
  function Sequence(rs: seq<Run>): Run
  {
    if rs == [] then Run([], None)
    else
      var prev := Sequence(rs[..|rs| - 1]);
      var last := rs[|rs| - 1];
      if prev.failure.Some? then prev else Run(prev.trace + last.trace, last.failure)
  }

  /** The runs of books 0 .. count-1, each on its own. */
  function BookRuns(lines: seq<string>, count: nat, author: string, title: string, signed: bool,
                    sizes: seq<nat>, names: seq<string>): (rs: seq<Run>)
    requires count <= BookCount(|lines|)
    ensures |rs| == count
  {
    seq(count, b requires 0 <= b < count => BookRun(lines, b, author, title, signed, sizes, names))
  }

  /** Books 0 .. count-1 written in order; the first failure ends the run. */
  function BooksRun(lines: seq<string>, count: nat, author: string, title: string, signed: bool,
                    sizes: seq<nat>, names: seq<string>): Run
    requires count <= BookCount(|lines|)
  {
    Sequence(BookRuns(lines, count, author, title, signed, sizes, names))
  }

  /** The whole call: the template directory (as its file names) is read first,
      then the overflow check, then the info template is opened, then every book.
      A call that raises nothing had the info template and at most 256 pages, or
      was allowed several books. */
  function BigBookRun(lines: seq<string>, author: string, title: string, allowMultipleBooks: bool,
                      signed: bool, templateNames: seq<string>): (r: Run)
    ensures r.failure == None ==>
      InfoTemplateName in templateNames && (TotalPages(|lines|) <= BigBookMaxPages || allowMultipleBooks)
  {
    var sizes := Sort(MatchedSizes(templateNames));
    if TotalPages(|lines|) > BigBookMaxPages && !allowMultipleBooks then Run([], Some(TooManyPagesError))
    else if InfoTemplateName !in templateNames then Run([], Some(FileNotFoundError(InfoTemplateName)))
    else BooksRun(lines, BookCount(|lines|), author, title, signed, sizes, templateNames)
  }

  /** The traces of a list of runs. */
  function Traces(rs: seq<Run>): (ts: seq<seq<Effect>>)
    ensures |ts| == |rs|
  {
    seq(|rs|, i requires 0 <= i < |rs| => rs[i].trace)
  }

  /** One more run: it is attempted only when all before it succeeded. */
  lemma SequenceSnoc(rs: seq<Run>, r: Run)
    ensures var prev := Sequence(rs);
      Sequence(rs + [r]) == if prev.failure.Some? then prev else Run(prev.trace + r.trace, r.failure)
  {
    assert (rs + [r])[..|rs|] == rs;
  }

  /** Once a run has failed, the runs after it change nothing. */
  lemma {:induction false} SequenceStops(rs: seq<Run>, k: nat)
    requires k <= |rs| && Sequence(rs[..k]).failure.Some?
    ensures Sequence(rs) == Sequence(rs[..k])
    decreases |rs| - k
  {
    if k < |rs| {
      var init := rs[..|rs| - 1];
      assert init[..k] == rs[..k];
      SequenceStops(init, k);
    } else {
      assert rs[..k] == rs;
    }
  }

  /** A sequence of runs succeeds exactly when every run does, and its trace is
      then theirs one after the other. */
  lemma {:induction false} SequenceSuccess(rs: seq<Run>)
    ensures Sequence(rs).failure == None <==> forall i :: 0 <= i < |rs| ==> rs[i].failure == None
    ensures Sequence(rs).failure == None ==> Sequence(rs).trace == Concat(Traces(rs))
    decreases |rs|
  {
    if rs != [] {
      var n := |rs| - 1;
      var init := rs[..n];
      SequenceSuccess(init);
      assert forall i :: 0 <= i < n ==> init[i] == rs[i];
      assert Traces(rs) == Traces(init) + [rs[n].trace];
      ConcatSnoc(Traces(init), rs[n].trace);
    }
  }

  /** A failing sequence of runs stopped at its first failing run b: the traces
      of the runs before b, then b's own trace, and b's failure. */
  lemma {:induction false} SequenceFirstFailure(rs: seq<Run>)
    requires Sequence(rs).failure != None
    ensures exists b :: (0 <= b < |rs| && rs[b].failure != None &&
      (forall j :: 0 <= j < b ==> rs[j].failure == None) &&
      Sequence(rs) == Run(Concat(Traces(rs[..b])) + rs[b].trace, rs[b].failure))
    decreases |rs|
  {
    var n := |rs| - 1;
    var init := rs[..n];
    if Sequence(init).failure == None {
      SequenceSuccess(init);
      assert Traces(rs[..n]) == Traces(init);
      assert forall j :: 0 <= j < n ==> rs[j] == init[j];
      assert rs[n].failure != None && Sequence(rs) == Run(Concat(Traces(rs[..n])) + rs[n].trace, rs[n].failure);
    } else {
      SequenceFirstFailure(init);
      var b :| 0 <= b < |init| && init[b].failure != None &&
        (forall j :: 0 <= j < b ==> init[j].failure == None) &&
        Sequence(init) == Run(Concat(Traces(init[..b])) + init[b].trace, init[b].failure);
      assert init[..b] == rs[..b];
      assert forall j :: 0 <= j < b ==> rs[j] == init[j];
      assert rs[b] == init[b];
    }
  }

  /** Books 0 .. k followed by book k+1 are books 0 .. k+1. */
  lemma BookRunsSnoc(lines: seq<string>, k: nat, author: string, title: string, signed: bool,
                     sizes: seq<nat>, names: seq<string>)
    requires k < BookCount(|lines|)
    ensures BookRuns(lines, k + 1, author, title, signed, sizes, names)
         == BookRuns(lines, k, author, title, signed, sizes, names) + [BookRun(lines, k, author, title, signed, sizes, names)]
  {
    var longer := BookRuns(lines, k + 1, author, title, signed, sizes, names);
    var shorter := BookRuns(lines, k, author, title, signed, sizes, names);
    forall j | 0 <= j < k
      ensures longer[j] == shorter[j]
    {
      BookRunsAt(lines, k + 1, j, author, title, signed, sizes, names);
      BookRunsAt(lines, k, j, author, title, signed, sizes, names);
    }
    BookRunsAt(lines, k + 1, k, author, title, signed, sizes, names);
    SnocOf(longer, shorter);
  }

  lemma BookRunsAt(lines: seq<string>, count: nat, j: nat, author: string, title: string, signed: bool,
                   sizes: seq<nat>, names: seq<string>)
    requires j < count <= BookCount(|lines|)
    ensures BookRuns(lines, count, author, title, signed, sizes, names)[j]
         == BookRun(lines, j, author, title, signed, sizes, names)
  {
  }

  lemma SnocOf<T>(longer: seq<T>, shorter: seq<T>)
    requires |longer| == |shorter| + 1
    requires forall j :: 0 <= j < |shorter| ==> longer[j] == shorter[j]
    ensures longer == shorter + [longer[|shorter|]]
  {
  }

  /** Once a book fails, later books are not attempted. */
  lemma BooksRunStops(lines: seq<string>, k: nat, m: nat, author: string, title: string,
                      signed: bool, sizes: seq<nat>, names: seq<string>)
    requires k <= m <= BookCount(|lines|)
    requires BooksRun(lines, k, author, title, signed, sizes, names).failure.Some?
    ensures BooksRun(lines, m, author, title, signed, sizes, names)
         == BooksRun(lines, k, author, title, signed, sizes, names)
  {
    var rs := BookRuns(lines, m, author, title, signed, sizes, names);
    assert rs[..k] == BookRuns(lines, k, author, title, signed, sizes, names);
    SequenceStops(rs, k);
  }

  /** The innermost loop of `big_book_write`: a tag write for every non-empty
      line of the book's slice, at `pages/page<i div 44>/<i mod 44>`. */
  method WriteLines(datFilename: string, linesslice: seq<string>) returns (writes: seq<Effect>)
    ensures writes == LineWrites(datFilename, linesslice)
  {
    writes := [];
    for i := 0 to |linesslice|
      invariant writes == LineWrites(datFilename, linesslice[..i])
    {
      var pagenum, linenum := i / BigBookLinesPerPage, i % BigBookLinesPerPage;
      assert linesslice[..i + 1][..i] == linesslice[..i];
      if linesslice[i] != "" {
        writes := writes + [SetTag(datFilename, ["pages", "page" + NatToString(pagenum), NatToString(linenum)], linesslice[i])];
      }
    }
    assert linesslice[..|linesslice|] == linesslice;
  }

  /** The tag writes of `big_book_write` before the lines: author, display name,
      `signed` only for an unsigned book, and the page count. */
  method WriteHeader(datFilename: string, author: string, bookTitle: string, signed: bool, numpages: nat)
    returns (tags: seq<Effect>)
    ensures tags == HeaderWrites(datFilename, author, bookTitle, signed, numpages)
  {
    tags := [SetTag(datFilename, ["author"], author), SetTag(datFilename, ["display", "Name"], bookTitle)];
    if !signed {
      tags := tags + [SetTag(datFilename, ["signed"], "0")];
    }
    tags := tags + [SetTag(datFilename, ["pagesTotal"], NatToString(numpages))];
  }

  /** One turn of the book loop of `big_book_write`: the info file, the template
      copy (or the IndexError when no template is large enough, or the
      FileNotFoundError when the directory lacks the name the copy uses) and the
      tag writes. */
  method WriteBook(lines: seq<string>, booknum: nat, startline: nat, totalpages: nat, totalbooks: nat,
                   author: string, title: string, signed: bool, booksizes: seq<nat>, templateNames: seq<string>)
    returns (bookTrace: seq<Effect>, failure: Option<Error>)
    requires booknum < BookCount(|lines|) && startline == 11264 * booknum
    requires totalpages == TotalPages(|lines|) && totalbooks == TotalBooks(|lines|)
    requires Sorted(booksizes)
    ensures Run(bookTrace, failure) == BookRun(lines, booknum, author, title, signed, booksizes, templateNames)
  {
    var n := |lines|;
    var maxLinesPerBook := BigBookMaxPages * BigBookLinesPerPage;
    BookStartInRange(n, booknum);
    var linesslice := lines[startline .. startline + Min(maxLinesPerBook, n - startline)];
    assert linesslice == BookSlice(lines, booknum);
    var bookTitle := if totalbooks == 1 then title else title + NatToString(booknum);
    assert bookTitle == BookTitle(title, TotalBooks(n), booknum);
    var numpages := Min(BigBookMaxPages, totalpages - booknum * BigBookMaxPages);
    assert numpages == NumPages(n, booknum);
    var infoFilename := author + ", " + bookTitle;
    var datFilename := author + ", " + bookTitle + ".dat";
    bookTrace := [WriteInfo(infoFilename, author, bookTitle, numpages)];
    var idx := BisectLeft(booksizes, numpages);
    if idx == |booksizes| {
      failure := Some(IndexError);
      BookRunFailure(lines, booknum, author, title, signed, booksizes, templateNames);
      return;
    }
    BookRunOutcome(lines, booknum, author, title, signed, booksizes, templateNames);
    assert SelectTemplate(booksizes, numpages) == Some(booksizes[idx]);
    var source := TemplateFileName(booksizes[idx]);
    if source !in templateNames {
      failure := Some(FileNotFoundError(source));
      BookRunFailure(lines, booknum, author, title, signed, booksizes, templateNames);
      return;
    }
    failure := None;
    var copy := CopyTemplate(source, datFilename);
    var tags := WriteHeader(datFilename, author, bookTitle, signed, numpages);
    var writes := WriteLines(datFilename, linesslice);
    assert datFilename == DatFileName(author, bookTitle) && infoFilename == InfoFileName(author, bookTitle);
    bookTrace := [bookTrace[0], copy] + tags + writes;
    WrittenBookRun(lines, booknum, author, title, signed, booksizes, templateNames);
  }

  /** Appending book k's run to a run of the first k books that did not fail
      gives the run of the first k + 1 books. */
  lemma BooksRunStep(lines: seq<string>, k: nat, author: string, title: string, signed: bool,
                     sizes: seq<nat>, names: seq<string>, bookTrace: seq<Effect>, bookFailure: Option<Error>)
    requires k < BookCount(|lines|)
    requires BooksRun(lines, k, author, title, signed, sizes, names).failure == None
    requires Run(bookTrace, bookFailure) == BookRun(lines, k, author, title, signed, sizes, names)
    ensures BooksRun(lines, k + 1, author, title, signed, sizes, names)
         == Run(BooksRun(lines, k, author, title, signed, sizes, names).trace + bookTrace, bookFailure)
  {
    BookRunsSnoc(lines, k, author, title, signed, sizes, names);
    SequenceSnoc(BookRuns(lines, k, author, title, signed, sizes, names),
                 BookRun(lines, k, author, title, signed, sizes, names));
  }

  /** The book loop of `big_book_write`: `for booknum, startline in
      enumerate(range(0, len(lines), maxLinesPerBook))`. */
  method WriteBooks(lines: seq<string>, author: string, title: string, signed: bool, booksizes: seq<nat>,
                    templateNames: seq<string>)
    returns (trace: seq<Effect>, failure: Option<Error>)
    requires Sorted(booksizes)
    ensures Run(trace, failure) == BooksRun(lines, BookCount(|lines|), author, title, signed, booksizes, templateNames)
  {
    var n := |lines|;
    var totalpages := CeilDiv(n, BigBookLinesPerPage);
    var totalbooks := CeilDiv(totalpages, BigBookMaxPages);
    var maxLinesPerBook := BigBookMaxPages * BigBookLinesPerPage;
    trace, failure := [], None;
    var booknum := 0;
    var startline := 0;
    while startline < n
      invariant booknum <= BookCount(n)
      invariant startline == 11264 * booknum
      invariant booknum < BookCount(n) <==> startline < n
      invariant Run(trace, None) == BooksRun(lines, booknum, author, title, signed, booksizes, templateNames)
    {
      var bookTrace, bookFailure := WriteBook(lines, booknum, startline, totalpages, totalbooks,
                                              author, title, signed, booksizes, templateNames);
      BooksRunStep(lines, booknum, author, title, signed, booksizes, templateNames, bookTrace, bookFailure);
      trace := trace + bookTrace;
      booknum := booknum + 1;
      if bookFailure.Some? {
        failure := bookFailure;
        BooksRunStops(lines, booknum, BookCount(n), author, title, signed, booksizes, templateNames);
        return;
      }
      startline := startline + maxLinesPerBook;
      if booknum < BookCount(n) {
        BookStartInRange(n, booknum);
      } else {
        CeilDivBounds(n, 11264);
      }
    }
  }

  /** `big_book_write(lines, author, title, allowMultipleBooks, signed)`, with the
      template directory given as the list of its file names. Returns the trace
      of what it did and the exception it raised, if any. */
  method BigBookWrite(lines: seq<string>, author: string, title: string, allowMultipleBooks: bool,
                      signed: bool, templateNames: seq<string>)
    returns (trace: seq<Effect>, failure: Option<Error>)
    ensures Run(trace, failure) == BigBookRun(lines, author, title, allowMultipleBooks, signed, templateNames)
  {
    var booksizes := TemplateSizes(templateNames);
    var totalpages := CeilDiv(|lines|, BigBookLinesPerPage);
    if totalpages > BigBookMaxPages && !allowMultipleBooks {
      trace, failure := [], Some(TooManyPagesError);
      return;
    }
    if InfoTemplateName !in templateNames {
      trace, failure := [], Some(FileNotFoundError(InfoTemplateName));
      return;
    }
    trace, failure := WriteBooks(lines, author, title, signed, booksizes, templateNames);
  }

  // ---------------------------------------------------------------------------
  // Properties of the run

  /** A book fails only with IndexError or FileNotFoundError, so the book loop
      never raises `TooManyPagesError`. */
  lemma BooksRunNoOverflow(lines: seq<string>, count: nat, author: string, title: string,
                           signed: bool, sizes: seq<nat>, names: seq<string>)
    requires count <= BookCount(|lines|)
    ensures BooksRun(lines, count, author, title, signed, sizes, names).failure != Some(TooManyPagesError)
  {
    var rs := BookRuns(lines, count, author, title, signed, sizes, names);
    if Sequence(rs).failure != None {
      SequenceFirstFailure(rs);
      var b :| 0 <= b < |rs| && rs[b].failure != None &&
        Sequence(rs) == Run(Concat(Traces(rs[..b])) + rs[b].trace, rs[b].failure);
      BookRunFailure(lines, b, author, title, signed, sizes, names);
    }
  }

  /** `TooManyPagesError` is raised exactly when more than 256 pages are needed and
      several books are not allowed, and then before anything is written. Otherwise
      a directory without the info template raises FileNotFoundError, also before
      anything is written; with the info template and no lines at all nothing is
      written and nothing is raised. */
  lemma BigBookOverflow(lines: seq<string>, author: string, title: string, allowMultipleBooks: bool,
                        signed: bool, templateNames: seq<string>)
    ensures var run := BigBookRun(lines, author, title, allowMultipleBooks, signed, templateNames);
      (run.failure == Some(TooManyPagesError) <==> TotalPages(|lines|) > 256 && !allowMultipleBooks) &&
      (run.failure == Some(TooManyPagesError) ==> run.trace == [])
    ensures var run := BigBookRun(lines, author, title, allowMultipleBooks, signed, templateNames);
      run.failure != Some(TooManyPagesError) && InfoTemplateName !in templateNames ==>
        run == Run([], Some(FileNotFoundError(InfoTemplateName)))
    ensures InfoTemplateName in templateNames && lines == [] ==>
      BigBookRun(lines, author, title, allowMultipleBooks, signed, templateNames) == Run([], None)
  {
    BooksRunNoOverflow(lines, BookCount(|lines|), author, title, signed, Sort(MatchedSizes(templateNames)),
                       templateNames);
  }

  /** The traces of books 0 .. count-1. */
  function BookTraces(lines: seq<string>, count: nat, author: string, title: string, signed: bool,
                      sizes: seq<nat>, names: seq<string>): (ts: seq<seq<Effect>>)
    requires count <= BookCount(|lines|)
    ensures |ts| == count
  {
    seq(count, b requires 0 <= b < count => BookRun(lines, b, author, title, signed, sizes, names).trace)
  }

  /** The traces of the first b book runs are the traces of books 0 .. b-1. */
  lemma TracesOfBookRuns(lines: seq<string>, count: nat, b: nat, author: string, title: string,
                         signed: bool, sizes: seq<nat>, names: seq<string>)
    requires b <= count <= BookCount(|lines|)
    ensures Traces(BookRuns(lines, count, author, title, signed, sizes, names)[..b])
         == BookTraces(lines, b, author, title, signed, sizes, names)
  {
  }

  /** Some template holds the pages of book b. */
  predicate HasTemplate(lines: seq<string>, b: nat, sizes: seq<nat>)
    requires b < BookCount(|lines|)
  {
    SelectTemplate(sizes, NumPages(|lines|, b)).Some?
  }

  /** The name the copy of book b's template opens: `'dat template %s.dat' % size`. */
  function CopySource(lines: seq<string>, b: nat, sizes: seq<nat>): string
    requires b < BookCount(|lines|) && HasTemplate(lines, b, sizes)
  {
    TemplateFileName(SelectTemplate(sizes, NumPages(|lines|, b)).value)
  }

  /** Book b has a template, and the directory holds it under the name the copy opens. */
  predicate CanCopy(lines: seq<string>, b: nat, sizes: seq<nat>, names: seq<string>)
    requires b < BookCount(|lines|)
  {
    HasTemplate(lines, b, sizes) && CopySource(lines, b, sizes) in names
  }

  /** A book fails, after writing only its info file, exactly when its template
      cannot be copied: with IndexError when no template holds its pages, and with
      FileNotFoundError for the copied name when the directory lacks it. */
  lemma BookRunFailure(lines: seq<string>, b: nat, author: string, title: string, signed: bool,
                       sizes: seq<nat>, names: seq<string>)
    requires b < BookCount(|lines|)
    ensures var run := BookRun(lines, b, author, title, signed, sizes, names);
      (run.failure == None <==> CanCopy(lines, b, sizes, names)) &&
      (run.failure == Some(IndexError) <==> !HasTemplate(lines, b, sizes)) &&
      (run.failure != None ==>
        var bookTitle := BookTitle(title, TotalBooks(|lines|), b);
        run.trace == [WriteInfo(InfoFileName(author, bookTitle), author, bookTitle, NumPages(|lines|, b))] &&
        (HasTemplate(lines, b, sizes) ==> run.failure == Some(FileNotFoundError(CopySource(lines, b, sizes)))))
  {
  }

  /** The first `count` books are all written exactly when each one's template
      can be copied, and then the run is their traces one after the other. */
  lemma BooksRunSuccess(lines: seq<string>, count: nat, author: string, title: string,
                        signed: bool, sizes: seq<nat>, names: seq<string>)
    requires count <= BookCount(|lines|)
    ensures var run := BooksRun(lines, count, author, title, signed, sizes, names);
      (run.failure == None <==> forall b :: 0 <= b < count ==> CanCopy(lines, b, sizes, names)) &&
      (run.failure == None ==> run.trace == Concat(BookTraces(lines, count, author, title, signed, sizes, names)))
  {
    var rs := BookRuns(lines, count, author, title, signed, sizes, names);
    SequenceSuccess(rs);
    forall b | 0 <= b < count
      ensures rs[b].failure == None <==> CanCopy(lines, b, sizes, names)
    {
      BookRunOutcome(lines, b, author, title, signed, sizes, names);
    }
    TracesOfBookRuns(lines, count, count, author, title, signed, sizes, names);
    assert rs[..count] == rs;
  }

  /** A book's own run succeeds exactly when its template can be copied. */
  lemma BookRunOutcome(lines: seq<string>, b: nat, author: string, title: string, signed: bool,
                       sizes: seq<nat>, names: seq<string>)
    requires b < BookCount(|lines|)
    ensures BookRun(lines, b, author, title, signed, sizes, names).failure == None <==> CanCopy(lines, b, sizes, names)
  {
  }

  /** Books whose runs in `BookRuns` succeeded all had their template copied. */
  lemma TemplatesBefore(lines: seq<string>, count: nat, b: nat, author: string, title: string,
                        signed: bool, sizes: seq<nat>, names: seq<string>)
    requires b <= count <= BookCount(|lines|)
    requires forall j :: 0 <= j < b ==> BookRuns(lines, count, author, title, signed, sizes, names)[j].failure == None
    ensures forall j :: 0 <= j < b ==> CanCopy(lines, j, sizes, names)
  {
    forall j | 0 <= j < b
      ensures CanCopy(lines, j, sizes, names)
    {
      assert BookRuns(lines, count, author, title, signed, sizes, names)[j]
          == BookRun(lines, j, author, title, signed, sizes, names);
      BookRunOutcome(lines, j, author, title, signed, sizes, names);
    }
  }

  /** A run that fails stops at the first book b whose template cannot be copied:
      it holds the traces of books 0 .. b-1, then book b's own run (its info file
      and its failure), and no later book is attempted. */
  lemma BooksRunFirstFailure(lines: seq<string>, count: nat, author: string, title: string,
                             signed: bool, sizes: seq<nat>, names: seq<string>)
    requires count <= BookCount(|lines|)
    requires BooksRun(lines, count, author, title, signed, sizes, names).failure != None
    ensures exists b :: (0 <= b < count && !CanCopy(lines, b, sizes, names) &&
      (forall j :: 0 <= j < b ==> CanCopy(lines, j, sizes, names)) &&
      BooksRun(lines, count, author, title, signed, sizes, names)
        == Run(Concat(BookTraces(lines, b, author, title, signed, sizes, names))
                 + BookRun(lines, b, author, title, signed, sizes, names).trace,
               BookRun(lines, b, author, title, signed, sizes, names).failure))
  {
    var rs := BookRuns(lines, count, author, title, signed, sizes, names);
    SequenceFirstFailure(rs);
    var b :| 0 <= b < |rs| && rs[b].failure != None &&
      (forall j :: 0 <= j < b ==> rs[j].failure == None) &&
      Sequence(rs) == Run(Concat(Traces(rs[..b])) + rs[b].trace, rs[b].failure);
    BookRunOutcome(lines, b, author, title, signed, sizes, names);
    TemplatesBefore(lines, count, b, author, title, signed, sizes, names);
    TracesOfBookRuns(lines, count, b, author, title, signed, sizes, names);
  }

  /** Every template name in the directory is the one the copy step would build
      from its captured size (no leading zeros, nothing after `.dat`). */
  predicate CanonicalNames(names: seq<string>)
  {
    forall k :: 0 <= k < |names| && MatchTemplateName(names[k]).Some? ==>
      names[k] == TemplateFileName(MatchTemplateName(names[k]).value)
  }

  /** With canonical template names, a book whose pages some template holds finds
      that template under the name the copy opens: the FileNotFoundError of the
      copy step then never happens. */
  lemma CanonicalNamesCopy(lines: seq<string>, b: nat, names: seq<string>)
    requires b < BookCount(|lines|) && CanonicalNames(names)
    requires HasTemplate(lines, b, Sort(MatchedSizes(names)))
    ensures CanCopy(lines, b, Sort(MatchedSizes(names)), names)
  {
    var sizes := Sort(MatchedSizes(names));
    var size := SelectTemplate(sizes, NumPages(|lines|, b)).value;
    assert size in multiset(sizes);
    assert size in MatchedSizes(names);
    MatchedSizesMembers(names, size);
  }

  // A worked example: a template name spelled with a leading zero. The lemmas
  // after `NonCanonicalTemplateName` are its steps, kept apart so that each
  // one stays small for the solver.

  /** The directory `["info template", "dat template 012.dat"]` offers a 12-page
      template, but the copy step asks for `dat template 12.dat`: a one-line text
      writes its info file and then raises FileNotFoundError. */
  lemma NonCanonicalTemplateName()
    ensures BigBookRun(["x"], "a", "t", false, true, [InfoTemplateName, "dat template 012.dat"])
         == Run([WriteInfo("a, t", "a", "t", 1)], Some(FileNotFoundError("dat template 12.dat")))
  {
    var names := [InfoTemplateName, "dat template 012.dat"];
    NonCanonicalSizes();
    assert TotalPages(1) == 1 && BookCount(1) == 1;
    NonCanonicalBook();
    var rs := BookRuns(["x"], 1, "a", "t", true, [12], names);
    assert rs == [BookRun(["x"], 0, "a", "t", true, [12], names)];
    assert rs[..0] == [];
    assert Sequence(rs) == Run([] + rs[0].trace, rs[0].failure);
    assert [] + rs[0].trace == [WriteInfo("a, t", "a", "t", 1)];
    assert |["x"]| == 1 && InfoTemplateName in names;
    assert BigBookRun(["x"], "a", "t", false, true, names) == BooksRun(["x"], 1, "a", "t", true, [12], names);
  }

  /** The catalog of that directory is the single capacity 12. */
  lemma NonCanonicalSizes()
    ensures Sort(MatchedSizes([InfoTemplateName, "dat template 012.dat"])) == [12]
  {
    var names := [InfoTemplateName, "dat template 012.dat"];
    LeadingZeroMatch();
    InfoTemplateUnmatched();
    assert MatchedSizes([InfoTemplateName]) == [];
    assert names[..1] == [InfoTemplateName];
  }

  /** `dat template 012.dat` matches with size 12. */
  lemma LeadingZeroMatch()
    ensures MatchTemplateName("dat template 012.dat") == Some(12)
  {
    assert "012"[..2] == "01" && "01"[..1] == "0" && "0"[..0] == "";
    assert ParseDigits("012") == 12;
    MatchOfShape("012", "");
    assert "dat template 012.dat" == Prefix + "012" + Suffix + "";
  }

  /** The info template is not a data template. */
  lemma InfoTemplateUnmatched()
    ensures MatchTemplateName(InfoTemplateName) == None
  {
    assert InfoTemplateName[..|Prefix|] != Prefix by {
      assert InfoTemplateName[0] != Prefix[0];
    }
  }

  /** Its one book asks for `dat template 12.dat`, which the directory lacks. */
  lemma NonCanonicalBook()
    ensures BookRun(["x"], 0, "a", "t", true, [12], [InfoTemplateName, "dat template 012.dat"])
         == Run([WriteInfo("a, t", "a", "t", 1)], Some(FileNotFoundError("dat template 12.dat")))
  {
    assert TotalPages(1) == 1 && TotalBooks(1) == 1 && BookCount(1) == 1;
    assert NumPages(1, 0) == 1;
    assert SelectTemplate([12], 1) == Some(12);
    MissingCopySource();
    assert BookTitle("t", 1, 0) == "t";
    OneBookInfo();
  }

  /** The name the copy asks for is not in the directory. */
  lemma MissingCopySource()
    ensures TemplateFileName(12) == "dat template 12.dat"
    ensures TemplateFileName(12) !in [InfoTemplateName, "dat template 012.dat"]
  {
    assert NatToString(12) == "12";
    assert |"dat template 12.dat"| == 19 && |"dat template 012.dat"| == 20 && |InfoTemplateName| == 13;
  }

  lemma OneBookInfo()
    ensures InfoFileName("a", "t") == "a, t"
  {
  }

  /** The value a tag has after `writes`, on a template whose tags start blank:
      the value of the last write to it, or "" when it was never written. */
  function TagValue(writes: seq<Effect>, file: string, path: seq<string>): string
  {
    if writes == [] then ""
    else
      var e := writes[|writes| - 1];
      if e.SetTag? && e.file == file && e.path == path then e.value
      else TagValue(writes[..|writes| - 1], file, path)
  }

  /** A write appended to a trace decides the tag it sets and leaves every
      other tag as it was. */
  lemma TagValueSnoc(writes: seq<Effect>, e: Effect, file: string, path: seq<string>)
    ensures TagValue(writes + [e], file, path)
         == if e.SetTag? && e.file == file && e.path == path then e.value else TagValue(writes, file, path)
  {
    assert (writes + [e])[..|writes|] == writes;
  }

  /** The line writes of a slice: those of all its lines but the last, then the
      last line's write if it is not empty. */
  lemma LineWritesLast(dat: string, slice: seq<string>)
    requires slice != []
    ensures var k := |slice| - 1;
      LineWrites(dat, slice) == LineWrites(dat, slice[..k])
        + (if slice[k] != "" then [SetTag(dat, LinePath(k), slice[k])] else [])
  {
  }

  lemma {:induction false} LineWritesUntouched(dat: string, slice: seq<string>, j: nat)
    requires j >= |slice|
    ensures TagValue(LineWrites(dat, slice), dat, LinePath(j)) == ""
    decreases |slice|
  {
    if slice != [] {
      var k := |slice| - 1;
      var pre := slice[..k];
      LineWritesLast(dat, slice);
      LineWritesUntouched(dat, pre, j);
      if slice[k] != "" {
        LinePathInjective(j, k);
        TagValueSnoc(LineWrites(dat, pre), SetTag(dat, LinePath(k), slice[k]), dat, LinePath(j));
      } else {
        assert LineWrites(dat, pre) + [] == LineWrites(dat, pre);
      }
    }
  }

  /** Reading the tags back after the line writes gives every line of the book at
      `pages/page<i div 44>/<i mod 44>`, page numbers counted from 0 within the
      book: the non-empty lines as written, the empty ones as the blank default. */
  lemma {:induction false} LineWritesReadBack(dat: string, slice: seq<string>, i: nat)
    requires i < |slice|
    ensures TagValue(LineWrites(dat, slice), dat, LinePath(i)) == slice[i]
    decreases |slice|
  {
    var k := |slice| - 1;
    if i == k {
      LineWritesReadBackLast(dat, slice);
    } else {
      LineWritesKeep(dat, slice, i);
      LineWritesReadBack(dat, slice[..k], i);
    }
  }

  /** The last line of a slice reads back as itself. */
  lemma LineWritesReadBackLast(dat: string, slice: seq<string>)
    requires slice != []
    ensures TagValue(LineWrites(dat, slice), dat, LinePath(|slice| - 1)) == slice[|slice| - 1]
  {
    var k := |slice| - 1;
    var pre := slice[..k];
    LineWritesLast(dat, slice);
    if slice[k] == "" {
      assert LineWrites(dat, pre) + [] == LineWrites(dat, pre);
      LineWritesUntouched(dat, pre, k);
    } else {
      TagValueSnoc(LineWrites(dat, pre), SetTag(dat, LinePath(k), slice[k]), dat, LinePath(k));
    }
  }

  /** The write of the last line leaves the tags of the earlier lines alone. */
  lemma LineWritesKeep(dat: string, slice: seq<string>, i: nat)
    requires i < |slice| - 1
    ensures TagValue(LineWrites(dat, slice), dat, LinePath(i))
         == TagValue(LineWrites(dat, slice[..|slice| - 1]), dat, LinePath(i))
  {
    var k := |slice| - 1;
    var pre := slice[..k];
    LineWritesLast(dat, slice);
    if slice[k] == "" {
      assert LineWrites(dat, pre) + [] == LineWrites(dat, pre);
    } else {
      LinePathInjective(i, k);
      TagValueSnoc(LineWrites(dat, pre), SetTag(dat, LinePath(k), slice[k]), dat, LinePath(i));
    }
  }

  /** `e` writes a non-empty line of `slice` to its own path in `dat`. */
  predicate IsLineWrite(e: Effect, dat: string, slice: seq<string>)
  {
    e.SetTag? && e.file == dat && |e.path| == 3 && e.path[0] == "pages" &&
    exists i :: 0 <= i < |slice| && slice[i] != "" && e.path == LinePath(i) && e.value == slice[i]
  }

  /** Every line write goes to the book's data file, at the path of a non-empty
      line of the book, with that line as its value. */
  lemma {:induction false} LineWritesShape(dat: string, slice: seq<string>)
    ensures forall e :: e in LineWrites(dat, slice) ==> IsLineWrite(e, dat, slice)
    decreases |slice|
  {
    if slice != [] {
      var k := |slice| - 1;
      var pre := slice[..k];
      LineWritesShape(dat, pre);
      LineWritesLast(dat, slice);
      forall e | e in LineWrites(dat, slice)
        ensures IsLineWrite(e, dat, slice)
      {
        if e in LineWrites(dat, pre) {
          LineWriteOfPrefix(e, dat, slice);
        } else {
          assert slice[k] != "" && e == SetTag(dat, LinePath(k), slice[k]);
        }
      }
    }
  }

  lemma LineWriteOfPrefix(e: Effect, dat: string, slice: seq<string>)
    requires slice != [] && IsLineWrite(e, dat, slice[..|slice| - 1])
    ensures IsLineWrite(e, dat, slice)
  {
    var pre := slice[..|slice| - 1];
    var i :| 0 <= i < |pre| && pre[i] != "" && e.path == LinePath(i) && e.value == pre[i];
    assert slice[i] == pre[i];
  }

  /** The trace of a book whose template is copied: its info file, the template
      copy, the header tags and the line tags, and no failure. */
  lemma WrittenBookRun(lines: seq<string>, b: nat, author: string, title: string, signed: bool,
                       sizes: seq<nat>, names: seq<string>)
    requires b < BookCount(|lines|) && CanCopy(lines, b, sizes, names)
    ensures var bookTitle := BookTitle(title, TotalBooks(|lines|), b);
      var numpages := NumPages(|lines|, b);
      var dat := DatFileName(author, bookTitle);
      BookRun(lines, b, author, title, signed, sizes, names)
        == Run([WriteInfo(InfoFileName(author, bookTitle), author, bookTitle, numpages),
                CopyTemplate(CopySource(lines, b, sizes), dat)]
               + HeaderWrites(dat, author, bookTitle, signed, numpages)
               + LineWrites(dat, BookSlice(lines, b)),
               None)
  {
  }

  /** After effects that set no tag, the header and line writes set `signed`
      only for an unsigned book, and only to 0. */
  lemma SignedTags(first: seq<Effect>, dat: string, author: string, bookTitle: string, signed: bool,
                   numpages: nat, slice: seq<string>)
    requires forall e :: e in first ==> !e.SetTag?
    ensures var t := first + HeaderWrites(dat, author, bookTitle, signed, numpages) + LineWrites(dat, slice);
      ((exists e :: e in t && e.SetTag? && e.path == ["signed"]) <==> !signed) &&
      (forall e :: e in t && e.SetTag? && e.path == ["signed"] ==> e.value == "0")
  {
    LineWritesShape(dat, slice);
    if !signed {
      assert SetTag(dat, ["signed"], "0") in HeaderWrites(dat, author, bookTitle, signed, numpages);
    }
  }

  /** A book that is written sets `signed` to 0 when it is unsigned and does not
      touch `signed` at all when it is signed. */
  lemma SignedFlag(lines: seq<string>, b: nat, author: string, title: string, signed: bool,
                   sizes: seq<nat>, names: seq<string>)
    requires b < BookCount(|lines|)
    requires BookRun(lines, b, author, title, signed, sizes, names).failure == None
    ensures var trace := BookRun(lines, b, author, title, signed, sizes, names).trace;
      (exists e :: e in trace && e.SetTag? && e.path == ["signed"]) <==> !signed
    ensures var trace := BookRun(lines, b, author, title, signed, sizes, names).trace;
      forall e :: e in trace && e.SetTag? && e.path == ["signed"] ==> e.value == "0"
  {
    BookRunOutcome(lines, b, author, title, signed, sizes, names);
    WrittenBookRun(lines, b, author, title, signed, sizes, names);
    var bookTitle := BookTitle(title, TotalBooks(|lines|), b);
    var numpages := NumPages(|lines|, b);
    var dat := DatFileName(author, bookTitle);
    SignedTags([WriteInfo(InfoFileName(author, bookTitle), author, bookTitle, numpages),
                CopyTemplate(CopySource(lines, b, sizes), dat)],
               dat, author, bookTitle, signed, numpages, BookSlice(lines, b));
  }

  /** The data file of a written book is a copy of the smallest template that holds
      its pages, under a name the directory holds; the copied name is matched back
      to that capacity, and every page a line is written to lies inside it. */
  lemma BookTemplate(lines: seq<string>, b: nat, author: string, title: string, signed: bool,
                     sizes: seq<nat>, names: seq<string>)
    requires b < BookCount(|lines|) && Sorted(sizes)
    requires BookRun(lines, b, author, title, signed, sizes, names).failure == None
    ensures var trace := BookRun(lines, b, author, title, signed, sizes, names).trace;
      var numpages := NumPages(|lines|, b);
      |trace| >= 2 && trace[1].CopyTemplate? && trace[1].source in names &&
      trace[1].target == DatFileName(author, BookTitle(title, TotalBooks(|lines|), b)) &&
      exists size :: MatchTemplateName(trace[1].source) == Some(size) && size in sizes &&
        numpages <= size && (forall t :: t in sizes && t >= numpages ==> size <= t) &&
        (forall i :: 0 <= i < |BookSlice(lines, b)| ==> i / 44 < size)
  {
    var n := |lines|;
    var numpages := NumPages(n, b);
    BookRunOutcome(lines, b, author, title, signed, sizes, names);
    WrittenBookRun(lines, b, author, title, signed, sizes, names);
    var size := SelectTemplate(sizes, numpages).value;
    TemplateFileNameMatches(size);
    SelectTemplateSmallest(sizes, numpages);
    forall i | 0 <= i < |BookSlice(lines, b)|
      ensures i / 44 < size
    {
      LinePageInBook(lines, b, i);
    }
  }

  // ---------------------------------------------------------------------------
  // Reading the data files back

  /** Some effect of `trace` sets the tag at `path` in `file`. */
  predicate Writes(trace: seq<Effect>, file: string, path: seq<string>)
  {
    exists e :: e in trace && e.SetTag? && e.file == file && e.path == path
  }

  /** Effects appended after others decide every tag they set; a tag they do not
      set keeps the value the earlier effects gave it. */
  lemma {:induction false} TagValueAppend(w1: seq<Effect>, w2: seq<Effect>, file: string, path: seq<string>)
    ensures TagValue(w1 + w2, file, path)
         == if Writes(w2, file, path) then TagValue(w2, file, path) else TagValue(w1, file, path)
    decreases |w2|
  {
    if w2 == [] {
      assert w1 + w2 == w1;
    } else {
      var init := w2[..|w2| - 1];
      var e := w2[|w2| - 1];
      assert w2 == init + [e];
      assert w1 + w2 == (w1 + init) + [e];
      TagValueSnoc(w1 + init, e, file, path);
      TagValueSnoc(init, e, file, path);
      TagValueAppend(w1, init, file, path);
      if Writes(init, file, path) {
        var x :| x in init && x.SetTag? && x.file == file && x.path == path;
        assert x in w2;
      }
      if e.SetTag? && e.file == file && e.path == path {
        assert e in w2;
      }
    }
  }

  /** A tag that no effect sets keeps the template's blank default. */
  lemma TagValueUnwritten(w: seq<Effect>, file: string, path: seq<string>)
    requires !Writes(w, file, path)
    ensures TagValue(w, file, path) == ""
  {
    TagValueAppend([], w, file, path);
    assert [] + w == w;
  }

  /** Effects that do not set a tag can be dropped from before the ones that do. */
  lemma TagValueAfter(w1: seq<Effect>, w2: seq<Effect>, file: string, path: seq<string>)
    requires !Writes(w1, file, path)
    ensures TagValue(w1 + w2, file, path) == TagValue(w2, file, path)
  {
    TagValueAppend(w1, w2, file, path);
    if !Writes(w2, file, path) {
      TagValueUnwritten(w1, file, path);
      TagValueUnwritten(w2, file, path);
    }
  }

  /** Traces none of which sets a tag do not set it together either. */
  lemma {:induction false} NoWritesConcat(ts: seq<seq<Effect>>, file: string, path: seq<string>)
    requires forall j :: 0 <= j < |ts| ==> !Writes(ts[j], file, path)
    ensures !Writes(Concat(ts), file, path)
    decreases |ts|
  {
    if ts != [] {
      var rest := ts[1..];
      assert forall j :: 0 <= j < |rest| ==> rest[j] == ts[j + 1];
      NoWritesConcat(rest, file, path);
      assert !Writes(ts[0], file, path);
      forall e | e in ts[0] + Concat(rest)
        ensures !(e.SetTag? && e.file == file && e.path == path)
      {
        if e in ts[0] {
          assert !(e.SetTag? && e.file == file && e.path == path);
        } else {
          assert e in Concat(rest);
        }
      }
    }
  }

  /** When only trace k of several sets a tag, the tag reads as trace k left it. */
  lemma {:induction false} TagValueOnly(ts: seq<seq<Effect>>, k: nat, file: string, path: seq<string>)
    requires k < |ts|
    requires forall j :: 0 <= j < |ts| && j != k ==> !Writes(ts[j], file, path)
    ensures TagValue(Concat(ts), file, path) == TagValue(ts[k], file, path)
    decreases |ts|
  {
    var rest := ts[1..];
    assert Concat(ts) == ts[0] + Concat(rest);
    assert forall j :: 0 <= j < |rest| ==> rest[j] == ts[j + 1];
    if k == 0 {
      NoWritesConcat(rest, file, path);
      TagValueAppend(ts[0], Concat(rest), file, path);
    } else {
      TagValueOnly(rest, k - 1, file, path);
      TagValueAfter(ts[0], Concat(rest), file, path);
    }
  }

  /** A written book sets tags only in its own data file. */
  lemma BookWritesOwnFile(lines: seq<string>, b: nat, author: string, title: string, signed: bool,
                          sizes: seq<nat>, names: seq<string>, file: string, path: seq<string>)
    requires b < BookCount(|lines|) && CanCopy(lines, b, sizes, names)
    requires file != DatFileName(author, BookTitle(title, TotalBooks(|lines|), b))
    ensures !Writes(BookRun(lines, b, author, title, signed, sizes, names).trace, file, path)
  {
    WrittenBookRun(lines, b, author, title, signed, sizes, names);
    LineWritesShape(DatFileName(author, BookTitle(title, TotalBooks(|lines|), b)), BookSlice(lines, b));
  }

  /** In a written book, tag `pages/page<i div 44>/<i mod 44>` of its data file
      holds line i of the book. */
  lemma BookReadBack(lines: seq<string>, b: nat, author: string, title: string, signed: bool,
                     sizes: seq<nat>, names: seq<string>, i: nat)
    requires b < BookCount(|lines|) && CanCopy(lines, b, sizes, names)
    requires i < |BookSlice(lines, b)|
    ensures TagValue(BookRun(lines, b, author, title, signed, sizes, names).trace,
                     DatFileName(author, BookTitle(title, TotalBooks(|lines|), b)), LinePath(i))
         == BookSlice(lines, b)[i]
  {
    var bookTitle := BookTitle(title, TotalBooks(|lines|), b);
    var numpages := NumPages(|lines|, b);
    var dat := DatFileName(author, bookTitle);
    WrittenBookRun(lines, b, author, title, signed, sizes, names);
    var first := [WriteInfo(InfoFileName(author, bookTitle), author, bookTitle, numpages),
                  CopyTemplate(CopySource(lines, b, sizes), dat)]
                 + HeaderWrites(dat, author, bookTitle, signed, numpages);
    assert !Writes(first, dat, LinePath(i));
    TagValueAfter(first, LineWrites(dat, BookSlice(lines, b)), dat, LinePath(i));
    LineWritesReadBack(dat, BookSlice(lines, b), i);
  }

  /** Once a whole call has succeeded, every line can be read back: line i of book
      b is the tag `pages/page<i div 44>/<i mod 44>` of book b's data file, for
      every book and every line, whatever the other books wrote. */
  lemma BigBookReadBack(lines: seq<string>, author: string, title: string, allowMultipleBooks: bool,
                        signed: bool, templateNames: seq<string>, b: nat, i: nat)
    requires BigBookRun(lines, author, title, allowMultipleBooks, signed, templateNames).failure == None
    requires b < BookCount(|lines|) && i < |Slices(lines)[b]|
    ensures TagValue(BigBookRun(lines, author, title, allowMultipleBooks, signed, templateNames).trace,
                     DatFileName(author, BookTitle(title, TotalBooks(|lines|), b)), LinePath(i))
         == Slices(lines)[b][i]
  {
    var n := |lines|;
    var count := BookCount(n);
    var sizes := Sort(MatchedSizes(templateNames));
    var dat := DatFileName(author, BookTitle(title, TotalBooks(n), b));
    assert BigBookRun(lines, author, title, allowMultipleBooks, signed, templateNames)
        == BooksRun(lines, count, author, title, signed, sizes, templateNames);
    BooksRunSuccess(lines, count, author, title, signed, sizes, templateNames);
    var ts := BookTraces(lines, count, author, title, signed, sizes, templateNames);
    forall j | 0 <= j < count && j != b
      ensures !Writes(ts[j], dat, LinePath(i))
    {
      BookCountIsTotalBooks(n);
      BookTitles(author, title, TotalBooks(n), j, b);
      BookWritesOwnFile(lines, j, author, title, signed, sizes, templateNames, dat, LinePath(i));
    }
    TagValueOnly(ts, b, dat, LinePath(i));
    BookReadBack(lines, b, author, title, signed, sizes, templateNames, i);
  }
}
