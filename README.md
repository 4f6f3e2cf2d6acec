# BiblioCraft book formatter, modelled in Dafny

The formatter turns a plain text into books for Minecraft. It handles two formats:

- **Vanilla book-and-quill book.** The text is word-wrapped to 18 columns (`book_wrap`). `book_write` then writes a single file: the title, the author and the word `public`, then the lines in pages of 13, each page opened by a marker line `#pgx<k>`.
- **BiblioCraft big book.** The text is wrapped to 69 columns (`big_book_wrap`). `big_book_write` cuts the lines into books of at most 256 pages of 44 lines. For every book it does four things:
  1. renders an info file;
  2. copies a data template: `bisect_left` on the sorted sizes that `_get_template_sizes` reads from the template directory picks the smallest size n that holds the book's pages, and the copy opens the file named `dat template <n>.dat`, rebuilt from n. A directory entry such as `dat template 012.dat` counts as size 12, but the copy then asks for `dat template 12.dat` and raises FileNotFoundError when that name is absent;
  3. sets the author, display name, signed flag and page count through an external NBT tool;
  4. sets every non-empty line at `pages/page<i div 44>/<i mod 44>`.

  `_get_special_symbols` gives the candidate marker symbols that a text does not use.

The project has one module per concern:

| module | file | contents |
|---|---|---|
| `Seqs` | `seqs.dfy` | integer ceiling, `Concat`, `Chunks`, `Join` and `Split` on one character |
| `Text` | `text.dfy` | Python's `str(n)`, `int(digits)` and `str.splitlines()` |
| `Wrappers` | `wrappers.dfy` | `Option` |
| `Formats` | `formats.dfy` | the constants of both formats and their file-name templates |
| `Wrap` | `wrap.dfy` | `book_wrap`, `big_book_wrap` |
| `Vanilla` | `vanilla.dfy` | `book_write` and a reader for its output |
| `Templates` | `templates.dfy` | the template file name pattern, `_get_template_sizes`, `bisect_left` and the template choice |
| `BigBook` | `bigbook.dfy` | `big_book_write` |
| `Symbols` | `symbols.dfy` | `_get_special_symbols` |

Wherever the source runs a loop, the model has a method with the same loop: the paragraph loop, the vanilla page loop, the directory scan, the binary search, and the book and line loops of `big_book_write`. Each method is proved equal to a specification function, except the binary search: `BisectLeft` returns an index no greater than the length on any input, and equals `LowerBound` only when the sizes are sorted (as `_get_template_sizes` returns them). The properties are proved as lemmas about the specification functions.

`big_book_write` touches the file system and runs a subprocess. Neither happens in the model. Its method instead returns two things:

- a trace of the effects, in order: info file written, template copied, tag set;
- the exception it raised, if any: `TooManyPagesError`; the `IndexError` raised when no template is large enough; or a `FileNotFoundError` for the `info template` or for the data template name the copy rebuilds.

The template directory is given as the list of its file names. The `TextWrapper` is a function parameter. The only thing assumed about it is that it never returns a line longer than its width.

The vanilla file has no blank line between `public` and `#pgx0`: the code joins `"\n#pgx0"` onto the header with no extra newline.

## Model

| member | source | states |
|---|---|---|
| `Wrap.WrapText` | bibliocraft_book_formatter.py:139-146 | The paragraph loop returns the concatenation, in paragraph order, of each `splitlines` paragraph's wrapped lines. A paragraph that wraps to nothing contributes one empty line. |
| `Wrap.BookWrap` | bibliocraft_book_formatter.py:148-157 | `book_wrap` yields those lines for the 18-column wrapper. Every paragraph gives at least one line, and no line is longer than 18 characters. |
| `Wrap.BigBookWrap` | bibliocraft_book_formatter.py:137-146 | `big_book_wrap` does the same for the 69-column wrapper. No line is longer than 69 characters. |
| `Wrap.Block` | bibliocraft_book_formatter.py:142-144 | Every paragraph contributes at least one line. |
| `Wrap.WrapAll` | bibliocraft_book_formatter.py:141-145 | The lines of a run of paragraphs are their blocks in order, so there are never fewer lines than paragraphs. |
| `Wrap.WrapAllAppend` | bibliocraft_book_formatter.py:141-145 | Wrapping two runs of paragraphs gives the first run's lines followed by the second's, so paragraph order is kept. |
| `Wrap.WrapAllParagraph` | bibliocraft_book_formatter.py:141-145 | Paragraph k's wrapped lines come, unchanged, right after the lines of paragraphs 0..k-1. |
| `Wrap.WrapAllWidth` | bibliocraft_book_formatter.py:39-42 | When the wrapper respects its width, so does every output line. |
| `Text.SplitLines` | bibliocraft_book_formatter.py:139 | `splitlines` never yields more paragraphs than the text has characters. No paragraph contains a line boundary. |
| `Text.SplitLinesJoin` | bibliocraft_book_formatter.py:150 | `splitlines` undoes a newline join of boundary-free paragraphs whose last one is non-empty. |
| `Text.NatToString` | bibliocraft_book_formatter.py:101 | `str(n)` is a non-empty run of decimal digits with no leading zero. |
| `Text.ParseNatToString` | bibliocraft_book_formatter.py:59 | `int(str(n)) == n`. |
| `Text.NatToStringInjective` | bibliocraft_book_formatter.py:101 | Different book numbers print differently. |
| `Vanilla.BookWrite` | bibliocraft_book_formatter.py:159-172 | The page loop builds exactly `VanillaText`: the header lines, then each 13-line group preceded by its `#pgx<k>` marker, all separated by single newlines. The file is named `<author>, <title>`. |
| `Vanilla.MarkerNumber` | bibliocraft_book_formatter.py:164 | The marker of page k is `#pgx` followed by decimal digits that read back as k. |
| `Vanilla.WritePageStep` | bibliocraft_book_formatter.py:164-170 | With 13k lines already paged, one loop turn appends a newline, `#pgx<k>` and the next (up to 13) lines, which extends the text of pages 0..k-1 by page k. |
| `Vanilla.VanillaRoundTrip` | bibliocraft_book_formatter.py:159-170 | Reading the file back gives the title, the author and all the lines, in order, provided none of them contains a newline. |
| `Vanilla.VanillaPage` | bibliocraft_book_formatter.py:162-169 | For each of the ceil(n/13) pages k: the marker `#pgx<k>` is field 14k after the header, and it is followed by exactly `lines[13k : 13k + min(13, n - 13k)]`. |
| `Vanilla.PageLines` | bibliocraft_book_formatter.py:166-169 | Page k is `lines[13k : 13k + min(13, n - 13k)]`, and it starts before the end. |
| `Vanilla.PageAt` | bibliocraft_book_formatter.py:163-169 | Page k's marker is numbered k from the first page's number, and page k's lines follow it. |
| `Vanilla.VanillaLayout` | bibliocraft_book_formatter.py:161-170 | The file has 3 + ceil(n/13) + n newline-separated fields. With no lines it is just `title\nauthor\npublic`. |
| `Vanilla.PageFieldsLength` | bibliocraft_book_formatter.py:161-169 | The page part (`PageFields`) has one field per page marker plus one per line. |
| `Vanilla.ReadPagesOfPages` | bibliocraft_book_formatter.py:162-170 | The page part reads back to the original lines. |
| `Templates.DigitRun` | bibliocraft_book_formatter.py:35 | `\d+` consumes the maximal run of digits. |
| `Templates.MatchShape` | bibliocraft_book_formatter.py:57-59 | A name matches only if it is `dat template `, a non-empty run of digits, `.dat` and any tail; the captured size is the value of those digits. |
| `Templates.MatchOfShape` | bibliocraft_book_formatter.py:57-59 | Conversely, every name of that shape matches and captures the value of its digits, leading zeros included (`dat template 007.dat` gives 7). |
| `Templates.TemplateFileNameMatches` | bibliocraft_book_formatter.py:118 | The name the copy step builds for a size, `dat template <size>.dat`, matches the pattern with that same size. |
| `Templates.MatchIgnoresTail` | bibliocraft_book_formatter.py:57 | `re.match` anchors only at the start, so anything after a matching name does not change the match. |
| `Templates.MatchedSizesMembers` | bibliocraft_book_formatter.py:56-59 | A size is collected exactly when some directory entry matches with it. |
| `Templates.MatchedSizes` | bibliocraft_book_formatter.py:56-59 | The directory scan collects at most one size per directory entry. |
| `Templates.InsertSorted` | bibliocraft_book_formatter.py:60 | Inserting into a sorted list keeps it sorted. |
| `Templates.Sort` | bibliocraft_book_formatter.py:60 | `sorted` returns an ascending permutation of its input. |
| `Templates.TemplateSizes` | bibliocraft_book_formatter.py:52-60 | `_get_template_sizes` returns the matched sizes, ascending, as a permutation of the sizes found. |
| `Templates.LowerBound` | bibliocraft_book_formatter.py:119 | Gives the first index whose element is at least x: every earlier element is below x. |
| `Templates.LowerBoundUnique` | bibliocraft_book_formatter.py:119 | That index is the only one with this property. |
| `Templates.BisectLeft` | bibliocraft_book_formatter.py:119 | The binary search returns an index no greater than the length. On a sorted list it is the first index whose element is at least x. |
| `Templates.SelectTemplate` | bibliocraft_book_formatter.py:116-122 | The chosen capacity is in the catalog and holds the book. Indexing fails exactly when every capacity is smaller than the page count. |
| `Templates.SelectTemplateSmallest` | bibliocraft_book_formatter.py:116-122 | On sorted sizes the choice is the smallest capacity that fits. An exact size is chosen itself. |
| `Symbols.SpecialSymbols` | bibliocraft_book_formatter.py:48-50 | A symbol is returned exactly when it is one of the twelve candidates and does not occur in the text. |
| `Symbols.SpecialSymbolsPartition` | bibliocraft_book_formatter.py:48-50 | The free symbols and the used symbols split the twelve candidates. A text using none leaves all twelve free; a text using all leaves none. |
| `BigBook.BookCountIsTotalBooks` | bibliocraft_book_formatter.py:80-94 | The loop over `range(0, n, 11264)` runs exactly `ceil(ceil(n/44)/256)` times: `totalbooks` times. |
| `BigBook.TotalPages` | bibliocraft_book_formatter.py:80 | `totalpages` is the fewest 44-line pages that hold all lines. |
| `BigBook.TotalBooks` | bibliocraft_book_formatter.py:81 | `totalbooks` is the fewest 256-page books that hold `totalpages` pages. |
| `BigBook.BookCount` | bibliocraft_book_formatter.py:94 | The book loop runs once per 11264-line chunk: the fewest chunks that hold all lines. |
| `BigBook.BookStartInRange` | bibliocraft_book_formatter.py:94-97 | Book b starts inside the lines, and its first page lies inside the page count. |
| `BigBook.BookSlice` | bibliocraft_book_formatter.py:97 | Every book's slice holds between 1 and 11264 lines. |
| `BigBook.NumPages` | bibliocraft_book_formatter.py:102-105 | Every book's page count lies between 1 and 256. |
| `BigBook.NumPagesOfSlice` | bibliocraft_book_formatter.py:102-105 | A book's `numpages` equals the number of 44-line pages its own slice fills. |
| `BigBook.LinePageInBook` | bibliocraft_book_formatter.py:131-134 | Every page index a line is written to is below the book's `numpages`. |
| `BigBook.Slices` | bibliocraft_book_formatter.py:94-97 | There is one slice per book. |
| `BigBook.SlicesPartition` | bibliocraft_book_formatter.py:94-97 | The slices are the consecutive 11264-line chunks, and together, in order, they are exactly the lines. |
| `BigBook.BookTitles` | bibliocraft_book_formatter.py:101 | A single book keeps the title. With several books every title gets its book number appended, so no two books share a title, an info file name or a data file name. |
| `BigBook.BookTitle` | bibliocraft_book_formatter.py:101 | A book title starts with the title; with one book it is the title, otherwise the rest is digits that read back as the book number. |
| `Formats.FileNamesInjective` | bibliocraft_book_formatter.py:23-30 | For one author, equal info file names or equal data file names mean equal titles. |
| `BigBook.LinePath` | bibliocraft_book_formatter.py:132-134 | Line i is written at `pages/page<p>/<l>` where p and l are decimal digits with l < 44 and 44p + l = i. |
| `BigBook.LinePathInjective` | bibliocraft_book_formatter.py:132-134 | Different line indices are written to different tag paths. |
| `BigBook.WriteLines` | bibliocraft_book_formatter.py:131-134 | The line loop makes one tag write per non-empty line, in order, at `pages/page<i div 44>/<i mod 44>`. |
| `BigBook.LineWrites` | bibliocraft_book_formatter.py:131-134 | The line loop makes at most one tag write per line. |
| `BigBook.WriteHeader` | bibliocraft_book_formatter.py:125-129 | The header calls produce exactly `HeaderWrites`. |
| `BigBook.HeaderWrites` | bibliocraft_book_formatter.py:125-129 | The header sets three tags for a signed book and four for an unsigned one, all in the book's data file at paths of one or two names, so never at a line's path. |
| `BigBook.WriteBook` | bibliocraft_book_formatter.py:95-134 | One book turn: the info file, then the IndexError, the FileNotFoundError for a rebuilt template name the directory lacks, or the template copy followed by the header tags and the line writes. |
| `BigBook.BookRun` | bibliocraft_book_formatter.py:95-134 | A book always writes its info file first and never raises `TooManyPagesError`. |
| `BigBook.WriteBooks` | bibliocraft_book_formatter.py:94-134 | The book loop: books in order, stopping at the first failure. |
| `BigBook.BigBookWrite` | bibliocraft_book_formatter.py:74-134 | The whole call. Read the template sizes, check the overflow, then write the books. |
| `BigBook.BigBookRun` | bibliocraft_book_formatter.py:74-134 | A call that raises nothing had the `info template` in the directory and needed at most 256 pages or was allowed several books. |
| `BigBook.BooksRunStops` | bibliocraft_book_formatter.py:94-122 | Once a book has raised, later books add nothing. |
| `BigBook.BooksRunNoOverflow` | bibliocraft_book_formatter.py:83-84 | The book loop itself never raises `TooManyPagesError`. |
| `BigBook.BigBookOverflow` | bibliocraft_book_formatter.py:80-90 | `TooManyPagesError` is raised exactly when more than 256 pages are needed and multiple books are not allowed, and then nothing has been written. Otherwise a missing `info template` raises FileNotFoundError before anything is written. With the info template and no lines, nothing is written and nothing is raised. |
| `BigBook.SequenceStops` | bibliocraft_book_formatter.py:94-122 | In runs executed one after another, once a run has raised, the later runs change nothing. |
| `BigBook.SequenceSuccess` | bibliocraft_book_formatter.py:94-134 | Runs executed one after another succeed exactly when every run does. Their trace is then the runs' traces in order. |
| `BigBook.SequenceFirstFailure` | bibliocraft_book_formatter.py:94-122 | A failing sequence of runs stops at its first failing run b. It holds the traces of the runs before b, then b's own trace, and b's failure. |
| `BigBook.BooksRunSuccess` | bibliocraft_book_formatter.py:94-134 | All books are written exactly when every book has a template whose rebuilt name is in the directory. The run is then their traces one after another. |
| `BigBook.BooksRunFirstFailure` | bibliocraft_book_formatter.py:94-122 | A failing run stops at the first book b that cannot copy its template. It holds the full traces of books 0..b-1, then book b's own trace and failure. |
| `BigBook.LineWritesUntouched` | bibliocraft_book_formatter.py:131-134 | Tag paths past the end of the slice are never written. |
| `BigBook.LineWritesReadBack` | bibliocraft_book_formatter.py:131-134 | Reading tag `pages/page<i div 44>/<i mod 44>` after the writes gives line i: non-empty lines as written, empty lines as the blank default. |
| `BigBook.LineWritesShape` | bibliocraft_book_formatter.py:131-134 | Every line write goes to the book's data file, at the path of one of its non-empty lines, with that line as its value. |
| `BigBook.SignedFlag` | bibliocraft_book_formatter.py:127-128 | `signed` is set (to 0) exactly when the book is unsigned. |
| `BigBook.BookTemplate` | bibliocraft_book_formatter.py:116-122 | A written book's data file (`<author>, <book title>.dat`) is the target of a copy of a file the directory holds, whose name matches back to the smallest capacity that holds its pages; every page written lies inside it. |
| `BigBook.CanonicalNamesCopy` | bibliocraft_book_formatter.py:56-59 | When every matching directory entry is spelled `dat template <size>.dat`, a book that some template holds always finds the file the copy step opens. |
| `BigBook.NonCanonicalTemplateName` | bibliocraft_book_formatter.py:116-122 | With only `dat template 012.dat` in the directory, a one-line text writes its info file and raises FileNotFoundError for `dat template 12.dat`. |
| `BigBook.TagValueAppend` | bibliocraft_book_formatter.py:131-134 | A tag read after two runs of writes gives the second run's value if it wrote the tag, else the first run's. |
| `BigBook.TagValueOnly` | bibliocraft_book_formatter.py:94-134 | When only one book of a sequence writes a tag, the whole run leaves that book's value. |
| `BigBook.BookWritesOwnFile` | bibliocraft_book_formatter.py:106-134 | A written book sets tags only in its own data file. |
| `BigBook.BookReadBack` | bibliocraft_book_formatter.py:125-134 | In a written book's data file, tag `pages/page<i div 44>/<i mod 44>` holds line i of the book. |
| `BigBook.BigBookReadBack` | bibliocraft_book_formatter.py:74-134 | After a call that raised nothing, the data file of every book b holds line i of b's slice at `pages/page<i div 44>/<i mod 44>`. |
| `Seqs.NestedCeilDiv` | bibliocraft_book_formatter.py:80-81 | ceil(ceil(n/a)/b) = ceil(n/(a*b)). |
| `Seqs.ChunksConcat` | bibliocraft_book_formatter.py:162-169 | The fixed-size groups, concatenated, give back the sequence. |
| `Seqs.ChunkAt` | bibliocraft_book_formatter.py:162-169 | Group k is `s[k*size : k*size + min(size, n - k*size)]`. |
| `Seqs.SplitJoin` | bibliocraft_book_formatter.py:161 | Splitting a join on a separator that no field contains gives the fields back. |

## Left out

- `Wrap.BookWrap` and `Wrap.BigBookWrap`: the wrapping done by `textwrap.TextWrapper` is not modelled; the wrapper is a parameter. Only its width bound is relied on, so the lemmas say nothing about where words are broken.
- `Symbols.SpecialSymbols`: returns a set. The source returns a list whose order is whatever the set iteration gives, and that order is not modelled.
- `BigBook.BigBookWrite`: the output directory is not modelled. File names are the bare `<author>, <title>` names. Path separators inside the author or the title are not interpreted.
- `BigBook.BigBookWrite`: the contents of the info template and their rendering with `str.format` are not modelled; only whether the directory holds `info template` is. The trace records the values the template is rendered with (author, title, numpages).
- `BigBook.BigBookWrite`: the external NBT tool, its 5-second timeout and its output are not modelled. Each call is a `SetTag` entry with its file, tag path and value. Failures of the tool and of file writes are not modelled, nor failures of `shutil.copy` other than a source name missing from the directory. The template directory is its list of file names, so a missing or unreadable directory is not modelled either.
- `BigBook.BigBookWrite`: the progress messages passed to `outputfunc` are not modelled.
- `BigBook.TotalPages`: the float division in `ceil(len(lines) / 44)` is modelled as the exact integer ceiling. They agree for any realistic line count.
- `BigBook.TagValue`: the dat templates' tag contents are not modelled; every tag is assumed to start as the empty string, so an empty line reads back as `""` only on a blank template.
- `Templates.MatchTemplateName`: `\d` is modelled as the ASCII digits. Python also accepts other Unicode decimal digits.
- `Vanilla.BookWrite`: writing the file is not modelled. The method returns the file name and the content. The `'avg line width'` of 19 only sets the wrapper's width of 18; the `'max page length'` of 256 (no unit given) and the `'max number of pages'` of 50 are declared but never used, and nothing checks line widths when writing, so the model enforces none of them.
- The command-line parser, the GUI and the packaging script are not part of this model.
