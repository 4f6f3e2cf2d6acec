/** The fixed properties of the two BiblioCraft book formats. */
module Formats {
  // Vanilla book-and-quill books.
  const VanillaAvgLineWidth: nat := 19
  /** `'max page length'` (no unit given): declared, never used by the writer. */
  const VanillaMaxPageLength: nat := 256
  const VanillaLinesPerPage: nat := 13
  /** `'max number of pages'`: declared, never used by the writer. */
  const VanillaMaxPages: nat := 50
  /** The vanilla wrapper is built with width `avg line width - 1`. */
  const VanillaWrapWidth: nat := VanillaAvgLineWidth - 1

  // BiblioCraft big books.
  const BigBookMaxLineWidth: nat := 70
  const BigBookLinesPerPage: nat := 44
  const BigBookMaxPages: nat := 256
  /** The big-book wrapper is built with width `max line width - 1`. */
  const BigBookWrapWidth: nat := BigBookMaxLineWidth - 1
  /** Lines held by one full big book: 256 pages of 44 lines. */
  const BigBookLinesPerBook: nat := BigBookMaxPages * BigBookLinesPerPage

  /** `'info filename template'` of both formats, `'{author}, {title}'`: the
      vanilla book file and the big-book info file. */
  function InfoFileName(author: string, title: string): string
  {
    author + ", " + title
  }

  /** `'dat filename template'` of big books, `'{author}, {title}.dat'`. */
  function DatFileName(author: string, title: string): string
  {
    author + ", " + title + ".dat"
  }

  /** For one author, different titles give different file names. */
  lemma FileNamesInjective(author: string, title1: string, title2: string)
    ensures InfoFileName(author, title1) == InfoFileName(author, title2) ==> title1 == title2
    ensures DatFileName(author, title1) == DatFileName(author, title2) ==> title1 == title2
  {
    var k := |author| + 2;
    if InfoFileName(author, title1) == InfoFileName(author, title2) {
      assert InfoFileName(author, title1)[k..] == title1;
      assert InfoFileName(author, title2)[k..] == title2;
    }
    if DatFileName(author, title1) == DatFileName(author, title2) {
      assert DatFileName(author, title1)[k..k + |title1|] == title1;
      assert DatFileName(author, title2)[k..k + |title2|] == title2;
    }
  }
}
