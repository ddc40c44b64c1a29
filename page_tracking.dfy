/**
 * `PDFPageTracker` of enhanced_metadata.py: a running count of characters
 * read from a document and the page estimated from it at a fixed number of
 * characters per page.
 */
module PageTracking {

  /** The approximate number of characters on a page. */
  const CharsPerPage: nat := 3000

  /** The page a character count falls on, counting from 0: `char_count // chars_per_page`. */
  function EstimatedPage(charCount: nat, charsPerPage: nat): (page: nat)
    requires charsPerPage > 0
    ensures page * charsPerPage <= charCount < (page + 1) * charsPerPage
  {
    charCount / charsPerPage
  }

  /** Reading more never moves the estimate back. */
  lemma EstimatedPageMonotone(a: nat, b: nat, charsPerPage: nat)
    requires charsPerPage > 0 && a <= b
    ensures EstimatedPage(a, charsPerPage) <= EstimatedPage(b, charsPerPage)
  {
    var p, r := EstimatedPage(a, charsPerPage), EstimatedPage(b, charsPerPage);
    if r < p {
      MulMonotone(r + 1, p, charsPerPage);
    }
  }

  /** A chunk shorter than a page moves the estimate by at most one page. */
  lemma EstimatedPageStep(a: nat, length: nat, charsPerPage: nat)
    requires charsPerPage > 0 && length < charsPerPage
    ensures EstimatedPage(a + length, charsPerPage) <= EstimatedPage(a, charsPerPage) + 1
  {
    var p, r := EstimatedPage(a, charsPerPage), EstimatedPage(a + length, charsPerPage);
    assert a + length < (p + 2) * charsPerPage by {
      assert (p + 2) * charsPerPage == (p + 1) * charsPerPage + charsPerPage;
    }
    if r > p + 1 {
      MulMonotone(p + 2, r, charsPerPage);
    }
  }

  lemma MulMonotone(x: nat, y: nat, c: nat)
    requires x <= y
    ensures x * c <= y * c
  {
    assert y * c == x * c + (y - x) * c;
  }

  /** The first page is page 0 until a whole page has been read. */
  lemma FirstPage(charCount: nat, charsPerPage: nat)
    requires charsPerPage > 0
    ensures EstimatedPage(charCount, charsPerPage) == 0 <==> charCount < charsPerPage
  {
  }

  class PDFPageTracker {
    var currentPage: nat
    var charsPerPage: nat
    var charCount: nat

    /** The page is always the estimate for the characters counted so far. */
    predicate Valid()
      reads this
    {
      charsPerPage > 0 && currentPage == EstimatedPage(charCount, charsPerPage)
    }

    constructor ()
      ensures Valid()
      ensures currentPage == 0 && charsPerPage == CharsPerPage && charCount == 0
    {
      currentPage := 0;
      charsPerPage := CharsPerPage;
      charCount := 0;
    }

    /** `update(text_chunk)`: counts the chunk's characters and returns the new estimate. */
    method Update(textChunk: string) returns (page: nat)
      requires Valid()
      modifies this
      ensures Valid()
      ensures charsPerPage == old(charsPerPage)
      ensures charCount == old(charCount) + |textChunk|
      ensures page == currentPage == EstimatedPage(charCount, charsPerPage)
      ensures page >= old(currentPage)
    {
      charCount := charCount + |textChunk|;
      currentPage := charCount / charsPerPage;
      EstimatedPageMonotone(old(charCount), charCount, charsPerPage);
      page := currentPage;
    }

    /** `reset()`: back to the first page of a new document. */
    method Reset()
      requires Valid()
      modifies this
      ensures Valid()
      ensures currentPage == 0 && charCount == 0 && charsPerPage == old(charsPerPage)
    {
      currentPage := 0;
      charCount := 0;
    }
  }
}
