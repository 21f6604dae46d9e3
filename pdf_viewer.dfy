/**
 * The PDF viewer dialog's toolbar state: the current page, the page count the
 * renderer reports once the document has loaded, the fullscreen flag and the
 * text of the search box. Each event handler of the component is a method of
 * the class `PdfViewer`; the updater each one hands to React is a function here.
 */
module PdfViewer {
  import opened Wrappers
  import JsString

  /** `numPages ? … : …`: a page count of null or 0 is falsy. */
  predicate HasPages(numPages: Option<nat>) {
    numPages.Some? && numPages.value != 0
  }

  /** The page invariant: never below 1, never past the last page of a loaded document, and 1 while there are no pages. */
  predicate PageInRange(numPages: Option<nat>, page: int) {
    && 1 <= page
    && (HasPages(numPages) ==> page <= numPages.value)
    && (!HasPages(numPages) ==> page == 1)
  }

  /** The updater of `goToPrevPage`, `Math.max(1, prev - 1)`. */
  function PrevPage(prev: int): (r: int)
    ensures r >= 1
    ensures prev > 1 ==> r == prev - 1
    ensures prev <= 1 ==> r == 1
  {
    if prev - 1 >= 1 then prev - 1 else 1
  }

  /** The updater of `goToNextPage`, `numPages ? Math.min(numPages, prev + 1) : prev`. */
  function NextPage(numPages: Option<nat>, prev: int): (r: int)
    ensures !HasPages(numPages) ==> r == prev
    ensures HasPages(numPages) ==> r <= numPages.value
    ensures HasPages(numPages) && prev < numPages.value ==> r == prev + 1
    ensures HasPages(numPages) && prev >= numPages.value ==> r == numPages.value
  {
    if HasPages(numPages) then
      if numPages.value <= prev + 1 then numPages.value else prev + 1
    else
      prev
  }

  /** `disabled={pageNumber <= 1}` on the previous-page button. */
  function PrevDisabled(page: int): (r: bool)
    ensures page >= 1 ==> (r <==> page == 1)
  {
    page <= 1
  }

  /** `disabled={!numPages || pageNumber >= numPages}` on the next-page button. */
  function NextDisabled(numPages: Option<nat>, page: int): (r: bool)
    ensures !HasPages(numPages) ==> r
    ensures HasPages(numPages) && page <= numPages.value ==> (r <==> page == numPages.value)
  {
    !HasPages(numPages) || page >= numPages.value
  }

  /** The previous-page button is disabled exactly when pressing it would change nothing. */
  lemma PrevDisabledIffNoOp(page: int)
    requires page >= 1
    ensures PrevDisabled(page) <==> PrevPage(page) == page
  {
  }

  /** The next-page button is disabled exactly when pressing it would change nothing, as long as the page is within the document. */
  lemma NextDisabledIffNoOp(numPages: Option<nat>, page: int)
    requires HasPages(numPages) ==> page <= numPages.value
    ensures NextDisabled(numPages, page) <==> NextPage(numPages, page) == page
  {
  }

  /** Both steps keep the page invariant. */
  lemma StepsPreservePageInRange(numPages: Option<nat>, page: int)
    requires PageInRange(numPages, page)
    ensures PageInRange(numPages, PrevPage(page))
    ensures PageInRange(numPages, NextPage(numPages, page))
  {
  }

  /** The toast text `handleSearch` shows. */
  function SearchMessage(searchText: string): (r: string)
    ensures |r| == |searchText| + 36
    ensures r[..11] == "Buscando: \"" && r[11..11 + |searchText|] == searchText
    ensures r[11 + |searchText|..] == "\" (Función en desarrollo)"
  {
    "Buscando: \"" + searchText + "\" (Función en desarrollo)"
  }

  class PdfViewer {
    var numPages: Option<nat>
    var pageNumber: int
    var searchText: string
    var isFullscreen: bool

    ghost predicate Valid()
      reads this
    {
      PageInRange(numPages, pageNumber)
    }

    /** The initial state of the component's `useState` cells. */
    constructor ()
      ensures Valid()
      ensures numPages == None && pageNumber == 1
      ensures searchText == "" && !isFullscreen
    {
      numPages := None;
      pageNumber := 1;
      searchText := "";
      isFullscreen := false;
    }

    /** `onDocumentLoadSuccess`: records the reported page count and goes back to page 1, whatever page was shown. */
    method OnDocumentLoadSuccess(count: nat)
      modifies this
      ensures Valid()
      ensures numPages == Some(count) && pageNumber == 1
      ensures searchText == old(searchText) && isFullscreen == old(isFullscreen)
    {
      numPages := Some(count);
      pageNumber := 1;
    }

    /** `goToPrevPage`: one page back, staying at page 1 when already there. */
    method GoToPrevPage()
      requires Valid()
      modifies this
      ensures Valid()
      ensures pageNumber == PrevPage(old(pageNumber))
      ensures old(pageNumber) == 1 ==> pageNumber == 1
      ensures old(pageNumber) > 1 ==> pageNumber == old(pageNumber) - 1
      ensures old(PrevButtonDisabled()) <==> pageNumber == old(pageNumber)
      ensures numPages == old(numPages) && searchText == old(searchText) && isFullscreen == old(isFullscreen)
    {
      PrevDisabledIffNoOp(pageNumber);
      pageNumber := PrevPage(pageNumber);
    }

    /** `goToNextPage`: one page forward, staying put at the last page and before any page count is known. */
    method GoToNextPage()
      requires Valid()
      modifies this
      ensures Valid()
      ensures pageNumber == NextPage(old(numPages), old(pageNumber))
      ensures !HasPages(numPages) ==> pageNumber == old(pageNumber)
      ensures HasPages(numPages) && old(pageNumber) == numPages.value ==> pageNumber == old(pageNumber)
      ensures HasPages(numPages) && old(pageNumber) < numPages.value ==> pageNumber == old(pageNumber) + 1
      ensures old(NextButtonDisabled()) <==> pageNumber == old(pageNumber)
      ensures numPages == old(numPages) && searchText == old(searchText) && isFullscreen == old(isFullscreen)
    {
      NextDisabledIffNoOp(numPages, pageNumber);
      pageNumber := NextPage(numPages, pageNumber);
    }

    /** `toggleFullscreen`: flips the flag and nothing else. */
    method ToggleFullscreen()
      modifies this
      ensures isFullscreen == !old(isFullscreen)
      ensures numPages == old(numPages) && pageNumber == old(pageNumber) && searchText == old(searchText)
    {
      isFullscreen := !isFullscreen;
    }

    /** The search box's `onChange`: stores the typed text. */
    method SetSearchText(text: string)
      modifies this
      ensures searchText == text
      ensures numPages == old(numPages) && pageNumber == old(pageNumber) && isFullscreen == old(isFullscreen)
    {
      searchText := text;
    }

    /** `handleSearch`: returns the message it would show, or `None` when the trimmed text is empty; the state is untouched. */
    method HandleSearch() returns (message: Option<string>)
      ensures message.Some? <==> JsString.Trim(searchText) != ""
      ensures message.Some? <==> !JsString.IsBlank(searchText)
      ensures message.Some? ==> message.value == SearchMessage(searchText)
    {
      JsString.TrimEmptyIffBlank(searchText);
      if JsString.Trim(searchText) != "" {
        message := Some(SearchMessage(searchText));
      } else {
        message := None;
      }
    }

    /** The previous-page button's `disabled` attribute in the current state. */
    function PrevButtonDisabled(): bool
      reads this
    {
      PrevDisabled(pageNumber)
    }

    /** The next-page button's `disabled` attribute in the current state. */
    function NextButtonDisabled(): bool
      reads this
    {
      NextDisabled(numPages, pageNumber)
    }
  }

  /** Toggling fullscreen twice restores the original flag and the rest of the state. */
  method ToggleFullscreenTwice(v: PdfViewer)
    modifies v
    ensures v.isFullscreen == old(v.isFullscreen)
    ensures v.numPages == old(v.numPages) && v.pageNumber == old(v.pageNumber) && v.searchText == old(v.searchText)
  {
    v.ToggleFullscreen();
    v.ToggleFullscreen();
  }
}
