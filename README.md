# Diario Oficial front end: toolbar, accessibility and filter state

This project models the three pieces of the gazette front end that hold
logic of their own. Everything else in the front end is markup over
hard-coded mock data.

- **PDF viewer** (`src/components/PDFViewer.tsx`). Module `PdfViewer`
  holds the page counter. The counter is clamped to the document's page
  count once the renderer has reported it, and it goes back to page 1 on
  every successful load. The previous/next buttons are disabled exactly
  when their handlers would do nothing. The module also holds the
  fullscreen flag and the search box, which shows its message only when
  the trimmed text is non-empty.
- **Header** (`src/components/Header.tsx`). Module `Header` holds the
  font-size stepper: 16 at mount, steps of 2, no-ops outside [12, 24],
  each change written to the root element as `${size}px`. It also holds
  the high-contrast toggle, which flips the flag and the root's
  `high-contrast` class together, the dark/light theme button, and the
  highlighting of the current route's navigation link. The document's
  root element outlives the component, so it is its own class,
  `DocumentRoot`.
- **Filter panel** (`src/components/FilterPanel.tsx`). Module
  `FilterPanel` holds the eight-field criteria record. A write replaces
  one field, clear resets the record to its initial all-empty value, and
  search hands the record on unchanged. The module also holds the three
  fixed option lists.

Two modules support these. `JsString` models the ECMAScript `trim` (its
WhiteSpace and LineTerminator code points) and the decimal text of a
non-negative integer. `Wrappers` holds `Option`, which stands for
JavaScript `null`.

The front end has no paging of the document list and no filtering
predicate. The document explorer renders the whole mock array
(`src/components/DocumentExplorer.tsx:119`, `:226`), and `handleSearch`
only logs (`src/components/FilterPanel.tsx:72-75`). Neither is modelled.

## Model

| member | source | states |
|---|---|---|
| `PdfViewer.PrevPage` | src/components/PDFViewer.tsx:48-50 | The previous-page step never goes below 1. It moves back exactly one page above page 1 and gives 1 at page 1. |
| `PdfViewer.NextPage` | src/components/PDFViewer.tsx:52-54 | With no page count (null or 0) the next-page step leaves the page unchanged. Otherwise it never goes past the count, moves forward exactly one page below the count, and gives the count at or past it. |
| `PdfViewer.PrevDisabled` | src/components/PDFViewer.tsx:112 | The previous button's `disabled={pageNumber <= 1}`. For any page of at least 1 it holds exactly on page 1. |
| `PdfViewer.NextDisabled` | src/components/PDFViewer.tsx:120 | The next button's `disabled` condition: no page count, or the page at or past the count. It always holds without a page count, and within the document it holds exactly on the last page. |
| `PdfViewer.PrevDisabledIffNoOp` | src/components/PDFViewer.tsx:112 | For any page of at least 1, the previous button's `disabled` condition holds if and only if the previous-page step would leave the page unchanged. |
| `PdfViewer.NextDisabledIffNoOp` | src/components/PDFViewer.tsx:120 | When the page is within the document, the next button's `disabled` condition holds if and only if the next-page step would leave the page unchanged. This includes the case where there is no page count yet. |
| `PdfViewer.StepsPreservePageInRange` | src/components/PDFViewer.tsx:31-54 | Both steps keep the page invariant. The page stays at least 1, at most the page count once there are pages, and exactly 1 while there are none. |
| `PdfViewer.PdfViewer.constructor` | src/components/PDFViewer.tsx:31-35 | The viewer starts with no page count, page 1, an empty search text and fullscreen off. The page invariant holds. |
| `PdfViewer.PdfViewer.OnDocumentLoadSuccess` | src/components/PDFViewer.tsx:37-41 | A successful load records the reported count and resets the page to 1 whatever page was shown before. Nothing else changes. |
| `PdfViewer.PdfViewer.GoToPrevPage` | src/components/PDFViewer.tsx:48-50 | The page becomes the previous-page step of the old page: a no-op at page 1, otherwise exactly one less. The invariant is kept and the other fields are unchanged. |
| `PdfViewer.PdfViewer.GoToNextPage` | src/components/PDFViewer.tsx:52-54 | The page becomes the next-page step of the old page. This is a no-op without pages and at the last page, and exactly one more otherwise. The invariant is kept and the other fields are unchanged. |
| `PdfViewer.PdfViewer.ToggleFullscreen` | src/components/PDFViewer.tsx:64-66 | The fullscreen flag is negated and nothing else changes. |
| `PdfViewer.ToggleFullscreenTwice` | src/components/PDFViewer.tsx:64-66 | Toggling fullscreen twice restores the flag and leaves the rest of the viewer as it was. |
| `PdfViewer.PdfViewer.SetSearchText` | src/components/PDFViewer.tsx:130 | The search box's change handler stores exactly the typed text. The page, the count and fullscreen are unchanged. |
| `PdfViewer.PdfViewer.HandleSearch` | src/components/PDFViewer.tsx:78-82 | Search produces its message if and only if the trimmed text is non-empty. Equivalently, it acts if and only if the text is not all whitespace. The message quotes the text, and the state is not modified. |
| `PdfViewer.PdfViewer.PrevButtonDisabled` | src/components/PDFViewer.tsx:112 | The previous button's `disabled` attribute for the viewer's current page. |
| `PdfViewer.PdfViewer.NextButtonDisabled` | src/components/PDFViewer.tsx:120 | The next button's `disabled` attribute for the viewer's current page and page count. |
| `PdfViewer.SearchMessage` | src/components/PDFViewer.tsx:80 | The search toast is the fixed prefix `Buscando: "`, then the search text exactly as typed, then the fixed suffix `" (Función en desarrollo)`. |
| `JsString.TrimStart` | src/components/PDFViewer.tsx:79 | Removing leading whitespace gives the suffix of the input that starts at its first non-whitespace character. Everything removed is whitespace. |
| `JsString.TrimEnd` | src/components/PDFViewer.tsx:79 | Removing trailing whitespace gives the prefix of the input that ends at its last non-whitespace character. Everything removed is whitespace. |
| `JsString.Trim` | src/components/PDFViewer.tsx:79 | `trim` gives a contiguous slice of the input with only whitespace on either side of it. A non-empty result neither starts nor ends with whitespace. |
| `JsString.TrimEmptyIffBlank` | src/components/PDFViewer.tsx:79 | A string trims to the empty string if and only if every character of it is whitespace. |
| `JsString.Decimal` | src/components/Header.tsx:17 | The printed form of a number is non-empty, made only of decimal digits, and has no leading zero. |
| `JsString.DecimalRoundTrip` | src/components/Header.tsx:17 | Reading the printed digits back gives the number, so the printed form is injective. |
| `Header.Increased` | src/components/Header.tsx:13-19 | Below 24, the increase adds exactly 2. At 24 or above it changes nothing. |
| `Header.Decreased` | src/components/Header.tsx:21-27 | Above 12, the decrease subtracts exactly 2. At 12 or below it changes nothing. |
| `Header.RunStaysReachable` | src/components/Header.tsx:10-27 | From any even size in [12, 24], every sequence of increase/decrease presses ends at an even size in [12, 24]. |
| `Header.ReachableFromDefault` | src/components/Header.tsx:10-27 | Starting from 16, a size can be reached by some sequence of presses if and only if it is even and in [12, 24]. |
| `Header.StepsUndoEachOther` | src/components/Header.tsx:13-27 | From a reachable size below 24, increasing then decreasing returns to that size. From one above 12, decreasing then increasing does. |
| `Header.Px` | src/components/Header.tsx:17 | The inline font size written to the root, `${newSize}px` (also at line 25): decimal digits followed by `px`. |
| `Header.ParsePxRoundTrip` | src/components/Header.tsx:17 | The CSS text `${size}px` written to the root reads back as the size, so distinct sizes give distinct root styles. |
| `Header.ToggleClass` | src/components/Header.tsx:31 | `classList.toggle` flips the membership of the toggled class and leaves every other class as it was. |
| `Header.ToggleClassTwice` | src/components/Header.tsx:31 | Toggling a class twice restores the class list. |
| `Header.NextTheme` | src/components/Header.tsx:131 | The theme button always gives "light" or "dark". It gives "light" if and only if the theme was "dark"; any other theme becomes "dark". |
| `Header.NextThemeTwice` | src/components/Header.tsx:131 | Between "dark" and "light", pressing the theme button twice restores the theme. |
| `Header.IsActiveLink` | src/components/Header.tsx:57-83 | A navigation link is highlighted when `location.pathname` equals its target. |
| `Header.ActiveLinks` | src/components/Header.tsx:55-86 | The positions, among the four links, of the links that are highlighted for a path. |
| `Header.AtMostOneActiveLink` | src/components/Header.tsx:55-86 | For any path at most one of the four navigation links is highlighted. Exactly one is highlighted if and only if the path is one of the four targets. |
| `Header.RestoredSize` | src/components/Header.tsx:10 | The size taken over from the root is always reachable. It is 16 when the root style is unset, and it is the size the stepper wrote whenever the root holds such a style. |
| `Header.RemountAfterIncreaseDisagrees` | src/components/Header.tsx:10-17 | After one increase from 16 the root holds a style that does not show 16. So a header mounted again at 16 disagrees with the root. |
| `Header.DocumentRoot.constructor` | src/components/Header.tsx:17-31 | `document.documentElement`, the object the handlers write: it starts with no inline font size and an empty class list. |
| `Header.Header.AgreesWithRoot` | src/components/Header.tsx:16-17 | The state and the root agree. The root's inline font size is the state's size in px, or is unset while the size is 16. The root has the `high-contrast` class exactly when the flag is on. |
| `Header.Header.Mount` | src/components/Header.tsx:8-11 | Mounting as written sets the size to 16, contrast off and the current theme. The state then agrees with the root if and only if the root shows 16 and lacks the `high-contrast` class. |
| `Header.Header.Restore` | src/components/Header.tsx:10-11 | A mount that takes the size and the contrast flag over from the root. It keeps the size reachable and agrees with any root that a header can have left behind. |
| `Header.Header.IncreaseFontSize` | src/components/Header.tsx:13-19 | The size becomes the increase of the old size. On a change the root's inline font size becomes the new size in px. At 24 neither is touched. Agreement with the root and the size invariant are kept, and the classes, contrast and theme are unchanged. |
| `Header.Header.DecreaseFontSize` | src/components/Header.tsx:21-27 | The size becomes the decrease of the old size. On a change the root's inline font size becomes the new size in px. At 12 neither is touched. Agreement and the invariant are kept, and the rest is unchanged. |
| `Header.Header.ToggleHighContrast` | src/components/Header.tsx:29-32 | The flag is negated and the root's `high-contrast` class is toggled in the same step, so agreement is kept. The size, the root style and the theme are unchanged. |
| `Header.ToggleHighContrastTwice` | src/components/Header.tsx:29-32 | Toggling high contrast twice restores both the flag and the root's class list. |
| `Header.Header.ToggleTheme` | src/components/Header.tsx:131 | The theme becomes the theme button's successor of the old theme. The size and the contrast flag are unchanged. |
| `Header.RouteChange` | src/components/Header.tsx:10-32 | The first header raises the size and turns contrast on. After a route change, the header mounted as written disagrees with the root, and the restoring one agrees with it at size 18 with contrast on. |
| `FilterPanel.Extensionality` | src/components/FilterPanel.tsx:10-19 | Two criteria records are equal if and only if they hold the same value under each of the eight keys. |
| `FilterPanel.Get` | src/components/FilterPanel.tsx:10-19 | `filters[key]`: the field of the record that a key names. |
| `FilterPanel.EmptyFilters` | src/components/FilterPanel.tsx:57-66 | In the initial record, all eight fields are the empty string. |
| `FilterPanel.With` | src/components/FilterPanel.tsx:68-70 | The spread update sets the written key to the new value. The other seven keys keep their values. |
| `FilterPanel.LastWriteWins` | src/components/FilterPanel.tsx:69 | Of two writes to the same key, the second one wins. |
| `FilterPanel.WritesCommute` | src/components/FilterPanel.tsx:69 | Writes to two different keys give the same record in either order. |
| `FilterPanel.WriteSameValue` | src/components/FilterPanel.tsx:69 | Writing back the value a key already holds leaves the record unchanged. |
| `FilterPanel.Populated` | src/components/FilterPanel.tsx:10-19 | A key is in the populated set if and only if its field is non-empty. |
| `FilterPanel.TwoWritesFromEmpty` | src/components/FilterPanel.tsx:68-70 | Start from the empty record and write non-empty values to two different keys. Exactly those two keys are then populated. |
| `FilterPanel.TiposEdicionDistinct` | src/components/FilterPanel.tsx:21-26 | The edition-type options, used as React keys, contain no duplicates. |
| `FilterPanel.TiposNormaDistinct` | src/components/FilterPanel.tsx:28-34 | The norm-type options, used as React keys, contain no duplicates. |
| `FilterPanel.EntidadesDistinct` | src/components/FilterPanel.tsx:36-53 | The issuing-entity options, used as React keys, contain no duplicates. |
| `FilterPanel.FilterPanel.constructor` | src/components/FilterPanel.tsx:57-66 | The panel starts with the all-empty record. |
| `FilterPanel.FilterPanel.HandleFilterChange` | src/components/FilterPanel.tsx:68-70 | The record becomes the old record with the one key overwritten. That key holds the value, and the other seven fields are unchanged. |
| `FilterPanel.FilterPanel.HandleClear` | src/components/FilterPanel.tsx:77-88 | From any state, clearing leaves the record equal to the initial all-empty record. |
| `FilterPanel.HandleClearTwice` | src/components/FilterPanel.tsx:77-88 | Clearing twice gives the same record as clearing once. |
| `FilterPanel.FilterPanel.HandleSearch` | src/components/FilterPanel.tsx:72-75 | Search returns the current record field for field and does not modify the panel. |

## Findings

| source | as written | input that shows it | evidently intended | confidence | as-written member | corrected member |
|---|---|---|---|---|---|---|
| src/components/Header.tsx:10-11 | Every mount starts the state at size 16 with contrast off. It does not look at the root element, yet every page (`src/pages/Index.tsx:10`, `src/pages/Publicaciones.tsx:8`, `src/pages/Estadisticas.tsx:7`) mounts its own header, so each route change mounts it again while the root keeps its inline size and class. | On "/", press A+ once and toggle contrast, then open "/publicaciones". The new header holds 16 with contrast off, but the root keeps `18px` and the `high-contrast` class. The next A+ writes `18px` again, so the press seems to do nothing. The next contrast press removes the class while the flag turns on. | The header's state agrees with what it applied to the root, including across route changes. | medium; not executed | `Header.RemountAfterIncreaseDisagrees` | `Header.Header.Restore` |

## Left out

- PDF zoom (`scale`, steps of 0.2 between 0.5 and 3, rounded percentage): floating point.
- PDF rendering, the pdf.js worker setting and the page/loading placeholders: these are calls into react-pdf.
- `onDocumentLoadError`, the download anchor, speech synthesis and every toast: browser I/O with no component state. `HandleSearch` returns its toast text instead of showing it.
- The dialog's `isOpen`/`onClose` props and the fullscreen class names: presentation.
- JavaScript strings are sequences of UTF-16 code units, while a Dafny `string` is a sequence of Unicode scalar values, so lone surrogates cannot be represented. `trim` is unaffected, because every character it removes is in the Basic Multilingual Plane.
- JavaScript falsiness of `NaN` as a page count: the count is a `nat` or `null`.
- The ThemeProvider's storage and its own writes to the root: the theme is a plain field set by the button.
- The root element's other style properties: only its inline `font-size` and class list are modelled.
- The filter panel's collapsible `isOpen` flag and its markup: presentation only.
- The document explorer, the statistics panel, the latest-publication card and the page shells: mock data and markup.
- Header.Header.IncreaseFontSize: requires the size invariant that both constructors establish, which the source keeps implicitly.
- Header.Header.DecreaseFontSize: requires the size invariant that both constructors establish, which the source keeps implicitly.
