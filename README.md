# Website submission widget: a Dafny model

This project models the logic of the browser widget in `app/scripts/main.js`. With the widget, a
user submits a website URL with a category and browses the submitted websites by category. The
model covers four parts:

- **The URL validator** (`UrlPattern`). This is the regular expression
  `^(?:http(s)?:\/\/)?[\w.-]+(?:\.[\w\.-]+)+[\w\-\._~:/?#[\]@!\$&'\(\)\*\+,;=.]+$` with the flags `g`
  and `m`.
  - `Matches` states its language as the pattern reads, and `Accepts` decides that language.
  - `Test` is one call of `RegExp.prototype.test`. Under `g` it reads and moves `lastIndex`. Under `m`,
    `^` and `$` match at line boundaries.
- **The creation panel** (`Submission.CreationPanel`). This class holds the closure's state:
  - the `isSendingWebsite` flag;
  - the two input values;
  - the busy markers on the close button, the submit button and the URL input;
  - the validator's `lastIndex`;
  - a log of the requests issued and the toasts shown.

  Its methods are the open, close and submit handlers, `clearCreationArea`,
  `websiteCreationSuccess` and `websiteCreationFail`. A submission runs in two steps:
  `SubmitStart` runs up to the `fetch`, and `Settle` handles the way the request settles. The request
  can reject (a network error), or it can answer with a status and a body that does or does not
  parse as JSON.
- **Category normalisation and the status check** (`Submission`). An empty category becomes
  `"Todas"`, and otherwise the first letter is capitalised. The response status is compared as text
  with `"201"`.
- **The listing side** (`Listing`). This covers the list URL that `renderCards` fetches, the tab
  hrefs and the filter that a tab click asks for, and `renderCategories`, which builds the
  autocomplete keys and the tab strip from the `categories` field. When that field is missing, it
  reads as `[]`.

The model follows the code, including where it behaves differently from what a user of the widget would expect:

- **Success handling.** A successful creation does not insert the returned record. It clears the
  panel and fetches the whole list and the categories again.
- **Submitting twice.** The submit handler does not look at `isSendingWebsite`, so nothing stops a
  second request while the first is in flight (`SecondRequestWhileSending`). Only closing the panel
  is guarded.
- **201 with a bad body.** If a 201 response's body fails to parse as JSON, the handler throws before
  anything is cleared. The panel stays busy, and the close button is ignored until another creation
  request settles with any outcome but a second unparsable 201 (`BusyUntilNextSettle`) or a failed list or category fetch runs
  `websiteCreationFail`.
- **Network error.** After a network error the handler clears the panel and shows one toast. It then
  throws, because it reads `status` of `undefined`.

## Model

| member | source | states |
|---|---|---|
| UrlPattern.Matches | app/scripts/main.js:7 | the language of the pattern as it reads: an optional `http://` or `https://`, a run of `[\w.-]`, one or more dotted runs, and one or more final-class characters; every string in it has at least 4 characters and a `.` |
| UrlPattern.Accepts | app/scripts/main.js:7 | decides the same language on the text after `""`, `http://` or `https://`; every accepted string has at least 4 characters and a `.` |
| UrlPattern.AcceptsMatches | app/scripts/main.js:7 | the decision procedure accepts exactly the strings in the regex's language (both directions) |
| UrlPattern.MatchesShape | app/scripts/main.js:7 | every string in the language has at least 4 characters and contains a `.`; every character is in the final class, so it has no space and no line terminator |
| UrlPattern.ExampleAccepted | app/scripts/main.js:7 | `example.com` is in the language |
| UrlPattern.ExamplePathAccepted | app/scripts/main.js:7 | `https://example.com/path?x=1` is in the language (scheme, dotted host, path and query) |
| UrlPattern.LineEnd | app/scripts/main.js:7 | `$` under the `m` flag: the first line boundary at or after a position, with no line terminator before it |
| UrlPattern.MatchAt | app/scripts/main.js:7 | one match attempt at a position; a match ends at least 4 characters later and within the string |
| UrlPattern.MatchAtIsAnchoredMatch | app/scripts/main.js:7 | an attempt at `p` ends at `e` exactly when `p` is a line start, `e` is a line end and `s[p..e]` is in the language |
| UrlPattern.SearchFrom | app/scripts/main.js:185 | `test` tries the positions from `lastIndex` onwards; any match it finds ends at least 4 characters after the start of the search |
| UrlPattern.SearchFromNone | app/scripts/main.js:185 | the search finds nothing exactly when no position from the start position onwards has a match |
| UrlPattern.SearchFromFindsFirst | app/scripts/main.js:185 | a match that the search finds is the match at the first position that has one |
| UrlPattern.Test | app/scripts/main.js:185 | `test` with the `g` flag: after a failure `lastIndex` is 0; after a success it is the match end, at least 4 past the old `lastIndex` |
| UrlPattern.TestFindsLine | app/scripts/main.js:185 | `test` succeeds exactly when some line starting at or after `lastIndex` is in the language |
| UrlPattern.TestFromStart | app/scripts/main.js:185 | from `lastIndex` 0, a one-line value passes exactly when it is in the language, and `lastIndex` becomes its length |
| UrlPattern.RetestFails | app/scripts/main.js:185 | from any `lastIndex` above 0, a one-line value fails and `lastIndex` resets to 0 |
| UrlPattern.SecondTestFails | app/scripts/main.js:185 | after a valid one-line value passes, the next `test` of any one-line value fails |
| UrlPattern.Validate | app/scripts/main.js:185 | the regex without `g` (so with no state kept between calls): a one-line value passes exactly when it is in the language |
| UrlPattern.ValidateRejects | app/scripts/main.js:185-187 | validation rejects `""`, any string without `.` and any string shorter than 4; it rejects a one-line string that contains a space |
| UrlPattern.OtherLineAccepted | app/scripts/main.js:7 | under `m`, a value with a space on one line passes when another line is valid |
| Listing.ListUrl | app/scripts/main.js:153-155 | the list URL always starts with `{base}/website/list`, and it is exactly that when the category is empty; the rest of the URL, `?category=` and the category, is pinned by `Listing.ListUrlRoundTrip` |
| Listing.ListUrlRoundTrip | app/scripts/main.js:153-155 | the category can be read back from the list URL (`?category=` and the category, or no query for none) |
| Listing.TabHref | app/scripts/main.js:54-57 | a tab's href starts with `#`; that the rest is the id (nothing for a tab without an id) is pinned by `Listing.HrefFilterOfTabHref` |
| Listing.HrefFilter | app/scripts/main.js:36 | the filter is the href minus its first character, and `""` for an empty href |
| Listing.HrefFilterOfTabHref | app/scripts/main.js:54-57 | reading the filter back from a tab's href gives the id it was built from |
| Listing.TabClickUrl | app/scripts/main.js:36-40 | a tab click fetches the list URL whose filter is the href minus `#` |
| Listing.TabClickFiltersById | app/scripts/main.js:36-40 | clicking a category's tab filters by its `_id`, not its name; clicking "Todas" fetches the unfiltered list |
| Listing.CategoriesOrEmpty | app/scripts/main.js:95 | a missing `categories` field reads as the empty list, and a present one as itself |
| Listing.RenderCategories | app/scripts/main.js:64-88 | the autocomplete keys are the category names; the tabs are "Todas" (`#`) and then one tab per category, in order; a missing `categories` field gives only "Todas" (line 95) |
| Submission.NormalizeCategory | app/scripts/main.js:199-203 | empty gives `"Todas"`. Otherwise the length is kept, everything after the first character is unchanged, and a lower-case first letter becomes its capital. The result never starts with a lower-case letter |
| Submission.NormalizeIdempotent | app/scripts/main.js:199-203 | normalising a normalised category changes nothing |
| Submission.NormalizeExamples | app/scripts/main.js:199-203 | `blog` gives `Blog`, `Blog` stays `Blog`, and empty gives `Todas` |
| Submission.Decimal | app/scripts/main.js:222 | the decimal text of a number is a nonempty string of digits, `"0"` for zero and without a leading zero otherwise |
| Submission.DecimalRoundTrip | app/scripts/main.js:222 | reading the decimal text back gives the number |
| Submission.StatusText | app/scripts/main.js:222 | `status.toString()` is nonempty |
| Submission.StatusTextIs201 | app/scripts/main.js:222 | the status text is `"201"` exactly when the status is 201 |
| Submission.CreationPanel.constructor | app/scripts/main.js:21-27 | at page load the panel is closed and idle, both inputs are empty and `lastIndex` is 0; the list and the categories are fetched |
| Submission.CreationPanel.OpenPanel | app/scripts/main.js:168-170 | opening always opens the panel, even while a submission is in flight; nothing else changes, so the busy markers still agree with the sending flag |
| Submission.CreationPanel.Clear | app/scripts/main.js:119-131 | both inputs end empty, the sending flag is false, no busy marker is set, `validate` is back and the panel is closed |
| Submission.CreationPanel.ClosePanel | app/scripts/main.js:173-178 | while sending, closing changes nothing at all; otherwise the panel ends closed and cleared; either way the busy markers agree with the sending flag |
| Submission.CreationPanel.SubmitStart | app/scripts/main.js:181-219 | `SubmitStart` first runs `test`. A rejected value changes nothing except that `lastIndex` resets to 0. An accepted value sets sending, `loading`, both `disabled` markers and removes `validate`. It then issues one POST with the URL and the normalised category. `sending` is not checked. Either way the busy markers agree with the sending flag afterwards |
| Submission.CreationPanel.CreationFail | app/scripts/main.js:140-148 | the panel ends cleared and exactly one failure toast is added |
| Submission.CreationPanel.CreationSuccess | app/scripts/main.js:133-138 | the panel ends cleared, and the unfiltered list and the categories are fetched again; the returned record is not inserted |
| Submission.CreationPanel.Settle | app/scripts/main.js:219-230 | a network error: cleared, one toast, then an exception. A status other than 201: cleared, one toast. 201 with a JSON body: cleared, list and categories fetched again. 201 with an unparsable body: an exception, and nothing changes. Every case keeps the busy markers in agreement with the sending flag |
| Submission.ResubmitAfterSuccess | app/scripts/main.js:181-190 | after a valid URL is submitted and created, the next submit of a valid URL is ignored, and the one after it goes through |
| Submission.BusyUntilNextSettle | app/scripts/main.js:173-230 | after a 201 with an unparsable body the close button leaves the panel open; a resubmit is swallowed once, the next one posts, and when that request succeeds the panel ends closed |
| Submission.SecondRequestWhileSending | app/scripts/main.js:181-219 | while a request is in flight, submitting again posts the same request a second time, and the panel stays busy |

## Findings

| source | as written | input that shows it | evidently intended | confidence | as-written member | corrected member |
|---|---|---|---|---|---|---|
| app/scripts/main.js:7 | The validator has the `g` flag, so the `test` at line 185 starts where the last match ended, and it fails on every one-line value. | Submit `example.com` and let it be created. Type `example.com` again and submit: nothing happens. The next click goes through. | A stateless check, so that every submit of a valid URL is sent. | high, not executed | Submission.ResubmitAfterSuccess | UrlPattern.Validate |

The validator's stated properties (`ValidateRejects`, `Matches`, `ExampleAccepted`) are about the
corrected, stateless `Validate`. `CreationPanel.SubmitStart` keeps the as-written `test`, with its
`lastIndex`, so that the handler's behaviour stays that of the code. `UrlPattern.SecondTestFails` states
the same discrepancy at the level of `test` itself.

## Left out

- DOM lookups, `classList` and attribute calls are not modelled as operations. They appear as the
  boolean fields of `CreationPanel`.
- The page's initial markup is not modelled. The constructor assumes that the panel starts closed
  and idle, with both inputs empty.
- Materialize is not modelled (`M.AutoInit`, `M.Autocomplete.init`, `M.toast`). These are
  foreign UI calls. A toast is an entry in the effect log, and the autocomplete data is the set of
  keys that `RenderCategories` returns.
- `fetch`, `resp.json()`, the CORS options and the JSON serialisation are network I/O. A request is
  an entry in the effect log. A response is an abstract `Outcome`: a network error, or a status
  plus whether the body parses.
- The `getCard` template and the `innerHTML` card list in `renderCards` are presentation.
- `renderCards` after a failed fetch is not modelled past its first step. That path runs
  `websiteCreationFail` (`CreationFail`) and then throws at line 158.
- Async interleaving is not modelled: each handler step is atomic. The Get requests that the
  constructor and `CreationSuccess` issue are not followed by their responses. `RenderCategories`
  models one resolution of `getCategories` on its own.
- `bindTabs` is not modelled, because the listeners attached to the DOM are not modelled. It runs
  only after the first `renderCategories` (line 27). The tabs rebuilt after a successful creation
  (line 137) therefore get no click handler.
- `console.log` is not modelled.
- Submission.NormalizeCategory: upper-cases ASCII letters only. JavaScript's full Unicode
  `toUpperCase` is not modelled. For example, `é` becomes `É`, and `ß` becomes `SS`, which changes
  the length.
- Submission.StatusText: covers integer statuses only.
- Characters are Unicode scalar values, whereas JavaScript indexes UTF-16 code units. So
  `lastIndex` and `category[0]` differ from the source for characters outside the Basic
  Multilingual Plane.
- Submission.CreationPanel.EditUrl and Submission.CreationPanel.EditCategory stand for the user
  typing, not for code in the source.
