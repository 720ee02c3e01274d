# Question paper generator: verified model of the page logic

The page lets a user upload a spreadsheet of exam questions. It then shows
one checkbox per question and sends the checked questions to a remote
paper-generation service. This project models the page's state and handlers
in Dafny and proves what each handler does to that state:

- `Sheet`: parsed rows (`Record`, a column-name to cell map), the header check
  run on the first row (`validateHeaders`), and the list item rendered per row
  (checkbox value, caption, type badge).
- `Selection`: the checkbox states and the counter value. Also the request
  payload, which is the row of every checked box in document order.
- `Status`: the status line (text and colour), its fixed messages, and how the
  request's outcome turns into a line.
- `Text`: ASCII case mapping and the decimal printing of numbers in template
  literals.
- `Page`: the `Session` class. Its fields are the page state: rows, rendered
  items, checkbox states, counter text, status line, loader, submit button and
  selection area. Its methods are the handlers. `Valid()` is the invariant they
  all keep:
  - the counter shows the number of checked boxes;
  - the selection area is visible exactly when rows are loaded;
  - when rows are loaded, there is one rendered item and one checkbox per row.
- `Examples`: sessions driven through fixed event sequences, proved from the
  handlers' contracts alone.

The spreadsheet library's output is an input value: rows, or the message of
the error it threw. The network request is split in two:
- `BeginSubmit` validates, gathers the payload, shows the loader and disables
  submit.
- `FinishSubmit` takes the outcome (network error, non-ok HTTP status, or an
  ok response with `status` and `message`), sets the status line and always
  runs the cleanup.

The model lets any handler run between the two steps. In the browser this
holds for a control that stays usable while the request is in flight, such
as the file input: app.js never disables it.

Behaviours of app.js the model keeps:
- The required columns are the underscored `Question_Text` and
  `Question_Type`.
- A rejected file does not clear the rendered checkboxes. `resetUI` only hides
  the selection area, disables submit and empties the rows.
- A successful load clears the status text but keeps the status colour.
- Nothing is persisted, and nothing counts selections per type.
- The payload is in ascending index order, which is document order.

One behaviour of app.js follows from this. Suppose a file is rejected while a
request is in flight. The old checkboxes stay checked and the rows are empty.
When the request finishes, the `finally` block enables submit again. If the
submit button is outside the selection area, which `resetUI` hides, the next
submission sends `undefined` (JSON `null`) for each checked box. Where the
button sits is decided by the page markup, which app.js does not contain.
`Examples.RejectedFileDuringSubmission` exhibits it, and
`Page.PayloadOfSession` shows that this is the only case in which the payload
is not exactly the checked rows.

## Model

| member | source | states |
|---|---|---|
| `Sheet.FirstRecord` | app.js:42 | `allQuestions[0]` exists exactly when the sheet has a row, and is the first row |
| `Sheet.EveryIncluded` | app.js:137-139 | `every`/`includes` holds exactly when each required header is among the available keys |
| `Sheet.ValidateHeaders` | app.js:135-140 | false with no first row; otherwise true exactly when both `Question_Text` and `Question_Type` are keys of it |
| `Sheet.ExtraColumnsIgnored` | app.js:138-139 | adding columns never makes a valid first row invalid |
| `Sheet.OnlyFirstRowInspected` | app.js:42 | an empty sheet fails; rows after the first never change the verdict |
| `Sheet.CellOr` | app.js:65-70 | a cell with a fallback: the cell when present and non-empty, the fallback otherwise |
| `Sheet.RenderList` | app.js:64-76 | the rebuilt list has exactly one item per row, in row order: item i is `RenderItem` of row i and carries checkbox value i |
| `Sheet.ItemValueAndLabel` | app.js:68-70 | item i carries value i; its caption is the question text, or "No question text found." when missing or empty |
| `Sheet.RenderItem` | app.js:65-72 | the item for row i carries value i; the badge class has no upper-case letter, the badge text is the upper-cased type cell (or "N/A"), and lower-casing the text gives back the class |
| `Sheet.BadgeIgnoresCase` | app.js:65 | types that differ only in letter case get the same badge class and text |
| `Sheet.MissingTypeBadge` | app.js:65-72 | a row without a type gets badge class "n/a" and text "N/A" |
| `Text.Lower` | app.js:65 | `toLowerCase()` keeps the length and leaves no upper-case ASCII letter |
| `Text.Upper` | app.js:72 | `toUpperCase()` keeps the length and leaves no lower-case ASCII letter |
| `Text.UpperOfLower` | app.js:65-72 | upper-casing a lowered string equals upper-casing the original |
| `Text.LowerUpperRoundTrip` | app.js:65-72 | a lowered string survives upper-casing and lowering again unchanged |
| `Text.NatToString` | app.js:112 | `${n}` prints at least one decimal digit and no leading zero |
| `Text.DecimalRoundTrip` | app.js:112 | reading the printed digits back gives the number |
| `Text.DecimalInjective` | app.js:112 | different status codes print differently |
| `Selection.CountTrue` | app.js:150-155 | the number of checked boxes never exceeds the number of boxes |
| `Selection.SelectedIndices` | app.js:82-84 | the checked boxes' values in document order: each index is in range and checked, every checked index appears, strictly ascending, count equal to the checked count |
| `Selection.CountUniform` | app.js:142-148 | after setting every box to b the count is the number of boxes or zero |
| `Selection.CountUpdate` | app.js:24 | changing one box moves the count by exactly the change of that box |
| `Selection.Lookup` | app.js:93 | `allQuestions[cb.value]` is a row exactly when the index is in range, and then it is row i; `undefined` otherwise |
| `Selection.Gather` | app.js:92-94 | the payload has one entry per checked box |
| `Selection.GatherSnoc` | app.js:92-94 | one more box at the end adds its row at the end exactly when checked |
| `Selection.GatherIsKept` | app.js:92-94 | with one box per row, the payload equals the rows kept by walking rows and boxes side by side: no omission, no duplicate, row order |
| `Selection.GatherWithoutRows` | app.js:93 | with no rows loaded every payload entry is `undefined` |
| `Selection.CollectSelected` | app.js:92-94 | the push loop produces exactly the payload `Gather` describes |
| `Status.LoadError` | app.js:54-55 | a load failure line is red and reads "Error: " followed by the message |
| `Status.ThrownMessage` | app.js:112-120 | the Error reaching the catch block carries the network error's message, the body's message, or "Server responded with status: " followed by the decimal form of the HTTP code, whose digits read back as the code |
| `Status.Interpret` | app.js:111-125 | the line is green exactly when the response is ok with body status "success"; otherwise it is red |
| `Status.SuccessShowsMessage` | app.js:116-118 | a success line is "Success! " followed by the body's message |
| `Status.FailureShowsMessage` | app.js:119-125 | every failure line starts with "An error occurred: "; network and application errors show their own message after it |
| `Status.HttpStatusReadable` | app.js:111-113 | a non-ok response shows "An error occurred: Server responded with status: " and the decimal form of the code, which reads back as that code |
| `Status.FirstCharTellsOutcome` | app.js:117-124 | success lines start with 'S', failure lines with 'A' |
| `Status.ColorFollowsText` | app.js:116-125 | two outcomes that show the same text show the same colour |
| `Page.CounterText` | app.js:154 | the counter reads "Selected: " followed by the decimal form of the count (no leading zero), whose digits read back as the count |
| `Page.Session.constructor` | app.js:16 | a fresh page: no rows, no list, loader and selection area hidden, submit disabled |
| `Page.Session.UpdateSelectionCounter` | app.js:150-155 | the counter text shows the number of checked boxes |
| `Page.Session.ResetUI` | app.js:157-161 | hides the selection area, disables submit, empties the rows and changes nothing else |
| `Page.Session.DisplayQuestions` | app.js:62-78 | the list is rebuilt from the rows, one unchecked box each, and the counter reads "Selected: 0" |
| `Page.Session.Load` | app.js:33-58 | an accepted sheet replaces the rows and rebuilds the list unchecked, shows the selection area, enables submit and clears the status text, keeping its colour. A parse failure or bad headers leaves the rows empty, submit disabled, the area hidden, the line "Error: <message>" in red, and the list and counter untouched. The loader is never touched and the invariant is kept |
| `Page.Session.ToggleAll` | app.js:142-148 | every box becomes b and the counter shows the number of boxes or zero |
| `Page.Session.Click` | app.js:24 | the clicked box flips, no other box changes, and the count moves by one accordingly |
| `Page.Session.BeginSubmit` | app.js:80-100 | with nothing checked: no request, the orange "Please select at least one question.", and loader and button as they were. Otherwise: the request carries `Gather(records, checked)`, the loader is shown, submit is disabled and the neutral "Generating your paper... Please wait." is shown. Rows and boxes never change |
| `Page.Session.FinishSubmit` | app.js:102-130 | the line is `Interpret(outcome)`; on every outcome the loader is hidden and submit is enabled. Rows and boxes never change |
| `Page.PayloadOfSession` | app.js:92-94 | under the invariant, the payload is exactly the checked rows in order when rows are loaded, and all `undefined` otherwise |
| `Examples.SuccessfulSubmission` | app.js:80-130 | three rows with boxes 0 and 1 checked and a success body: rows 0 and 1 are sent, "Success! Paper ready" is shown in green, and the loader and button are restored |
| `Examples.Http500Line` | app.js:111-124 | a 500 response shows "An error occurred: Server responded with status: 500" in red |
| `Examples.ServerError` | app.js:111-130 | after a 500 response the line is red, the loader hidden and submit enabled |
| `Examples.NothingSelected` | app.js:86-90 | submitting a freshly loaded list sends nothing and shows the orange warning |
| `Examples.RejectedFileDuringSubmission` | app.js:92-94 | a file rejected during a request leaves a checked box behind; if the submit button can still be clicked, the next submission sends `[undefined]` |

## Left out

- Spreadsheet decoding (`XLSX.read`, `sheet_to_json`) and `FileReader`: a foreign library and browser I/O. The parsed sheet is an input.
- `handleFileUpload`'s early return when no file is chosen: it changes nothing.
- `fetch`, its options, `JSON.stringify`, `response.json()` and the fixed service URL: network and serialisation. They become the payload sequence and the `Outcome` datatype. A body that fails to parse is a `NetworkError` with the parser's message.
- Cell values are strings. Cells holding numbers or booleans are not modelled. A numeric `Question_Type` would make `toLowerCase` throw inside the try block.
- A response body without `message`: the success line would read "Success! undefined" (app.js:117), while the failure path throws `new Error(undefined)`, whose message is empty, so the line reads "An error occurred: " (app.js:120, 124). `Ok(s, m)` covers both by choosing m as "undefined" or "".
- `Text.Lower`, `Text.Upper`: map only the ASCII letters, not the full Unicode case mapping of `toLowerCase`/`toUpperCase`. The round trips in `Sheet.RenderItem`, `Text.UpperOfLower` and `Text.LowerUpperRoundTrip` hold for this mapping only: in JavaScript a type cell "ß" gets class "ß" but text "SS", and lower-casing that text gives "ss".
- HTML templating and markup injection through cell text: the rendered item is modelled by its fields, not as HTML.
- `console.error` calls and CSS beyond the visible/hidden and enabled/disabled flags.
- The page's initial markup is not part of this model. The constructor assumes the loader and selection area start hidden, submit starts disabled, the counter reads "Selected: 0", and the status line starts empty with the neutral colour.
- Asynchronous interleaving inside one handler: a submission is two steps, and any handler may run between them.
- Handlers are not tied to their control being visible or enabled: `Page.Session.Click`, `Page.Session.ToggleAll` and `Page.Session.BeginSubmit` run whatever `selectionAreaVisible` and `submitDisabled` say. Whether a hidden or disabled control can fire depends on the page markup, which is not part of this model.
- Persisted selection and per-type counts: app.js has neither.
