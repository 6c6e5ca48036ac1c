# Spreadsheet upload and assessment pages: a Dafny model

This project models the stateful logic of a React front end with three pages:

- **Upload page** (`frontend/src/pages/UploadPage.jsx`). The user picks an `.xlsx` file. The page tries to parse it locally. When that fails it asks for a password and sends the file with the password to a remote unlock service. It then previews the returned sheets and hands a summary of them to the next page.
- **Extracted-information page** (`frontend/src/pages/ExtractedInfoPage.jsx`). It runs a simulated assessment: four progress bars advance by random steps and stop at 100. When all four are full, the page moves on to the test-result page.
- **Test-result page** (`frontend/src/pages/IFCTestResultPage.jsx`). It has a small chat box that appends the user's messages to a log.

Each page's state becomes a Dafny class whose fields are the page's React state (the assessment page also keeps each bar's timer-closure value, which timers are still set, and a ghost history of the steps taken), with one method per event handler. The data transforms inside the handlers become functions, with lemmas about them. Three loops become methods with loop invariants: the row loop (`Sheets.FormatRows`) and the sheet loop (`Sheets.LoadWorkbook`) of the local parse, and the loop over the returned sheets (`Unlock.ConvertSheets`).

Files and modules:

- `wrappers.dfy` (`Wrappers`): the `Option` type. It stands for JavaScript's `undefined`/`null`.
- `js_string.dfy` (`JsString`): the JavaScript string behaviour the pages rely on:
  - `trim`, with its whitespace set given by code point;
  - `startsWith` and `endsWith`;
  - how a template literal writes a number in decimal;
  - `split(",")[1]`.
- `sheets.dfy` (`Sheets`), the in-memory sheet model:
  - the cell-to-string rule and the `dd-MM-yy` date format;
  - the media lookup and the image filter;
  - the sheet collection, modelled as an insertion-ordered list of named entries. Assigning to a name that already exists replaces that entry where it stands, which is how a JavaScript object behaves.
  - the local-parse loops.
- `image_source.dfy` (`ImageSource`): normalising server image strings into `data:image/png;base64,…` URLs, and stripping them again on export.
- `unlock.dfy` (`Unlock`): the possible replies of the unlock service, and what the page makes of each one. A reply either yields a new sheet collection or an error message.
- `upload_page.dfy` (`Upload`): the class `UploadPage`, with eight fields:
  - `file`, `excelSheets`, `selectedSheet`;
  - `needsPassword`, `password`, `unlocked`;
  - `loading`, `error`.

  The module also holds the export summary and three predicates for when each panel is shown (`PasswordFormVisible`, `SheetPickerVisible`, `PreviewVisible`, lines 194, 216 and 234). Three client methods replay the page's main walkthroughs.
- `extracted_info_page.dfy` (`Assessment`): the class `ExtractedInfoPage` (progress bars, the tick and the completion condition).
- `ifc_test_result_page.dfy` (`TestResult`): the class `IfcTestResultPage` (chat input and log).

## Behaviour as the code has it

Places where the code's behaviour is easy to misread. The model follows the code.

- **Error text of a non-ok reply.** The comment at `UploadPage.jsx:115` says the page tries to use a JSON error body. It does parse the body as JSON and throw an error carrying its `message` (`:117-119`). That throw sits inside a `try` whose bare `catch` (`:120-122`) replaces it. So the displayed error is always `Server returned <status>: <body>`, even for a body such as `{"message":"bad password"}`. `Unlock.NotOkIgnoresJsonMessage` and `Upload.NotFoundScenario` state this.
- **The local parse never selects a sheet.** It leaves `selectedSheet` as the file selection reset it, i.e. `""`. Only a successful unlock selects the first sheet. `Upload.LocalReportScenario` shows a two-sheet workbook ending with nothing selected.
- **A failed unlock keeps the old sheets.** It sets `unlocked` to false but does not clear `excelSheets` (`:154-160`).
- **Trimming.** The password is checked after trimming (`:97`), but the untrimmed text is what is sent (`:107`). The same holds for chat messages.
- **`split(",")[1]` on export** (`:174`). It yields `undefined` when a `data:` URL has no comma, and only the text up to a second comma when there is one. The exported image is therefore an `Option<string>`.
- **Strict comparisons.** Image ids and media indexes are compared as integers.

## Model

| member | source | states |
|---|---|---|
| JsString.TrimStart | frontend/src/pages/UploadPage.jsx:97 | `trim` removes exactly the leading run of whitespace: the result is the suffix that starts at the first non-whitespace character |
| JsString.TrimEnd | frontend/src/pages/UploadPage.jsx:97 | `trim` removes exactly the trailing run of whitespace: the result is the prefix that ends at the last non-whitespace character |
| JsString.IsWhitespace | frontend/src/pages/UploadPage.jsx:97 | the characters `trim` removes: ECMAScript WhiteSpace and LineTerminator, by code point (used by `TrimStart`, `TrimEnd`, `TrimEmptyIffBlank`) |
| JsString.StartsWith | frontend/src/pages/UploadPage.jsx:135 | `startsWith`: the given text is a prefix (used by `NormaliseImage`, `StripImage` and their lemmas) |
| JsString.EndsWith | frontend/src/pages/UploadPage.jsx:85 | `endsWith`: the given text is a suffix (used by `HandleFileChange`'s parse condition and `NotOkMessage`) |
| JsString.Trim | frontend/src/pages/UploadPage.jsx:97 | `trim`: the trailing whitespace run removed from what is left after removing the leading one (partners: `TrimStart`, `TrimEnd`, `TrimEnds`, `TrimEmptyIffBlank`) |
| JsString.TrimEnds | frontend/src/pages/IFCTestResultPage.jsx:66 | `trim` never lengthens its input and leaves no whitespace at either end |
| JsString.TrimEmptyIffBlank | frontend/src/pages/UploadPage.jsx:97 | `s.trim() === ""` holds exactly when every character of `s` is whitespace (both directions) |
| JsString.Decimal | frontend/src/pages/UploadPage.jsx:121 | a number in a template literal is written as non-empty decimal digits without a leading zero (partner: `ParseDecimalOfDecimal`) |
| JsString.ParseDecimalOfDecimal | frontend/src/pages/UploadPage.jsx:121 | the decimal text of the HTTP status reads back as the status |
| JsString.DecimalInjective | frontend/src/pages/UploadPage.jsx:121 | distinct statuses print differently |
| JsString.SecondCommaField | frontend/src/pages/UploadPage.jsx:174 | `split(",")[1]` is undefined exactly when there is no comma; otherwise it is the text right after the first comma, running up to the next comma or the end, and contains no comma |
| JsString.SecondCommaFieldOfJoin | frontend/src/pages/UploadPage.jsx:174 | for comma-free text on both sides of one comma, `split(",")[1]` is the text after it |
| JsString.SecondCommaFieldOfTwoCommas | frontend/src/pages/UploadPage.jsx:174 | with a second comma, `split(",")[1]` is only the text between the first and the second comma |
| Sheets.FormatDdMmYy | frontend/src/pages/UploadPage.jsx:41 | a formatted date is 8 characters with dashes at positions 2 and 5 |
| Sheets.FormatDdMmYyRoundTrip | frontend/src/pages/UploadPage.jsx:41 | `dd-MM-yy` reads back as the day, the month and the year of era mod 100 |
| Sheets.CellText | frontend/src/pages/UploadPage.jsx:36-46 | non-empty display text wins; otherwise a date gives its `dd-MM-yy` text; otherwise a value gives its string; the result is "" exactly when the text is empty and the value is missing or stringifies to "" |
| Sheets.FormatRows | frontend/src/pages/UploadPage.jsx:33-48 | one output row per enumerated row, one string per enumerated cell including empty ones, each the cell's text by the priority rule |
| Sheets.FindMedia | frontend/src/pages/UploadPage.jsx:52-54 | `media.find` gives the first media whose index equals the image id, and none exactly when no index matches |
| Sheets.MediaSource | frontend/src/pages/UploadPage.jsx:51-60 | an anchor's source is the object URL of the first media whose index matches, and null when none matches (partners: `FindMedia`, `UnresolvedImageDropped`, `ResolvedImagesInOrder`) |
| Sheets.KeepTruthy | frontend/src/pages/UploadPage.jsx:61 | `filter(Boolean)` keeps exactly the present, non-empty sources and never lengthens the list |
| Sheets.KeepTruthyAppend | frontend/src/pages/UploadPage.jsx:61 | filtering distributes over concatenation, so it keeps the order |
| Sheets.KeepTruthyAllPresent | frontend/src/pages/UploadPage.jsx:61 | when every source is present and non-empty, the filter keeps them all, in order |
| Sheets.SheetImages | frontend/src/pages/UploadPage.jsx:50-61 | a sheet never has more images than image anchors |
| Sheets.UnresolvedImageDropped | frontend/src/pages/UploadPage.jsx:50-61 | an anchor that matches no media is dropped silently, and the images of the anchors before and after it are unchanged |
| Sheets.ResolvedImagesInOrder | frontend/src/pages/UploadPage.jsx:50-61 | when every anchor resolves (and object URLs are never empty) there is one image per anchor, in anchor order, each its media's URL |
| Sheets.Lookup | frontend/src/pages/UploadPage.jsx:234 | `excelSheets[name]`: missing exactly when no key has the name (partners: `LookupEntry`, `PutLookup`, `CollectLast`) |
| Sheets.LookupEntry | frontend/src/pages/UploadPage.jsx:234 | with unique names, `sheets[name]` finds the content stored under that name |
| Sheets.Put | frontend/src/pages/UploadPage.jsx:63 | `sheets[name] = content` on an insertion-ordered object: replaces the entry where it stands, or appends (partners: `PutNames`, `PutLookup`, `PutUnique`, `PutAppends`) |
| Sheets.PutNames | frontend/src/pages/UploadPage.jsx:63 | assigning to an existing name keeps the key order; a new name goes last |
| Sheets.PutLookup | frontend/src/pages/UploadPage.jsx:139-142 | after `sheets[name] = content`, the name holds the new content and every other name keeps what it held |
| Sheets.PutUnique | frontend/src/pages/UploadPage.jsx:63 | assignment keeps the keys unique |
| Sheets.CollectStep | frontend/src/pages/UploadPage.jsx:32-64 | helper for the loop invariants: `Collect` unfolded by one assignment; no source property of its own |
| Sheets.CollectUnique | frontend/src/pages/UploadPage.jsx:130-143 | a collection built by assignments has unique names |
| Sheets.CollectNames | frontend/src/pages/UploadPage.jsx:130-143 | a name is a key exactly when some assigned entry carries it |
| Sheets.CollectLast | frontend/src/pages/UploadPage.jsx:139 | under a repeated name the collection holds the content of the last entry with that name |
| Sheets.CollectFirst | frontend/src/pages/UploadPage.jsx:149 | the first key is the name of the first entry |
| Sheets.CollectDistinct | frontend/src/pages/UploadPage.jsx:32-64 | when the names are distinct, the collection is exactly the entries, in order |
| Sheets.PutAppends | frontend/src/pages/UploadPage.jsx:63 | assigning to a new name appends the entry |
| Sheets.FirstName | frontend/src/pages/UploadPage.jsx:149 | the first key of the object, or "" with no keys (partner: `CollectFirst`) |
| Sheets.LoadWorkbook | frontend/src/pages/UploadPage.jsx:31-64 | the sheet loop of the local parse builds the collection of one entry per worksheet, with unique names |
| Sheets.LocalSheetPerWorksheet | frontend/src/pages/UploadPage.jsx:32-64 | for a workbook with distinct sheet names, the local parse gives one sheet per worksheet, in workbook order, each with its rows and images |
| ImageSource.NormaliseImage | frontend/src/pages/UploadPage.jsx:133-137 | every normalised image source is a `data:` URL |
| ImageSource.StripImage | frontend/src/pages/UploadPage.jsx:171-177 | export of one source: undefined exactly for a `data:` URL without a comma; a non-`data:` source unchanged; a `data:` URL becomes a shorter comma-free payload |
| ImageSource.NormaliseKeepsDataUrl | frontend/src/pages/UploadPage.jsx:135 | a string that is already a `data:` URL passes normalisation unchanged |
| ImageSource.StripKeepsOtherSources | frontend/src/pages/UploadPage.jsx:171-177 | sources that are not `data:` URLs pass export unchanged |
| ImageSource.StripAfterNormalise | frontend/src/pages/UploadPage.jsx:133-177 | raw base64 without a comma gets the PNG prefix, and stripping on export gives it back |
| ImageSource.StripWithoutComma | frontend/src/pages/UploadPage.jsx:174 | a `data:` URL without a comma exports as undefined |
| Unlock.SummarySheets | frontend/src/pages/UploadPage.jsx:131 | `summary.sheets`, with no sheets when missing (used by `Interpret`, `ConvertSheets`, `UnlockedIffAccepted`) |
| Unlock.ServerContent | frontend/src/pages/UploadPage.jsx:133-142 | a returned sheet in preview shape: its rows (`[]` when missing), one image per returned image (none when missing), each a `data:` URL |
| Unlock.ConvertSheets | frontend/src/pages/UploadPage.jsx:130-143 | the loop over the returned sheets builds the collection of their assignments (rows defaulting to none, images normalised), with unique names |
| Unlock.NotOkMessage | frontend/src/pages/UploadPage.jsx:121 | `Server returned ${status}: ${body}`: starts with the prefix, ends with the body, and has exactly their length plus the digits and `": "` (partner: `NotOkMessageInjective`) |
| Unlock.RejectionMessage | frontend/src/pages/UploadPage.jsx:154 | a non-empty `result.message` is the text shown; the fallback "Unable to unlock file with provided password." is shown exactly when the message is missing, empty or that text; never empty |
| Unlock.ThrownMessage | frontend/src/pages/UploadPage.jsx:159 | the exception's own message whenever it has one, "Network or server error." when it is empty; never empty |
| Unlock.Accepted | frontend/src/pages/UploadPage.jsx:127 | a body is accepted when its status is "success" and it has a summary (partner: `UnlockedIffAccepted`) |
| Unlock.Interpret | frontend/src/pages/UploadPage.jsx:114-160 | what a reply does once the request is sent: an exception, a non-ok status, a rejected body or an accepted summary (partners: `UnlockedIffAccepted`, `FailureIsShown`, `NotOkIgnoresJsonMessage`) |
| Unlock.ColonAfterDigits | frontend/src/pages/UploadPage.jsx:121 | in the status text followed by `": "`, the first colon comes right after the digits |
| Unlock.NotOkMessageInjective | frontend/src/pages/UploadPage.jsx:114-123 | the displayed message of a non-ok reply determines its status and its body |
| Unlock.NotOkIgnoresJsonMessage | frontend/src/pages/UploadPage.jsx:114-123 | a non-ok reply always fails with `Server returned <status>: <body>`, whatever the body says |
| Unlock.FailureIsShown | frontend/src/pages/UploadPage.jsx:153-160 | every failed unlock carries a non-empty message (empty server or exception messages give way to their fallbacks), so the error line inside the password form has text; `ReceiveReply` states that the form stays open |
| Unlock.UnlockedIffAccepted | frontend/src/pages/UploadPage.jsx:125-157 | a reply unlocks exactly when it is ok with status "success" and a summary; the new sheets then have unique names and their first key is the first returned sheet's name ("" when there are none) |
| Upload.ValidationError | frontend/src/pages/UploadPage.jsx:92-100 | the checks made before any request, in order: file, then blank password (partner: `ValidationCases`) |
| Upload.ValidationCases | frontend/src/pages/UploadPage.jsx:92-100 | with no file the error is "Please choose a file first."; with a file, the error is "Please enter a password." exactly when the password is all whitespace, and otherwise validation passes |
| Upload.ExportSummary | frontend/src/pages/UploadPage.jsx:168-178 | the summary handed to the next page: one exported sheet per key, in key order, with its rows and stripped images (partners: `ExportKeepsOtherSources`, `ExportRestoresServerSummary`) |
| Upload.ExportKeepsOtherSources | frontend/src/pages/UploadPage.jsx:166-178 | export keeps every sheet's name, rows and number of images, in key order, and passes non-`data:` sources through |
| Upload.ExportRestoresServerSummary | frontend/src/pages/UploadPage.jsx:127-178 | extracting right after an unlock hands on the returned sheets: same names, in order, the returned rows (`[]` when missing, `:140`) and the raw image payloads (none when missing, `:133`) |
| Upload.UploadPage.constructor | frontend/src/pages/UploadPage.jsx:10-17 | the initial state: no file, no sheets, nothing selected, every flag false, empty password and error |
| Upload.UploadPage.PasswordFormVisible | frontend/src/pages/UploadPage.jsx:194 | the password form shows when a file is chosen, a password is needed and the page is not unlocked |
| Upload.UploadPage.SheetPickerVisible | frontend/src/pages/UploadPage.jsx:216 | the sheet picker shows when the page is unlocked and has at least one sheet |
| Upload.UploadPage.PreviewVisible | frontend/src/pages/UploadPage.jsx:234 | the preview shows when a sheet is selected and the collection has it |
| Upload.UploadPage.HandleFileChange | frontend/src/pages/UploadPage.jsx:76-88 | sets the file and resets sheets, selection, both flags and the error; a parse starts exactly when a file exists whose name ends in `.xlsx`; no panel is left visible |
| Upload.UploadPage.FinishLocalParse | frontend/src/pages/UploadPage.jsx:21-71 | on success: `needsPassword` false, `unlocked` true, and the sheets are the workbook's collection. On failure: `needsPassword` true, `unlocked` false, the sheets as they were, and the password form shown when a file is chosen. The selection is untouched in both cases |
| Upload.UploadPage.EnterPassword | frontend/src/pages/UploadPage.jsx:202 | only the password changes, to the typed text; the page invariant (unique sheet names) is kept |
| Upload.UploadPage.SelectSheet | frontend/src/pages/UploadPage.jsx:222 | only the selection changes; the page invariant (unique sheet names) is kept |
| Upload.UploadPage.SubmitPassword | frontend/src/pages/UploadPage.jsx:91-164 | a validation error sets only the error, makes no request and leaves `loading` untouched. Otherwise exactly one request is sent with the file and the untrimmed password, the reply is applied, and `loading` ends false |
| Upload.UploadPage.ReceiveReply | frontend/src/pages/UploadPage.jsx:104-163 | an accepted reply replaces the sheets, sets `unlocked` and clears `needsPassword`, selects the first key and leaves the error empty. Every failure sets its message and `unlocked := false`, keeps sheets, selection and `needsPassword`, and keeps the password form open when a password was needed |
| Upload.UploadPage.Extract | frontend/src/pages/UploadPage.jsx:166-180 | navigates to `/extracted-info` with the export summary of the current sheets: one exported sheet per key, in key order, whose rows are what looking that key up gives (`excelSheets[name].rows`), which holds because the keys are unique |
| Assessment.NextValue | frontend/src/pages/ExtractedInfoPage.jsx:14-16 | one step of a bar: value plus step, clamped at 100 (partners: `NextValueBounds`, `ValueAfterBounds`) |
| Assessment.NextValueBounds | frontend/src/pages/ExtractedInfoPage.jsx:13-16 | a tick never lowers a bar and never takes it past 100; it strictly raises an incomplete bar, and it makes the bar exactly 100 when value plus step reaches 100 |
| Assessment.ValueAfterBounds | frontend/src/pages/ExtractedInfoPage.jsx:12-16 | after n ticks a bar lies between min(10n, 100) and min(29n, 100) |
| Assessment.CompleteWithinTenTicks | frontend/src/pages/ExtractedInfoPage.jsx:14-17 | every bar is at 100 after ten ticks |
| Assessment.IncompleteBeforeFourTicks | frontend/src/pages/ExtractedInfoPage.jsx:14-16 | no bar is complete after three ticks or fewer |
| Assessment.ExtractedInfoPage.constructor | frontend/src/pages/ExtractedInfoPage.jsx:5-6 | four bars, all at 0, not running |
| Assessment.ExtractedInfoPage.BeginAssessment | frontend/src/pages/ExtractedInfoPage.jsx:9-25 | starts running, with one timer per bar, each counting from 0; the bars themselves are not changed |
| Assessment.ExtractedInfoPage.Tick | frontend/src/pages/ExtractedInfoPage.jsx:13-23 | adds the step to the bar's value and clamps it at 100, clearing the bar's timer when it reaches 100. Only slot `idx` of the bar array changes. The bar strictly rises and no bar ever takes more than ten ticks |
| Assessment.ExtractedInfoPage.NavigationTarget | frontend/src/pages/ExtractedInfoPage.jsx:29-34 | navigation to `/ifc-test-result` happens exactly when the assessment is running and no bar's timer is left |
| TestResult.IfcTestResultPage.constructor | frontend/src/pages/IFCTestResultPage.jsx:6-7 | empty input, empty log |
| TestResult.IfcTestResultPage.EditChatInput | frontend/src/pages/IFCTestResultPage.jsx:135 | only the input changes |
| TestResult.IfcTestResultPage.SendChat | frontend/src/pages/IFCTestResultPage.jsx:65-70 | blank input changes nothing. Other input is appended untrimmed as a message from "You" and the input is cleared. The log grows by exactly one and keeps the old log as its prefix |

## Left out

- Workbook parsing by the spreadsheet library (`UploadPage.jsx:24-26`) and `FileReader`. A parsed workbook is an input datatype, and a parse exception is the `LoadFailed` outcome. Which rows `eachRow` visits and which cells `eachCell({ includeEmpty: true })` visits are up to the library; the model takes those enumerations as given.
- `URL.createObjectURL` is the `objectUrl` parameter, a function of the media. The code creates a fresh Blob and a fresh URL for every anchor (`UploadPage.jsx:56-57`), so two anchors on the same media get different URLs there and the same URL in the model. No proved property depends on this. Object URLs are never released, as in the code.
- The date library's time-zone and time-of-day handling, and the exception it raises on an invalid date. A cell date is a calendar date.
- `fetch`, `FormData`, `resp.text()` and `resp.json()`. The `Reply` datatype stands for them. Its cases are:
  - an exception, covering a network failure and a JSON body that does not parse;
  - a non-ok status with its body text;
  - an ok reply with its parsed body.

  A parsed body whose fields have unexpected JavaScript types (a non-string image, a non-array `sheets`) cannot be expressed.
- Timers: `setInterval`, `clearInterval` and the one-second `setTimeout` before navigation. Steps of one bar are individual `Tick` calls, and the interleaving of the four timers is not modelled. `Math.random` becomes the step parameter, limited to 10–29.
- The asynchronous races: a stale local parse completing after a newer selection; a new file selected while an unlock request is in flight, whose stale reply still installs its sheets; a second password submission while one is in flight; and a page instance being replaced. Each request and its reply are one `SubmitPassword` call.
- JavaScript's ordering of integer-like object keys before the other keys. Keys are kept in insertion order.
- A sheet named `__proto__`. In JavaScript, `sheetsData["__proto__"] = …` (`UploadPage.jsx:63`, `:139`) calls the prototype setter and adds no key, so such a sheet is missing from the picker, the first key and the export (`:149`, `:168`, `:225`). `Sheets.Put` treats it like any other name and adds it.
- JSX rendering and styling. The three visibility conditions are kept as predicates.
- The PDF and Excel exports and the static report data of the test-result page (`IFCTestResultPage.jsx:9-63`).
- `frontend/src/App.js` (routes only) and `frontend/src/MultipleSteps.jsx` (static navigation bar).
- JavaScript strings are UTF-16 code units; here a `char` is a Unicode scalar value. Every character that `trim` removes lies in the Basic Multilingual Plane, so the trim rule is unaffected.
