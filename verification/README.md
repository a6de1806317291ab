# Ward records: a Dafny model

The application keeps three kinds of hospital-ward records:
- patient case sheets;
- equipment breakdown logs;
- doctor duty assignments.

Three browser screens enter these records. A fourth screen builds a monthly report from them. The records live in a spreadsheet, reached through a small script endpoint.

This project models the record handling of that system as pure Dafny functions and proves what it promises.

- **The sheet gateway** is the spreadsheet endpoint (`Gateway`, `gateway.dfy`):
  - a closed table of three sheets, each with a fixed header row;
  - the case-insensitive `sheet` selector;
  - `doGet`, which turns the rows after the header row into objects keyed by header;
  - `doPost`, which stamps the server time into the posted object and appends it as one row in header order;
  - `initializeSheets`, which creates the missing sheets.

  The spreadsheet is a map from sheet name to rows of text cells. The gateway takes its selector table as a parameter: the table as written (key `DUTY_CHART`), or a corrected one (key `DUTYCHART`).
- **The submit handler** (`Submission`, `submission.dfy`) is shared by the three data-entry screens. It runs:
  1. the required-field check, which lists the required fields holding a falsy value, in declared order;
  2. the request body, with dates as ISO text;
  3. the reading of the reply;
  4. the reset of the draft after a success.

  The handler is a pure transition from a draft and a reply to a new draft, a banner and the body sent, if any.
- **The three screens**:
  - `PatientForm` and `EquipmentForm` hold the form constants and facts about them.
  - `DutyChart` also models the duty list: reading it when the screen opens, and re-reading it after a successful save.
- **The report** (`Reports`, `reports.dfy`):
  - the three reads, where the first failure wins;
  - the inclusive month filter;
  - the count-by-key histograms;
  - the summary counts.
- **The system** (`System`, `system.dfy`) connects the screens to the gateway through the replies it produces. It follows the duty-chart selector defect through each screen, and proves the corrected table restores the intended round trip.
- **Shared helpers**:
  - `Js` (`js.dfy`) holds the few pieces of JavaScript behaviour the code relies on: truthiness, `a || b`, `toUpperCase`, `join`, and number-to-text conversion;
  - `Seqs` (`seqs.dfy`) holds `filter` and the order it keeps.

Some inputs are parameters rather than part of the model:
- Dates are integers. The conversion to ISO text is a parameter `iso: int -> string`.
- The date parser used by the report is a parameter `parse: string -> Option<int>`.
- The server clock is a parameter `now`.
- Network replies are values given to the handlers.

Behaviour worth knowing:
- The code has no age-range, enumeration or date-ordering validation; the only client check is the falsy-required-field filter. No other validation is modelled.
- The endpoint answers its errors with HTTP status 200, so not every caught failure reaches the banner: a refused read reaches the screens as an ok reply. The duty chart screen then stores the error object as its list without setting an error banner (`System.DutyListAsWritten`). Its next render calls `map` on that object, which throws, so the screen fails to render instead of showing a message. That rendering step is outside the model (see "## Left out").
- The report screen then throws on `filter` or `reduce` (`Reports.FetchReport`).

## Model

| member | source | states |
|---|---|---|
| Js.FieldOrEmpty | google-apps-script.js:104 | `data[h] \|\| ''` on a string record: the field's value when present, '' when absent |
| Js.Decimal | src/components/PatientForm.js:82 | the status number in a template literal is a non-empty run of decimal digits without a leading zero |
| Js.DecimalRoundTrip | src/components/PatientForm.js:82 | the digits of a status number read back as the same number |
| Seqs.Filter | src/components/PatientForm.js:59 | `filter` keeps exactly the elements satisfying the predicate and never grows the sequence |
| Seqs.FilterKeepsOrder | src/components/Reports.js:91-99 | a filter's result is a subsequence of its input, and each element occurs in it as often as in the input if it passes and not at all otherwise |
| Gateway.HeadersShape | google-apps-script.js:11-44 | every sheet's header row starts with Timestamp and names no column twice |
| Gateway.Resolve | google-apps-script.js:4-8 | a selector is accepted iff its upper-cased form is a key of the sheet table, and then names the sheet with that key |
| Gateway.ResolveIgnoresCase | google-apps-script.js:68 | a selector and its upper-cased form select the same sheet |
| Gateway.DutySelectorRejectedAsWritten | google-apps-script.js:7 | with the table as written, `dutychart` (and even `DutyChart`) is refused: a read gets the invalid-sheet error and a write gets it with the spreadsheet unchanged |
| Gateway.ClientSelectorsResolveCorrected | src/components/DutyChart.js:46 | with the corrected table, the selectors the screens send and every sheet name select the intended sheet |
| Gateway.ReadSelector | google-apps-script.js:66 | a missing or empty read selector means `Patients` |
| Gateway.MissingSelector | google-apps-script.js:91-94 | with no selector a read reads the patient sheet, while a write, with no selector or an empty one, is refused and changes nothing |
| Gateway.Width | google-apps-script.js:75 | the data range ends at the last column holding a non-blank cell in any row: no cell past it is filled, and its last column holds a filled cell |
| Gateway.WidthIgnoresBlankTail | google-apps-script.js:75 | a row whose cells past the data range are all blank, such as one with trailing '' cells, leaves the range as wide as it was |
| Gateway.Pad | google-apps-script.js:75 | a row read from the data range has the range's width, with blank cells past its end |
| Gateway.Entry | google-apps-script.js:77-82 | an object built from a row has exactly the headers as keys |
| Gateway.EntryField | google-apps-script.js:79-81 | the field of the header in column c is the cell in column c when no later column repeats that header |
| Gateway.ReadRows | google-apps-script.js:75-83 | one object per row after the header row, in row order; the count is the row count minus one |
| Gateway.DoGet | google-apps-script.js:65-87 | an unknown selector gives the invalid-sheet error, a missing sheet "Sheet not found", and otherwise the sheet's objects; entries come back iff the selector resolves to an existing sheet |
| Gateway.BuildRow | google-apps-script.js:104 | the row has one cell per header, in header order, each the posted value or '' |
| Gateway.DoPost | google-apps-script.js:90-120 | every refusal leaves the spreadsheet unchanged: no selector or an unknown one gives the invalid-sheet error, and a resolved selector whose sheet is absent gives "Sheet not found"; a save happens iff the selector resolves to an existing sheet, and then appends exactly one row built from the posted object with the server time, and echoes that object |
| Gateway.TimestampOverride | google-apps-script.js:103-104 | the Timestamp cell of the appended row and the echoed Timestamp are the server time, whatever the client sent |
| Gateway.ExtraFieldsIgnored | google-apps-script.js:104 | two posted objects that agree on the sheet's headers write the same spreadsheet: other fields never reach it |
| Gateway.AppendKeepsWellFormed | google-apps-script.js:102-105 | a sheet holding its header row first, ending in a non-blank header, and no row wider than the header row keeps that shape after any write |
| Gateway.ShapedWidth | google-apps-script.js:75-76 | the header row of such a sheet, padded to the range, is exactly the header list |
| Gateway.ReadAfterAppend | google-apps-script.js:75-83 | reading a sheet with one appended row gives the earlier objects followed by the new row's object |
| Gateway.EntryOfBuiltRow | google-apps-script.js:104 | the object read from a row built from `data` holds `data[h] \|\| ''` for every header h |
| Gateway.RoundTripRows | google-apps-script.js:102-105 | appending a built row and reading back gives the old objects followed by one holding the posted fields |
| Gateway.GetSelected | google-apps-script.js:71-83 | a read with a resolved selector of an existing sheet returns that sheet's objects |
| Gateway.PostSelected | google-apps-script.js:96-110 | a write with a resolved selector of an existing sheet appends the built row to that sheet only |
| Gateway.AppendThenRead | google-apps-script.js:75-105 | reading back after a save gives the earlier entries unchanged plus one entry whose field for every header is the posted value or '', with Timestamp the server time |
| Gateway.Initialize | google-apps-script.js:47-62 | afterwards all three sheets exist, existing sheets are untouched, and created sheets hold only their header row |
| Gateway.InitializeIdempotent | google-apps-script.js:50-54 | provisioning twice gives the same spreadsheet as provisioning once |
| Gateway.InitializeCreatesWellFormed | google-apps-script.js:52-54 | a sheet created by provisioning has the shape reads and writes rely on |
| Client.Failure | src/components/PatientForm.js:113-117 | an error banner has error severity and carries the prefix and then the reason verbatim |
| Submission.EmptyDraft | src/components/PatientForm.js:21-33 | the initial draft has exactly the form's fields, each falsy: text '' and dates null |
| Submission.Edit | src/components/PatientForm.js:37-50 | an input change sets one field and leaves every other field as it was |
| Submission.EditKeepsWellFormed | src/components/PatientForm.js:37-50 | text inputs and date pickers keep the draft well formed |
| Submission.MissingFields | src/components/PatientForm.js:58-59 | every reported field is required and unfilled, every unfilled required field is reported, and the report keeps the declared order |
| Submission.MissingExactly | src/components/PatientForm.js:59 | a field is reported missing iff it is required and not truthy |
| Submission.NotRequiredNeverMissing | src/components/EquipmentForm.js:55-56 | a field that is not required is never reported missing |
| Submission.AllBlankAllMissing | src/components/PatientForm.js:58-59 | with nothing filled, every required field is reported, in declared order |
| Submission.Payload | src/components/PatientForm.js:72-77 | the body copies every text field, holds the ISO text of every date present and omits null dates; an invalid date makes it fail with "Invalid time value"; it has no other keys |
| Submission.Prepare | src/components/PatientForm.js:58-63 | a non-empty missing list gives the "Please fill in all required fields: " error joined by ", "; otherwise the body is built |
| Submission.WriteFailure | src/components/PatientForm.js:80-110 | a reply counts as success iff it is ok and says success; otherwise the reason is the network message, the body's error, or "Server responded with <status>" or "Failed to save data" |
| Submission.Submit | src/components/PatientForm.js:52-119 | nothing is sent when a field is missing or a date is invalid; success iff the request was sent and the reply succeeded, and then the draft resets; every failure keeps the draft and shows an error banner with the reason |
| Submission.ResetBlocksResubmit | src/components/PatientForm.js:88-107 | after a success, submitting again sends nothing |
| PatientForm.PatientFormValid | src/components/PatientForm.js:21-33 | the patient form's text and date fields are disjoint and cover its required fields |
| PatientForm.PatientOptionalNotRequired | src/components/PatientForm.js:58 | the description, complications, discharge dates and extension reason are not in the required list |
| PatientForm.PatientOptionalFields | src/components/PatientForm.js:58-59 | those optional fields are never reported missing |
| PatientForm.PatientRequiredList | src/components/PatientForm.js:58-62 | the refusal lists PatientName, Age, Gender, Diagnosis, DateOfAdmission, Ward joined by ", " |
| PatientForm.BlankPatientRefused | src/components/PatientForm.js:58-63 | a blank case sheet is refused with every required field named and no request sent |
| EquipmentForm.EquipmentFormValid | src/components/EquipmentForm.js:22-30 | the equipment form's fields are consistent |
| EquipmentForm.EquipmentOptionalNotRequired | src/components/EquipmentForm.js:55 | RepairDate and ActionTaken are not in the required list |
| EquipmentForm.EquipmentOptionalFields | src/components/EquipmentForm.js:55-56 | RepairDate and ActionTaken are never reported missing |
| EquipmentForm.EquipmentRequiredList | src/components/EquipmentForm.js:55-59 | the refusal lists EquipmentName, Ward, BreakdownDate, ProblemDescription, Status |
| EquipmentForm.BlankEquipmentRefused | src/components/EquipmentForm.js:55-60 | a blank log is refused with every required field named and no request sent |
| EquipmentForm.UnrepairedPayload | src/components/EquipmentForm.js:69-73 | a log without a repair date sends no RepairDate and the breakdown date as ISO text |
| DutyChart.DutyFormValid | src/components/DutyChart.js:29-35 | the duty form's fields are consistent |
| DutyChart.DutyAllRequired | src/components/DutyChart.js:84 | every duty field is required |
| DutyChart.DutyRequiredList | src/components/DutyChart.js:84-88 | the refusal lists DoctorName, StartDate, EndDate, Ward, Shift |
| DutyChart.BlankDutyRefused | src/components/DutyChart.js:84-89 | a blank duty entry is refused with every field named and no request sent |
| DutyChart.CompleteDutyPayload | src/components/DutyChart.js:98-102 | a complete entry sends both dates as ISO text |
| DutyChart.Initial | src/components/DutyChart.js:29-37 | the screen opens with the all-blank draft, an empty list and a closed banner with empty text |
| DutyChart.Fetch | src/components/DutyChart.js:44-61 | an ok reply replaces the list with its body, whatever it is; a failure keeps the list and shows the body's error, or the status, after "Error fetching duty chart: " |
| DutyChart.FetchFailureKeepsList | src/components/DutyChart.js:47-59 | a failed read never loses the list shown |
| DutyChart.SubmitDuty | src/components/DutyChart.js:78-140 | the shared submit step, then a re-read of the list only after a success; a failed save keeps draft and list |
| DutyChart.FailedSaveKeepsScreen | src/components/DutyChart.js:129-139 | a failed save leaves draft and list unchanged and shows an error |
| DutyChart.SavedThenRefreshed | src/components/DutyChart.js:113-128 | after a success the draft is empty; an ok refresh sets the list and keeps the success banner, a failed one keeps the list and shows an error |
| Reports.FirstFailure | src/components/Reports.js:63-81 | the report proceeds iff all three replies are ok; a single rejected request gives that request's own network message; otherwise the first failing one, in the order patients, equipment, duty chart, is named with the body's error or the status |
| Reports.Stamp | src/components/Reports.js:92 | a record without the date field has an invalid date |
| Reports.MonthFilter | src/components/Reports.js:91-99 | exactly the records whose date lies in the window, both bounds included, each as often as in the input, in input order |
| Reports.KeyOf | src/components/Reports.js:128 | a record is counted under its field's value, or "undefined" without it |
| Reports.Occurrences | src/components/Reports.js:127-130 | the independent count of records under a key: zero iff no record has that key |
| Reports.Bump | src/components/Reports.js:128 | one reducer step adds one to its key's count and changes no other count |
| Reports.Tally | src/components/Reports.js:127-130 | the reducer's keys are the starting keys plus the keys present, and each count is the starting count plus the records under that key |
| Reports.Histogram | src/components/Reports.js:125-142 | the keys are exactly the values present, and each count is the number of records with that value |
| Reports.BumpSum | src/components/Reports.js:128 | one reducer step adds one to the total count |
| Reports.TallySum | src/components/Reports.js:127-130 | the reducer adds exactly one count per record |
| Reports.HistogramTotal | src/components/Reports.js:127-142 | the counts of a histogram add up to the number of records |
| Reports.CalculateStats | src/components/Reports.js:125-149 | the three histograms by ward, doctor and status; a duty chart that is not an array makes reduce throw |
| Reports.FetchReport | src/components/Reports.js:56-119 | a failing reply shows its error and changes nothing; the data changes only when both lists are arrays, and then holds the month's patients by admission date, the month's equipment by breakdown date and the duty chart unfiltered; when all three are arrays the statistics are the ones computed from that data and the banner is kept; a patient or equipment reply that is not an array shows the `filter` TypeError and changes nothing else; a duty chart that is not an array is stored, shows the `reduce` TypeError and keeps the old statistics |
| Reports.Summarize | src/components/Reports.js:279-287 | the summary counts are the lengths of the shown lists; a duty chart that is not an array has no count |
| Reports.ReportCountsAgree | src/components/Reports.js:101-108 | after a successful refresh the summary counts are the filtered lengths and the whole duty chart's length, and each histogram sums to its count |
| System.ReplyOf | google-apps-script.js:106-119 | a write reply always has status 200; the screens see success iff the row was saved, with no error text on a save and the gateway's error otherwise |
| System.ReadReplyOf | google-apps-script.js:77-86 | a read reply always has status 200, with the entries as an array or the error object |
| System.DutySaveFailsAsWritten | src/components/DutyChart.js:93-139 | with the table as written no duty save ever writes the spreadsheet, and the screen keeps its draft and list and shows an error (the invalid-sheet text once sent) |
| System.DutyListAsWritten | src/components/DutyChart.js:44-53 | with the table as written the read succeeds at the HTTP level, so the fetch sets no error banner and the duty list becomes the error object |
| System.ReportAsWritten | src/components/Reports.js:63-108 | with the table as written the report stores the error object as its duty chart and fails on reduce, keeping the old statistics |
| System.DutyListCorrected | src/components/DutyChart.js:44-53 | with the corrected table the duty list is the sheet's entries |
| System.DutyFieldsAreColumns | google-apps-script.js:36-43 | every duty form field is a column of the duty sheet, other than Timestamp |
| System.CompleteDutyDates | src/components/DutyChart.js:84-89 | a complete duty draft with no invalid date holds two valid dates |
| System.AcknowledgedSave | src/components/DutyChart.js:113-128 | an acknowledged save clears the draft, shows the success banner and lists what the refresh read |
| System.EntryCarriesDraft | google-apps-script.js:102-104 | an entry read back from a complete duty body holds every field as typed, the dates as ISO text and the server time |
| System.DutySavedCorrected | src/components/DutyChart.js:78-140 | with the corrected table a complete duty entry is saved; the draft clears, and the refreshed list is the old list plus one entry holding the typed fields, the ISO dates and the server time |

## Left out

- `proxy-server.js` (CORS relay, logging) and `src/config.js` (environment URL lookup): plumbing with no state of its own.
- JSX rendering, the Snackbar open/close flag, the report's loading flag, the transient "Saving..." banner and chart and Excel export: presentation only.
- Concurrency and timing of `fetch`, `async`/`await` and `Promise.all`: replies are given as values.
- Reports.FirstFailure: when several reads are rejected by the network, which rejection wins depends on timing; the model takes the first in request order.
- JSON bodies of a read reply that are neither arrays nor objects (`null`, a string, a number): the endpoint sends only arrays and `{error}` objects, so such bodies are not modelled; on them `filter`, `reduce` and `length` behave differently from an error object.
- Rendering of the duty list (src/components/DutyChart.js:248): on a list that is not an array, `dutyChart.map` throws during render and the screen does not appear; JSX rendering is not modelled, so the model stops at the stored list.
- Parsing of request bodies (`JSON.parse`) and its "Error processing data" reply, and the `details` stack trace: bodies are modelled as already-parsed string records.
- Values that are not strings in JSON bodies, and the spreadsheet's conversion of cell text into numbers or dates: records hold text only.
- Property names that collide with `Object.prototype` members (such as `constructor`) in the histogram accumulators and in `entry[header]`.
- Blank rows at the end of a sheet: `appendRow` writes after the last row with content and `getDataRange` stops there, so the model takes a sheet's rows to end at its last non-blank row; trailing blank cells within rows are modelled (Gateway.Width).
- The sheet platform's API (`getSheetByName`, `insertSheet`, `appendRow`, header colouring): the spreadsheet is a map from sheet name to rows.
- Js.ToUpper is exact only for the question the gateway asks (does the upper-cased selector equal an ASCII key); characters whose upper case is not a single ASCII letter are left unchanged.
- The date library (`startOfMonth`, `endOfMonth`, `parseISO`, `toISOString`): the window's bounds are integers and parsing and ISO conversion are parameters.
- `doOptions` (empty CORS preflight reply): it touches no data.

## Findings

| source | as written | input that shows it | evidently intended | confidence | as-written member | corrected member |
|---|---|---|---|---|---|---|
| google-apps-script.js:7 | the sheet table's key for the duty chart is `DUTY_CHART`, and the selector check at line 68 looks up the upper-cased selector | `?sheet=dutychart`, the selector sent in src/components/DutyChart.js:46, 93 and src/components/Reports.js:66, upper-cases to `DUTYCHART`, which is not a key | `dutychart` selects the DutyChart sheet, as the write error text at line 94 advertises | not executed | System.DutySaveFailsAsWritten | System.DutySavedCorrected |
