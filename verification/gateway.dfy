/**
  The spreadsheet-backed endpoint: a closed table of three sheets, each with a
  fixed header row; a case-insensitive `sheet` selector; `doGet`, which turns
  every row after the header row into an object keyed by header; `doPost`,
  which stamps the server time into the posted object and appends it as a row
  in header order; and `initializeSheets`, which creates missing sheets with
  their header row.

  The spreadsheet is a map from sheet name to rows of text cells. The endpoint
  is parameterised by its selector table (`Keying`): `AsWritten` is the table
  in the script, `Corrected` renames the duty-chart key to the selector the
  client actually sends.
 */
module Gateway {
  import opened Js

  type Row = seq<string>
  type Sheet = seq<Row>

  /** The active spreadsheet: its sheets by name. */
  type Workbook = map<string, Sheet>

  /** The server clock as ISO text; `toISOString` never yields the empty string. */
  type Clock = s: string | s != "" witness "1970-01-01T00:00:00.000Z"

  datatype SheetId = Patients | Equipment | DutyChart

  /** Which selector table the endpoint consults. */
  datatype Keying = AsWritten | Corrected

  /** The values of the sheet table: the names of the sheets in the spreadsheet. */
  function Name(id: SheetId): string {
    match id
    case Patients => "Patients"
    case Equipment => "Equipment"
    case DutyChart => "DutyChart"
  }

  /** The keys of the sheet table, which an upper-cased selector must match. */
  function Key(keying: Keying, id: SheetId): string {
    match id
    case Patients => "PATIENTS"
    case Equipment => "EQUIPMENT"
    case DutyChart => if keying == AsWritten then "DUTY_CHART" else "DUTYCHART"
  }

  function Keys(keying: Keying): set<string> {
    {Key(keying, Patients), Key(keying, Equipment), Key(keying, DutyChart)}
  }

  const TimestampField := "Timestamp"

  /** The header row of each sheet, in column order. */
  function Headers(id: SheetId): seq<string> {
    match id
    case Patients =>
      [TimestampField, "PatientName", "Age", "Gender", "Diagnosis", "MedicalDescription",
       "Complications", "DateOfAdmission", "PredictedDischarge", "ActualDischarge",
       "ReasonForExtension", "Ward"]
    case Equipment =>
      [TimestampField, "EquipmentName", "Ward", "BreakdownDate", "ProblemDescription",
       "RepairDate", "ActionTaken", "Status"]
    case DutyChart =>
      [TimestampField, "DoctorName", "StartDate", "EndDate", "Ward", "Shift"]
  }

  const GetInvalidSheet := "Invalid sheet name. Use: Patients, Equipment, or DutyChart"
  const PostInvalidSheet := "Invalid sheet name. Use: patients, equipment, or dutychart"
  const SheetNotFound := "Sheet not found"
  const SavedMessage := "Data saved successfully"

  /** Every sheet's first column is the server timestamp and no header repeats. */
  lemma HeadersShape(id: SheetId)
    ensures |Headers(id)| > 0 && Headers(id)[0] == TimestampField
    ensures Distinct(Headers(id))
  {
  }

  // ---------------------------------------------------------------- selector

  /** A selector names a sheet exactly when its upper-case form is a key of the
      sheet table; the sheet it names is the one under that key. */
  function Resolve(keying: Keying, selector: string): (r: Option<SheetId>)
    ensures r.Some? <==> ToUpper(selector) in Keys(keying)
    ensures r.Some? ==> Key(keying, r.value) == ToUpper(selector)
  {
    var key := ToUpper(selector);
    if key == Key(keying, Patients) then Some(Patients)
    else if key == Key(keying, Equipment) then Some(Equipment)
    else if key == Key(keying, DutyChart) then Some(DutyChart)
    else None
  }

  /** Resolution ignores case: a selector and its upper-case form name the same sheet. */
  lemma ResolveIgnoresCase(keying: Keying, selector: string)
    ensures Resolve(keying, ToUpper(selector)) == Resolve(keying, selector)
  {
    var u := ToUpper(selector);
    forall i | 0 <= i < |u|
      ensures ToUpper(u)[i] == u[i]
    {
      UpperCharIdempotent(selector[i]);
    }
    assert ToUpper(u) == u;
  }

  /** As written, the selector the duty-chart screen sends is refused, on
      reads and on writes: its upper-case form `DUTYCHART` is not a key of the
      table, which spells it `DUTY_CHART`. Even the sheet name that the read
      error message advertises, `DutyChart`, is refused. */
  lemma DutySelectorRejectedAsWritten(wb: Workbook, data: Record, now: Clock)
    ensures Resolve(AsWritten, "dutychart") == None
    ensures Resolve(AsWritten, Name(DutyChart)) == None
    ensures DoGet(wb, Some("dutychart"), AsWritten) == GetError(GetInvalidSheet)
    ensures DoPost(wb, Some("dutychart"), data, now, AsWritten) == Posted(wb, PostError(PostInvalidSheet))
  {
    assert ToUpper("dutychart") == "DUTYCHART";
    assert ToUpper(Name(DutyChart)) == "DUTYCHART";
    assert ReadSelector(Some("dutychart")) == "dutychart";
  }

  /** With the corrected key, each selector the screens send names its sheet,
      and so does every sheet name, whatever its case. */
  lemma ClientSelectorsResolveCorrected()
    ensures Resolve(Corrected, "patients") == Some(Patients)
    ensures Resolve(Corrected, "equipment") == Some(Equipment)
    ensures Resolve(Corrected, "dutychart") == Some(DutyChart)
    ensures forall id :: Resolve(Corrected, Name(id)) == Some(id)
  {
    assert ToUpper("patients") == "PATIENTS";
    assert ToUpper("equipment") == "EQUIPMENT";
    assert ToUpper("dutychart") == "DUTYCHART";
    assert ToUpper("Patients") == "PATIENTS";
    assert ToUpper("Equipment") == "EQUIPMENT";
    assert ToUpper("DutyChart") == "DUTYCHART";
  }

  /** The read selector: a missing or empty `sheet` parameter reads `Patients`. */
  function ReadSelector(param: Option<string>): (s: string)
    ensures param.Some? && Truthy(param.value) ==> s == param.value
    ensures param.None? || !Truthy(param.value) ==> s == Name(Patients)
  {
    if param.Some? && Truthy(param.value) then param.value else Name(Patients)
  }

  // ---------------------------------------------------------------- reading

  function Max(a: nat, b: nat): nat {
    if a >= b then a else b
  }

  /** The length of a row without its trailing blank cells: one past its last
      non-blank cell, or zero when every cell is blank. */
  function Used(row: Row): (n: nat)
    ensures n <= |row|
    ensures forall c :: n <= c < |row| ==> row[c] == ""
    ensures n == 0 || row[n - 1] != ""
  {
    if |row| == 0 then 0
    else if row[|row| - 1] != "" then |row|
    else
      var init := row[..|row| - 1];
      assert forall c :: 0 <= c < |init| ==> init[c] == row[c];
      Used(init)
  }

  /** The number of columns of the sheet's data range, which ends at the last
      column holding a non-blank cell: no cell past it is filled, and (unless
      the range is empty) its last column holds a filled cell. */
  function Width(sheet: Sheet): (w: nat)
    ensures forall i, c :: 0 <= i < |sheet| && w <= c < |sheet[i]| ==> sheet[i][c] == ""
    ensures w == 0 || exists i :: 0 <= i < |sheet| && w - 1 < |sheet[i]| && sheet[i][w - 1] != ""
  {
    if |sheet| == 0 then 0
    else
      var init := sheet[..|sheet| - 1];
      assert forall i :: 0 <= i < |init| ==> init[i] == sheet[i];
      Max(Used(sheet[|sheet| - 1]), Width(init))
  }

  /** Appending a row whose cells past the range are all blank leaves the
      range as wide as it was, however many blank cells the row carries. */
  lemma WidthIgnoresBlankTail(sheet: Sheet, row: Row)
    requires forall c :: Width(sheet) <= c < |row| ==> row[c] == ""
    ensures Width(sheet + [row]) == Width(sheet)
  {
    assert (sheet + [row])[..|sheet|] == sheet;
    var n := Used(row);
    assert n == 0 || row[n - 1] != "";
  }

  /** A cell of the rectangular data range; a row shorter than the range reads
      as empty beyond its last cell. */
  function Cell(row: Row, c: nat): string {
    if c < |row| then row[c] else ""
  }

  function Pad(row: Row, width: nat): (r: Row)
    ensures |r| == width
    ensures forall c :: 0 <= c < width ==> r[c] == Cell(row, c)
  {
    seq(width, c requires 0 <= c < width => Cell(row, c))
  }

  /** No later column carries the same header as column `c`. */
  predicate LastOccurrence(headers: seq<string>, c: nat) {
    forall d :: c < d < |headers| ==> headers[d] != headers[c]
  }

  /** The object built from one row: one field per header, set column by
      column (so that when a header repeats, the later column wins). */
  function Entry(headers: seq<string>, row: Row): (e: Record)
    ensures forall h :: h in e <==> h in headers
    decreases |headers|
  {
    if |headers| == 0 then map[]
    else
      var n := |headers| - 1;
      var init := headers[..n];
      assert forall h :: h in headers <==> h in init || h == headers[n] by {
        assert headers == init + [headers[n]];
      }
      Entry(init, row)[headers[n] := Cell(row, n)]
  }

  /** The field of a header holds the cell under the last column with that header. */
  lemma {:induction false} EntryField(headers: seq<string>, row: Row, c: nat)
    requires c < |headers| && LastOccurrence(headers, c)
    ensures Entry(headers, row)[headers[c]] == Cell(row, c)
    decreases |headers|
  {
    var n := |headers| - 1;
    if c < n {
      var init := headers[..n];
      assert init[c] == headers[c];
      assert LastOccurrence(init, c);
      EntryField(init, row, c);
      assert headers[n] != headers[c];
    }
  }

  /** The body of a read of a sheet that exists: the first row of the data
      range holds the headers and each later row, in sheet order, becomes one
      object whose fields are exactly those headers. */
  function ReadRows(sheet: Sheet): (entries: seq<Record>)
    ensures |entries| == if |sheet| == 0 then 0 else |sheet| - 1
    ensures forall i :: 0 <= i < |entries| ==> entries[i] == Entry(Pad(sheet[0], Width(sheet)), sheet[i + 1])
  {
    if |sheet| == 0 then []
    else
      var headers := Pad(sheet[0], Width(sheet));
      seq(|sheet| - 1, i requires 0 <= i < |sheet| - 1 => Entry(headers, sheet[i + 1]))
  }

  datatype GetReply = Entries(entries: seq<Record>) | GetError(error: string)

  /** `doGet`: an unknown selector and a missing sheet are structured errors;
      otherwise the reply holds the rows of the selected sheet. */
  function DoGet(wb: Workbook, param: Option<string>, keying: Keying): (reply: GetReply)
    ensures Resolve(keying, ReadSelector(param)).None? ==> reply == GetError(GetInvalidSheet)
    ensures reply.Entries? <==> exists id :: Resolve(keying, ReadSelector(param)) == Some(id) && Name(id) in wb
    ensures forall id :: Resolve(keying, ReadSelector(param)) == Some(id) ==>
              reply == if Name(id) in wb then Entries(ReadRows(wb[Name(id)])) else GetError(SheetNotFound)
  {
    match Resolve(keying, ReadSelector(param))
    case None => GetError(GetInvalidSheet)
    case Some(id) =>
      if Name(id) !in wb then GetError(SheetNotFound) else Entries(ReadRows(wb[Name(id)]))
  }

  /** Without a selector, or with an empty one, a read reads the patient
      sheet while a write is refused and changes nothing. */
  lemma MissingSelector(wb: Workbook, data: Record, now: Clock, keying: Keying)
    ensures DoGet(wb, None, keying) == DoGet(wb, Some(""), keying) == DoGet(wb, Some(Name(Patients)), keying)
    ensures Name(Patients) in wb ==> DoGet(wb, None, keying) == Entries(ReadRows(wb[Name(Patients)]))
    ensures Name(Patients) !in wb ==> DoGet(wb, None, keying) == GetError(SheetNotFound)
    ensures DoPost(wb, None, data, now, keying) == Posted(wb, PostError(PostInvalidSheet))
    ensures DoPost(wb, Some(""), data, now, keying) == Posted(wb, PostError(PostInvalidSheet))
  {
    assert ToUpper(Name(Patients)) == "PATIENTS";
  }

  // ---------------------------------------------------------------- writing

  /** `headers.map(header => data[header] || '')`. */
  function BuildRow(headers: seq<string>, data: Record): (row: Row)
    ensures |row| == |headers|
    ensures forall c :: 0 <= c < |headers| ==> row[c] == FieldOrEmpty(data, headers[c])
  {
    seq(|headers|, c requires 0 <= c < |headers| => FieldOrEmpty(data, headers[c]))
  }

  datatype PostReply = Saved(message: string, savedData: Record) | PostError(error: string)

  datatype Posted = Posted(book: Workbook, reply: PostReply)

  /** `doPost`: without a selector, with an unknown one or with a missing sheet
      nothing is written and the reply is an error; otherwise the posted object,
      with the server time in its `Timestamp` field, is appended to the selected
      sheet as one row and echoed back. No other sheet changes. */
  function DoPost(wb: Workbook, param: Option<string>, data: Record, now: Clock, keying: Keying): (p: Posted)
    ensures param.None? ==> p == Posted(wb, PostError(PostInvalidSheet))
    ensures param.Some? && Resolve(keying, param.value).None? ==> p == Posted(wb, PostError(PostInvalidSheet))
    ensures p.reply.PostError? ==> p.book == wb
    ensures p.reply.Saved? <==> param.Some? && exists id :: Resolve(keying, param.value) == Some(id) && Name(id) in wb
    ensures forall id :: param.Some? && Resolve(keying, param.value) == Some(id) && Name(id) !in wb ==>
              p == Posted(wb, PostError(SheetNotFound))
    ensures forall id :: param.Some? && Resolve(keying, param.value) == Some(id) && Name(id) in wb ==>
              var stamped := data[TimestampField := now];
              && p.reply == Saved(SavedMessage, stamped)
              && p.book == wb[Name(id) := wb[Name(id)] + [BuildRow(Headers(id), stamped)]]
  {
    if param.None? || !Truthy(param.value) then Posted(wb, PostError(PostInvalidSheet))
    else
      match Resolve(keying, param.value)
      case None => Posted(wb, PostError(PostInvalidSheet))
      case Some(id) =>
        if Name(id) !in wb then Posted(wb, PostError(SheetNotFound))
        else
          var stamped := data[TimestampField := now];
          var row := BuildRow(Headers(id), stamped);
          Posted(wb[Name(id) := wb[Name(id)] + [row]], Saved(SavedMessage, stamped))
  }

  /** The `Timestamp` cell of an appended row always holds the server time,
      whatever the client put in that field. */
  lemma TimestampOverride(wb: Workbook, param: Option<string>, data: Record, now: Clock, keying: Keying, id: SheetId)
    requires param.Some? && Resolve(keying, param.value) == Some(id) && Name(id) in wb
    ensures var sheet := DoPost(wb, param, data, now, keying).book[Name(id)];
            sheet[|sheet| - 1][0] == now
    ensures DoPost(wb, param, data, now, keying).reply.savedData[TimestampField] == now
  {
    HeadersShape(id);
  }

  /** Fields of the posted object that are not headers of the sheet never reach
      it: two objects that agree on the headers write the same row. */
  lemma ExtraFieldsIgnored(wb: Workbook, param: Option<string>, data: Record, other: Record, now: Clock, keying: Keying)
    requires forall id :: param.Some? && Resolve(keying, param.value) == Some(id) ==>
               forall h :: h in Headers(id) ==> FieldOrEmpty(data, h) == FieldOrEmpty(other, h)
    ensures DoPost(wb, param, data, now, keying).book == DoPost(wb, param, other, now, keying).book
  {
    if param.Some? && Resolve(keying, param.value).Some? {
      var id := Resolve(keying, param.value).value;
      var a := BuildRow(Headers(id), data[TimestampField := now]);
      var b := BuildRow(Headers(id), other[TimestampField := now]);
      forall c | 0 <= c < |Headers(id)|
        ensures a[c] == b[c]
      {
        assert Headers(id)[c] in Headers(id);
      }
      assert a == b;
    }
  }

  /** No header occurs twice. */
  predicate Distinct(headers: seq<string>) {
    forall i, j :: 0 <= i < j < |headers| ==> headers[i] != headers[j]
  }

  /** A sheet laid out under `headers`: the header row first, ending in a
      non-blank header, and no row wider than it. */
  predicate Shaped(sheet: Sheet, headers: seq<string>) {
    && |sheet| > 0
    && (|headers| == 0 || headers[|headers| - 1] != "")
    && sheet[0] == headers
    && forall i :: 0 <= i < |sheet| ==> |sheet[i]| <= |headers|
  }

  /** A sheet as provisioning leaves it and appends keep it. */
  predicate SheetWellFormed(sheet: Sheet, id: SheetId) {
    Shaped(sheet, Headers(id))
  }

  lemma AppendKeepsWellFormed(wb: Workbook, param: Option<string>, data: Record, now: Clock, keying: Keying, id: SheetId)
    requires Name(id) in wb && SheetWellFormed(wb[Name(id)], id)
    ensures SheetWellFormed(DoPost(wb, param, data, now, keying).book[Name(id)], id)
  {
  }

  lemma ShapedWidth(sheet: Sheet, headers: seq<string>)
    requires Shaped(sheet, headers)
    ensures Width(sheet) == |headers|
    ensures Pad(sheet[0], Width(sheet)) == headers
  {
    var w := Width(sheet);
    if |headers| > 0 {
      assert sheet[0][|headers| - 1] != "";
    }
    if w > 0 {
      var i :| 0 <= i < |sheet| && w - 1 < |sheet[i]| && sheet[i][w - 1] != "";
    }
  }

  /** Appending a full-width row to a shaped sheet extends its read by exactly
      the entry of that row. */
  lemma ReadAfterAppend(sheet: Sheet, headers: seq<string>, row: Row)
    requires Shaped(sheet, headers) && |row| == |headers|
    ensures ReadRows(sheet + [row]) == ReadRows(sheet) + [Entry(headers, row)]
  {
    var sheet' := sheet + [row];
    assert Shaped(sheet', headers);
    ShapedWidth(sheet, headers);
    ShapedWidth(sheet', headers);
    assert sheet'[0] == sheet[0];
  }

  /** Reading back a row built from an object gives, for every header, the
      value the object held (or '' when it was missing or empty). */
  lemma EntryOfBuiltRow(headers: seq<string>, data: Record)
    requires Distinct(headers)
    ensures forall h :: h in headers ==> Entry(headers, BuildRow(headers, data))[h] == FieldOrEmpty(data, h)
  {
    var row := BuildRow(headers, data);
    forall h | h in headers
      ensures Entry(headers, row)[h] == FieldOrEmpty(data, h)
    {
      var c :| 0 <= c < |headers| && headers[c] == h;
      assert LastOccurrence(headers, c);
      EntryField(headers, row, c);
    }
  }

  /** The round trip on one sheet laid out under distinct headers. */
  lemma RoundTripRows(sheet: Sheet, headers: seq<string>, data: Record)
    requires Shaped(sheet, headers) && Distinct(headers)
    ensures var before := ReadRows(sheet);
            var after := ReadRows(sheet + [BuildRow(headers, data)]);
            && |after| == |before| + 1
            && after[..|before|] == before
            && var e := after[|before|];
               forall h :: h in headers ==> h in e && e[h] == FieldOrEmpty(data, h)
  {
    var row := BuildRow(headers, data);
    ReadAfterAppend(sheet, headers, row);
    EntryOfBuiltRow(headers, data);
    var before := ReadRows(sheet);
    var after := ReadRows(sheet + [row]);
    assert after[|before|] == Entry(headers, row);
  }

  /** A read with a selector that names an existing sheet returns its rows. */
  lemma GetSelected(wb: Workbook, param: Option<string>, keying: Keying, id: SheetId)
    requires param.Some? && Resolve(keying, param.value) == Some(id) && Name(id) in wb
    ensures DoGet(wb, param, keying) == Entries(ReadRows(wb[Name(id)]))
  {
    assert Truthy(param.value);
  }

  /** A write with a selector that names an existing sheet appends to it. */
  lemma PostSelected(wb: Workbook, param: Option<string>, data: Record, now: Clock, keying: Keying, id: SheetId)
    requires param.Some? && Resolve(keying, param.value) == Some(id) && Name(id) in wb
    ensures var book := DoPost(wb, param, data, now, keying).book;
            && Name(id) in book
            && book[Name(id)] == wb[Name(id)] + [BuildRow(Headers(id), data[TimestampField := now])]
  {
  }

  /** Round trip: reading a sheet back after a successful append gives the
      entries read before, unchanged and in order, followed by one entry whose
      field for every header is the posted value (or '' when it was missing or
      empty), with the server time as its `Timestamp`. */
  lemma {:induction false} AppendThenRead(wb: Workbook, param: Option<string>, data: Record, now: Clock, keying: Keying, id: SheetId)
    requires param.Some? && Resolve(keying, param.value) == Some(id)
    requires Name(id) in wb && SheetWellFormed(wb[Name(id)], id)
    ensures var before := DoGet(wb, param, keying);
            var after := DoGet(DoPost(wb, param, data, now, keying).book, param, keying);
            && before.Entries? && after.Entries?
            && |after.entries| == |before.entries| + 1
            && after.entries[..|before.entries|] == before.entries
            && var e := after.entries[|before.entries|];
               && (forall h :: h in Headers(id) ==> h in e && e[h] == FieldOrEmpty(data[TimestampField := now], h))
               && TimestampField in e && e[TimestampField] == now
  {
    var book := DoPost(wb, param, data, now, keying).book;
    PostSelected(wb, param, data, now, keying, id);
    GetSelected(wb, param, keying, id);
    GetSelected(book, param, keying, id);
    HeadersShape(id);
    RoundTripRows(wb[Name(id)], Headers(id), data[TimestampField := now]);
    assert Headers(id)[0] in Headers(id);
  }

  // ---------------------------------------------------------------- provisioning

  /** Creates one sheet with its header row, only when it is absent. */
  function Provision(wb: Workbook, id: SheetId): Workbook {
    if Name(id) in wb then wb else wb[Name(id) := [Headers(id)]]
  }

  /** `initializeSheets`: afterwards all three sheets exist; sheets that were
      already there, and any other sheet, are untouched; the ones created hold
      only their header row. */
  function Initialize(wb: Workbook): (wb': Workbook)
    ensures wb'.Keys == wb.Keys + {Name(Patients), Name(Equipment), Name(DutyChart)}
    ensures forall n :: n in wb ==> wb'[n] == wb[n]
    ensures forall id :: Name(id) !in wb ==> wb'[Name(id)] == [Headers(id)]
  {
    Provision(Provision(Provision(wb, Patients), Equipment), DutyChart)
  }

  /** Provisioning twice leaves the same spreadsheet as provisioning once. */
  lemma InitializeIdempotent(wb: Workbook)
    ensures Initialize(Initialize(wb)) == Initialize(wb)
  {
  }

  /** A freshly created sheet is well formed. */
  lemma InitializeCreatesWellFormed(wb: Workbook, id: SheetId)
    requires Name(id) !in wb
    ensures SheetWellFormed(Initialize(wb)[Name(id)], id)
  {
  }
}
