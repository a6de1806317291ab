/**
  The screens talking to the endpoint. The endpoint answers every request
  with HTTP status 200 and a JSON body: on a write, `{success, message,
  savedData}` or `{error}`; on a read, the array of entries or `{error}`. The
  screens see those bodies through the fields they read.

  The duty-chart screen and the report screen select the duty chart as
  `dutychart`. With the selector table as written (key `DUTY_CHART`) that
  selector is refused; the lemmas below follow the consequence through each
  screen, and show the corrected table delivering the intended behaviour.
 */
module System {
  import opened Js
  import opened Client
  import opened Submission
  import opened Gateway
  import opened DutyChart
  import opened Reports

  /** The endpoint's status for every reply it produces. */
  const EndpointStatus: nat := 200

  /** A write reply as a submit handler reads it: `success` is present only
      on a save, `error` only on a refusal. */
  function ReplyOf(reply: PostReply): (r: Reply)
    ensures r.Response? && r.status == EndpointStatus && StatusOk(r.status)
    ensures r.body.success <==> reply.Saved?
    ensures reply.Saved? ==> r.body.error == ""
    ensures reply.PostError? ==> r.body.error == reply.error
    ensures WriteFailure(r).None? <==> reply.Saved?
  {
    match reply
    case Saved(_, _) => Response(EndpointStatus, Body(true, ""))
    case PostError(e) => Response(EndpointStatus, Body(false, e))
  }

  /** A read reply as a screen reads it: the array of entries, or the error
      object, which is not an array. */
  function ReadReplyOf(reply: GetReply): (r: ReadReply)
    ensures r.ReadResponse? && r.status == EndpointStatus && StatusOk(r.status)
    ensures reply.Entries? <==> r.body.Records?
    ensures reply.Entries? ==> r.body.rows == reply.entries
    ensures reply.GetError? ==> r.body == NotArray(reply.error)
  {
    match reply
    case Entries(rows) => ReadResponse(EndpointStatus, Records(rows))
    case GetError(e) => ReadResponse(EndpointStatus, NotArray(e))
  }

  const PatientsSelector := "patients"
  const EquipmentSelector := "equipment"

  /** As written, saving a duty entry never writes the sheet, whatever the
      request carries: the form either refuses locally or shows the
      endpoint's refusal, and keeps both the draft and the list. */
  lemma DutySaveFailsAsWritten(wb: Workbook, v: View, data: Record, now: Clock, refresh: ReadReply,
                               iso: int -> string)
    requires WellFormed(Duty, v.draft)
    ensures var post := DoPost(wb, Some(Duty.selector), data, now, AsWritten);
            && post.book == wb
            && var v' := SubmitDuty(v, ReplyOf(post.reply), refresh, iso);
               && v'.draft == v.draft && v'.list == v.list && v'.status.severity == Error
               && (Submit(Duty, v.draft, ReplyOf(post.reply), iso).sent.Some? ==>
                     v'.status == ErrorStatus(PostInvalidSheet))
  {
    DutySelectorRejectedAsWritten(wb, data, now);
    DutyFormValid();
  }

  /** As written, reading the duty chart succeeds at the HTTP level, so no
      error is shown, and the list becomes the error object. */
  lemma DutyListAsWritten(wb: Workbook, v: View, data: Record, now: Clock)
    ensures Fetch(v, ReadReplyOf(DoGet(wb, Some(Duty.selector), AsWritten))) ==
            v.(list := NotArray(GetInvalidSheet))
  {
    DutySelectorRejectedAsWritten(wb, data, now);
  }

  /** As written, the monthly report stores the error object as its duty
      chart and then fails on it, keeping the previous statistics, even when
      the patient and equipment sheets read correctly. */
  lemma ReportAsWritten(wb: Workbook, v: ReportView, data: Record, now: Clock, start: int, end: int,
                        parse: string -> Option<int>)
    requires Name(Patients) in wb && Name(Equipment) in wb
    ensures var v' := FetchReport(v,
                        ReadReplyOf(DoGet(wb, Some(PatientsSelector), AsWritten)),
                        ReadReplyOf(DoGet(wb, Some(EquipmentSelector), AsWritten)),
                        ReadReplyOf(DoGet(wb, Some(Duty.selector), AsWritten)),
                        start, end, parse);
            && v'.data.dutyChart == NotArray(GetInvalidSheet)
            && v'.stats == v.stats
            && v'.status == ErrorStatus(DutyReduceFails)
  {
    DutySelectorRejectedAsWritten(wb, data, now);
    ClientSelectorsResolveCorrected();
    assert ToUpper(PatientsSelector) == "PATIENTS";
    assert ToUpper(EquipmentSelector) == "EQUIPMENT";
    GetSelected(wb, Some(PatientsSelector), AsWritten, Patients);
    GetSelected(wb, Some(EquipmentSelector), AsWritten, Equipment);
  }

  /** With the corrected table, the duty chart screen lists the sheet's
      entries. */
  lemma DutyListCorrected(wb: Workbook, v: View)
    requires Name(DutyChart) in wb
    ensures Fetch(v, ReadReplyOf(DoGet(wb, Some(Duty.selector), Corrected))) ==
            v.(list := Records(ReadRows(wb[Name(DutyChart)])))
  {
    ClientSelectorsResolveCorrected();
    GetSelected(wb, Some(Duty.selector), Corrected, DutyChart);
  }

  /** Every field of the duty form is a column of the duty sheet. */
  lemma DutyFieldsAreColumns()
    ensures forall f :: f in Duty.textFields || f in Duty.dateFields ==> f in Headers(DutyChart) && f != TimestampField
  {
  }

  /** In a complete duty draft with no invalid date, both dates hold a time. */
  lemma CompleteDutyDates(d: Draft)
    requires WellFormed(Duty, d) && !HasInvalidDate(Duty, d)
    requires |MissingFields(Duty.required, d)| == 0
    ensures forall f :: f in Duty.dateFields ==> d[f].Date? && d[f].time.Some?
  {
    var m := MissingFields(Duty.required, d);
    assert DutyRequired[1] == "StartDate" && DutyRequired[2] == "EndDate";
    assert "StartDate" !in m && "EndDate" !in m;
    assert Filled(d, "StartDate") && Filled(d, "EndDate");
    assert Duty.dateFields == ["StartDate", "EndDate"];
  }

  /** The screen's side of a save the endpoint acknowledged: the draft is
      cleared, the success banner shows and the list becomes what the refresh
      read. */
  lemma AcknowledgedSave(v: View, saved: Record, refresh: GetReply, iso: int -> string)
    requires WellFormed(Duty, v.draft) && !HasInvalidDate(Duty, v.draft)
    requires |MissingFields(Duty.required, v.draft)| == 0
    requires refresh.Entries?
    ensures SubmitDuty(v, ReplyOf(Saved(SavedMessage, saved)), ReadReplyOf(refresh), iso) ==
            View(EmptyDraft(Duty), Records(refresh.entries), Status(Duty.savedMessage, Success))
  {
    DutyFormValid();
  }

  /** An entry read back from a row built from a complete duty payload holds
      every field as typed, each date as its ISO text, and the server time. */
  lemma EntryCarriesDraft(d: Draft, body: Record, e: Record, now: Clock, iso: int -> string)
    requires WellFormed(Duty, d) && Payload(Duty, d, iso) == Ok(body)
    requires forall f :: f in Duty.dateFields ==> d[f].Date? && d[f].time.Some?
    requires forall h :: h in Headers(DutyChart) ==> h in e && e[h] == FieldOrEmpty(body[TimestampField := now], h)
    ensures TimestampField in e && e[TimestampField] == now
    ensures forall f :: f in Duty.textFields ==> f in e && e[f] == d[f].text
    ensures forall f :: f in Duty.dateFields ==> f in e && e[f] == iso(d[f].time.value)
  {
    DutyFieldsAreColumns();
    assert TimestampField in Headers(DutyChart);
  }

  /** With the corrected table, a complete duty entry is saved: the draft is
      cleared, the success banner shows, and the refreshed list holds the
      entries read before followed by the new one, which carries every field
      as typed, each date as its ISO text and the server time. */
  lemma {:induction false} DutySavedCorrected(wb: Workbook, v: View, now: Clock, iso: int -> string)
    requires WellFormed(Duty, v.draft) && !HasInvalidDate(Duty, v.draft)
    requires |MissingFields(Duty.required, v.draft)| == 0
    requires Name(DutyChart) in wb && SheetWellFormed(wb[Name(DutyChart)], DutyChart)
    ensures Payload(Duty, v.draft, iso).Ok?
    ensures var post := DoPost(wb, Some(Duty.selector), Payload(Duty, v.draft, iso).value, now, Corrected);
            var before := ReadRows(wb[Name(DutyChart)]);
            var v' := SubmitDuty(v, ReplyOf(post.reply), ReadReplyOf(DoGet(post.book, Some(Duty.selector), Corrected)), iso);
            && v'.draft == EmptyDraft(Duty)
            && v'.status == Status(Duty.savedMessage, Success)
            && v'.list.Records? && |v'.list.rows| == |before| + 1
            && v'.list.rows[..|before|] == before
            && var e := v'.list.rows[|before|];
               && TimestampField in e && e[TimestampField] == now
               && (forall f :: f in Duty.textFields ==> f in e && e[f] == v.draft[f].text)
               && (forall f :: f in Duty.dateFields ==>
                     v.draft[f].Date? && v.draft[f].time.Some? && f in e && e[f] == iso(v.draft[f].time.value))
  {
    CompleteDutyDates(v.draft);
    var body := Payload(Duty, v.draft, iso).value;
    var param := Some(Duty.selector);
    ClientSelectorsResolveCorrected();
    var post := DoPost(wb, param, body, now, Corrected);
    PostSelected(wb, param, body, now, Corrected, DutyChart);
    GetSelected(wb, param, Corrected, DutyChart);
    AppendThenRead(wb, param, body, now, Corrected, DutyChart);
    var after := DoGet(post.book, param, Corrected);
    AcknowledgedSave(v, body[TimestampField := now], after, iso);
    var before := ReadRows(wb[Name(DutyChart)]);
    EntryCarriesDraft(v.draft, body, after.entries[|before|], now, iso);
  }
}
