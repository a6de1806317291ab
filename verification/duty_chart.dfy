/**
  The duty chart screen: a data-entry form like the others, plus the list of
  duty entries it reads from the sheet gateway when it opens and again after
  every successful save.
 */
module DutyChart {
  import opened Js
  import opened Seqs
  import opened Client
  import opened Submission

  const DutyRequired: seq<string> := ["DoctorName", "StartDate", "EndDate", "Ward", "Shift"]

  const Duty := Form(
    ["DoctorName", "Ward", "Shift"],
    ["StartDate", "EndDate"],
    DutyRequired,
    "dutychart",
    "Duty chart entry saved successfully!")

  lemma DutyFormValid()
    ensures ValidForm(Duty)
  {
  }

  /** Every field of a duty entry is required. */
  lemma DutyAllRequired()
    ensures forall f :: f in Duty.textFields || f in Duty.dateFields <==> f in Duty.required
  {
  }

  /** The list of required fields as the refusal banner spells it out. */
  lemma DutyRequiredList()
    ensures Join(Duty.required, ", ") ==
            "DoctorName" + ", " + "StartDate" + ", " + "EndDate" + ", " + "Ward" + ", " + "Shift"
  {
    var req := DutyRequired;
    assert req[1..] == ["StartDate", "EndDate", "Ward", "Shift"];
    assert req[2..] == ["EndDate", "Ward", "Shift"];
    assert req[3..] == ["Ward", "Shift"];
    assert req[4..] == ["Shift"];
  }

  /** A blank duty entry is refused before any request, naming every field. */
  lemma BlankDutyRefused(reply: Reply, iso: int -> string)
    ensures var blank := EmptyDraft(Duty);
            Submit(Duty, blank, reply, iso) ==
              Outcome(blank, ErrorStatus(RequiredPrefix + Join(Duty.required, ", ")), None)
    ensures Join(Duty.required, ", ") ==
            "DoctorName" + ", " + "StartDate" + ", " + "EndDate" + ", " + "Ward" + ", " + "Shift"
  {
    var blank := EmptyDraft(Duty);
    AllBlankAllMissing(Duty.required, blank);
    DutyRequiredList();
  }

  /** Once every field is filled, both dates are in the request body: a duty
      entry always carries its start and end as ISO text. */
  lemma CompleteDutyPayload(d: Draft, iso: int -> string)
    requires WellFormed(Duty, d)
    requires !HasInvalidDate(Duty, d)
    requires |MissingFields(Duty.required, d)| == 0
    ensures Payload(Duty, d, iso).Ok?
    ensures var body := Payload(Duty, d, iso).value;
            && d["StartDate"].Date? && d["EndDate"].Date?
            && "StartDate" in body && body["StartDate"] == iso(d["StartDate"].time.value)
            && "EndDate" in body && body["EndDate"] == iso(d["EndDate"].time.value)
  {
    assert DutyRequired[1] == "StartDate" && DutyRequired[2] == "EndDate";
    assert Filled(d, "StartDate") && Filled(d, "EndDate");
    assert "StartDate" in Duty.dateFields && "EndDate" in Duty.dateFields;
  }

  /** The screen: the draft, the list of duty entries last read (whatever
      JSON value the reply held), and the banner. */
  datatype View = View(draft: Draft, list: ReadBody, status: Status)

  const FetchPrefix := "Error fetching duty chart: "

  /** The screen as it first renders, before the list is read. */
  function Initial(): (v: View)
    ensures WellFormed(Duty, v.draft) && v.draft == EmptyDraft(Duty)
    ensures v.list == Records([]) && v.status == Status("", Success)
  {
    DutyFormValid();
    View(EmptyDraft(Duty), Records([]), Status("", Success))
  }

  /** `fetchDutyChart`: an ok reply replaces the list with its body, whatever
      it is; a rejected request or a non-ok status keeps the list and shows
      the reason (the body's `error`, else the status). */
  function Fetch(v: View, reply: ReadReply): (v': View)
    ensures v'.draft == v.draft
    ensures reply.ReadResponse? && StatusOk(reply.status) ==> v' == v.(list := reply.body)
    ensures reply.ReadUnreachable? ==> v' == v.(status := Failure(FetchPrefix, reply.reason))
    ensures reply.ReadResponse? && !StatusOk(reply.status) ==>
              && v'.list == v.list
              && v'.status == Failure(FetchPrefix,
                   if Truthy(ReadError(reply.body)) then ReadError(reply.body) else ServerResponded(reply.status))
  {
    match reply
    case ReadUnreachable(reason) => v.(status := Failure(FetchPrefix, reason))
    case ReadResponse(status, body) =>
      if !StatusOk(status) then v.(status := Failure(FetchPrefix, OrElse(ReadError(body), ServerResponded(status))))
      else v.(list := body)
  }

  /** A failed read never loses the list already shown. */
  lemma FetchFailureKeepsList(v: View, reply: ReadReply)
    requires !(reply.ReadResponse? && StatusOk(reply.status))
    ensures Fetch(v, reply).list == v.list
    ensures Fetch(v, reply).status.severity == Error
  {
  }

  /** `handleSubmit` on this screen: the shared submit step, then, only after
      a success, the list is read again. The refresh runs after the success
      banner is set, so a failed refresh replaces it with its own error. */
  function SubmitDuty(v: View, post: Reply, refresh: ReadReply, iso: int -> string): (v': View)
    requires WellFormed(Duty, v.draft)
    ensures WellFormed(Duty, v'.draft)
    ensures var o := Submit(Duty, v.draft, post, iso);
            && v'.draft == o.draft
            && (o.status.severity == Success ==> v' == Fetch(View(o.draft, v.list, o.status), refresh))
            && (o.status.severity != Success ==> v' == View(v.draft, v.list, o.status))
  {
    DutyFormValid();
    var o := Submit(Duty, v.draft, post, iso);
    var after := View(o.draft, v.list, o.status);
    if o.status.severity == Success then Fetch(after, refresh) else after
  }

  /** A save that fails, for whatever reason, leaves both the draft and the
      list as they were. */
  lemma {:induction false} FailedSaveKeepsScreen(v: View, post: Reply, refresh: ReadReply, iso: int -> string)
    requires WellFormed(Duty, v.draft)
    requires Submit(Duty, v.draft, post, iso).status.severity != Success
    ensures SubmitDuty(v, post, refresh, iso).draft == v.draft
    ensures SubmitDuty(v, post, refresh, iso).list == v.list
    ensures SubmitDuty(v, post, refresh, iso).status.severity == Error
  {
    DutyFormValid();
  }

  /** After a save the server acknowledged, the draft is empty and the list
      is whatever an ok refresh returned; a failed refresh keeps the old list
      and turns the banner into the fetch error. */
  lemma {:induction false} SavedThenRefreshed(v: View, post: Reply, refresh: ReadReply, iso: int -> string)
    requires WellFormed(Duty, v.draft)
    requires Submit(Duty, v.draft, post, iso).status.severity == Success
    ensures SubmitDuty(v, post, refresh, iso).draft == EmptyDraft(Duty)
    ensures refresh.ReadResponse? && StatusOk(refresh.status) ==>
              && SubmitDuty(v, post, refresh, iso).list == refresh.body
              && SubmitDuty(v, post, refresh, iso).status == Status(Duty.savedMessage, Success)
    ensures !(refresh.ReadResponse? && StatusOk(refresh.status)) ==>
              && SubmitDuty(v, post, refresh, iso).list == v.list
              && SubmitDuty(v, post, refresh, iso).status.severity == Error
  {
    DutyFormValid();
  }
}
