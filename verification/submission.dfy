/**
  The submit handler shared by the three data-entry screens: check the
  required fields, build the JSON body (dates as ISO text), send it, and
  interpret the reply: reset the draft on success, otherwise leave it and show
  the most specific error available.

  A screen is described by a `Form`: its text fields, its date fields, its
  required fields in the order the handler lists them, the selector it sends
  and its success banner. The draft is the screen's form state.
 */
module Submission {
  import opened Js
  import opened Seqs
  import opened Client

  /** A draft field: text from a text input, or the value of a date picker:
      null, or a `Date` whose time value may be NaN (an invalid date). */
  datatype Value = Text(text: string) | Date(time: Option<int>) | Null

  /** JavaScript truthiness of a field: every `Date` object is truthy, even an
      invalid one. */
  predicate IsTruthy(v: Value) {
    match v
    case Text(s) => Truthy(s)
    case Date(_) => true
    case Null => false
  }

  type Draft = map<string, Value>

  datatype Form = Form(
    textFields: seq<string>,
    dateFields: seq<string>,
    required: seq<string>,
    selector: string,
    savedMessage: string)

  /** Text and date fields are disjoint and every required field is one of them. */
  ghost predicate ValidForm(form: Form) {
    && (forall f :: f in form.textFields ==> f !in form.dateFields)
    && (forall f :: f in form.required ==> f in form.textFields || f in form.dateFields)
  }

  /** A draft as the screen's inputs keep it: exactly the form's fields, text
      inputs holding text and date pickers holding a date or null. */
  ghost predicate WellFormed(form: Form, d: Draft) {
    && (forall f :: f in d <==> f in form.textFields || f in form.dateFields)
    && (forall f :: f in form.textFields ==> f in d && d[f].Text?)
    && (forall f :: f in form.dateFields ==> f in d && !d[f].Text?)
  }

  /** The initial and reset state: every text field '' and every date null. */
  function EmptyDraft(form: Form): (d: Draft)
    requires ValidForm(form)
    ensures WellFormed(form, d)
    ensures forall f :: f in d ==> !IsTruthy(d[f])
  {
    map f | f in form.textFields + form.dateFields :: if f in form.dateFields then Null else Text("")
  }

  /** `handleChange` / `handleDateChange`: one field takes a new value. */
  function Edit(d: Draft, name: string, v: Value): (d': Draft)
    ensures name in d' && d'[name] == v
    ensures forall f :: f != name ==> (f in d' <==> f in d) && (f in d ==> d'[f] == d[f])
  {
    d[name := v]
  }

  /** Text inputs only ever write text into text fields, and date pickers
      dates or null into date fields, so a draft stays well formed. */
  lemma EditKeepsWellFormed(form: Form, d: Draft, name: string, v: Value)
    requires ValidForm(form) && WellFormed(form, d)
    requires (name in form.textFields && v.Text?) || (name in form.dateFields && !v.Text?)
    ensures WellFormed(form, Edit(d, name, v))
  {
  }

  /** `formData[field]` is truthy (a field the draft lacks reads as `undefined`). */
  predicate Filled(d: Draft, field: string) {
    field in d && IsTruthy(d[field])
  }

  /** `requiredFields.filter(field => !formData[field])`: exactly the required
      fields that are not filled, in the order they are listed. */
  function MissingFields(required: seq<string>, d: Draft): (missing: seq<string>)
    ensures forall i :: 0 <= i < |missing| ==> missing[i] in required && !Filled(d, missing[i])
    ensures forall i :: 0 <= i < |required| && !Filled(d, required[i]) ==> required[i] in missing
    ensures Subsequence(missing, required)
  {
    FilterKeepsOrder(required, f => !Filled(d, f));
    Filter(required, f => !Filled(d, f))
  }

  /** A field is missing exactly when it is required and not filled. */
  lemma MissingExactly(required: seq<string>, d: Draft)
    ensures forall f :: f in MissingFields(required, d) <==> f in required && !Filled(d, f)
  {
    var m := MissingFields(required, d);
    forall f | f in required && !Filled(d, f)
      ensures f in m
    {
      var i :| 0 <= i < |required| && required[i] == f;
    }
  }

  /** A field that is not required is never reported missing, however it is
      filled. */
  lemma NotRequiredNeverMissing(required: seq<string>, d: Draft, f: string)
    requires f !in required
    ensures f !in MissingFields(required, d)
  {
    MissingExactly(required, d);
  }

  /** When no required field is filled, all of them are missing, in order. */
  lemma {:induction false} AllBlankAllMissing(required: seq<string>, d: Draft)
    requires forall f :: f in required ==> !Filled(d, f)
    ensures MissingFields(required, d) == required
    decreases |required|
  {
    if |required| > 0 {
      assert required[0] in required;
      assert forall f :: f in required[1..] ==> f in required;
      AllBlankAllMissing(required[1..], d);
    }
  }

  const RequiredPrefix := "Please fill in all required fields: "
  const InvalidTimeValue := "Invalid time value"
  const FailedToSave := "Failed to save data"

  /** A field's JSON text in the request body. */
  function Serialize(v: Value, iso: int -> string): string
    requires v.Text? || (v.Date? && v.time.Some?)
  {
    match v
    case Text(s) => s
    case Date(t) => iso(t.value)
  }

  /** Some date field holds an invalid date: `toISOString` throws on it. */
  predicate HasInvalidDate(form: Form, d: Draft) {
    exists f :: f in form.dateFields && f in d && d[f] == Date(None)
  }

  /** The request body: the draft with every date converted by `iso`, and a
      null date left out (`undefined` disappears in `JSON.stringify`). An
      invalid date makes the conversion throw. */
  function Payload(form: Form, d: Draft, iso: int -> string): (r: Result<Record>)
    requires WellFormed(form, d)
    ensures r.Err? <==> HasInvalidDate(form, d)
    ensures r.Err? ==> r.error == InvalidTimeValue
    ensures r.Ok? ==> forall f :: f in form.textFields ==> f in r.value && r.value[f] == d[f].text
    ensures r.Ok? ==> forall f :: f in form.dateFields ==>
              && (f in r.value <==> d[f].Date?)
              && (d[f].Date? ==> r.value[f] == iso(d[f].time.value))
    ensures r.Ok? ==> forall f :: f in r.value ==> f in form.textFields || f in form.dateFields
  {
    if HasInvalidDate(form, d) then Err(InvalidTimeValue)
    else Ok(map f | f in d && d[f] != Null :: Serialize(d[f], iso))
  }

  /** Everything the handler does before `fetch`: the required-field check,
      then the body. An error here means no request is sent. */
  function Prepare(form: Form, d: Draft, iso: int -> string): (r: Result<Record>)
    requires WellFormed(form, d)
    ensures |MissingFields(form.required, d)| > 0 ==> r == Err(RequiredPrefix + Join(MissingFields(form.required, d), ", "))
    ensures |MissingFields(form.required, d)| == 0 ==> r == Payload(form, d, iso)
  {
    var missing := MissingFields(form.required, d);
    if |missing| > 0 then Err(RequiredPrefix + Join(missing, ", ")) else Payload(form, d, iso)
  }

  /** Why a sent write failed, or `None` when the server reported success. A
      rejected fetch gives the browser's message; a non-ok status gives the
      body's `error`, else the status; an ok reply without `success` gives the
      body's `error`, else a generic message. */
  function WriteFailure(reply: Reply): (r: Option<string>)
    ensures r.None? <==> reply.Response? && StatusOk(reply.status) && reply.body.success
    ensures reply.Unreachable? ==> r == Some(reply.reason)
    ensures reply.Response? && !StatusOk(reply.status) ==>
              r == Some(if Truthy(reply.body.error) then reply.body.error else ServerResponded(reply.status))
    ensures reply.Response? && StatusOk(reply.status) && !reply.body.success ==>
              r == Some(if Truthy(reply.body.error) then reply.body.error else FailedToSave)
  {
    match reply
    case Unreachable(reason) => Some(reason)
    case Response(status, body) =>
      if !StatusOk(status) then Some(OrElse(body.error, ServerResponded(status)))
      else if body.success then None
      else Some(OrElse(body.error, FailedToSave))
  }

  /** The result of one submit: the draft afterwards, the banner, and the body
      of the request sent (`None` when none was). */
  datatype Outcome = Outcome(draft: Draft, status: Status, sent: Option<Record>)

  /** `handleSubmit` as a transition. A missing required field or an invalid
      date stops it before any request, with the draft kept. Once the request
      is sent, a reply reporting success resets the draft to its empty state
      and shows the screen's success banner; every other reply keeps the draft
      and shows the failure reason. */
  function Submit(form: Form, d: Draft, reply: Reply, iso: int -> string): (o: Outcome)
    requires ValidForm(form) && WellFormed(form, d)
    ensures WellFormed(form, o.draft)
    ensures |MissingFields(form.required, d)| > 0 ==>
              o == Outcome(d, ErrorStatus(RequiredPrefix + Join(MissingFields(form.required, d), ", ")), None)
    ensures o.sent.Some? <==> |MissingFields(form.required, d)| == 0 && !HasInvalidDate(form, d)
    ensures o.sent.Some? ==> Payload(form, d, iso) == Ok(o.sent.value)
    ensures |MissingFields(form.required, d)| == 0 && HasInvalidDate(form, d) ==>
              o == Outcome(d, ErrorStatus(InvalidTimeValue), None)
    ensures o.status.severity == Success <==> o.sent.Some? && WriteFailure(reply).None?
    ensures o.status.severity == Success ==> o.draft == EmptyDraft(form) && o.status.message == form.savedMessage
    ensures o.status.severity != Success ==> o.draft == d && o.status.severity == Error
    ensures o.sent.Some? && WriteFailure(reply).Some? ==> o.status == ErrorStatus(WriteFailure(reply).value)
  {
    match Prepare(form, d, iso)
    case Err(reason) => Outcome(d, ErrorStatus(reason), None)
    case Ok(body) =>
      match WriteFailure(reply)
      case None => Outcome(EmptyDraft(form), Status(form.savedMessage, Success), Some(body))
      case Some(reason) => Outcome(d, ErrorStatus(reason), Some(body))
  }

  /** Submitting again after a success starts from the empty draft, which has
      every required field missing: a second click cannot send a second copy
      of the record. */
  lemma {:induction false} ResetBlocksResubmit(form: Form, d: Draft, reply: Reply, reply2: Reply, iso: int -> string)
    requires ValidForm(form) && WellFormed(form, d) && |form.required| > 0
    requires Submit(form, d, reply, iso).status.severity == Success
    ensures Submit(form, Submit(form, d, reply, iso).draft, reply2, iso).sent.None?
  {
    var e := EmptyDraft(form);
    assert !Filled(e, form.required[0]);
    assert form.required[0] in MissingFields(form.required, e);
  }
}
