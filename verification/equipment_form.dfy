/** The equipment breakdown log screen. */
module EquipmentForm {
  import opened Js
  import opened Seqs
  import opened Client
  import opened Submission

  const EquipmentRequired: seq<string> := ["EquipmentName", "Ward", "BreakdownDate", "ProblemDescription", "Status"]

  const Equipment := Form(
    ["EquipmentName", "Ward", "ProblemDescription", "ActionTaken", "Status"],
    ["BreakdownDate", "RepairDate"],
    EquipmentRequired,
    "equipment",
    "Equipment log saved successfully!")

  lemma EquipmentFormValid()
    ensures ValidForm(Equipment)
  {
  }

  /** Neither the repair date nor the action taken is a required field. */
  lemma EquipmentOptionalNotRequired(m: seq<string>)
    requires forall i :: 0 <= i < |m| ==> m[i] in EquipmentRequired
    ensures "RepairDate" !in m && "ActionTaken" !in m
  {
  }

  /** The repair date and the action taken are never reported missing: a
      breakdown can be logged before it is repaired. */
  lemma EquipmentOptionalFields(d: Draft)
    ensures var m := MissingFields(Equipment.required, d);
            "RepairDate" !in m && "ActionTaken" !in m
  {
    EquipmentOptionalNotRequired(MissingFields(EquipmentRequired, d));
  }

  /** The list of required fields as the refusal banner spells it out. */
  lemma EquipmentRequiredList()
    ensures Join(Equipment.required, ", ") ==
            "EquipmentName" + ", " + "Ward" + ", " + "BreakdownDate" + ", " + "ProblemDescription" + ", " + "Status"
  {
    var req := EquipmentRequired;
    assert req[1..] == ["Ward", "BreakdownDate", "ProblemDescription", "Status"];
    assert req[2..] == ["BreakdownDate", "ProblemDescription", "Status"];
    assert req[3..] == ["ProblemDescription", "Status"];
    assert req[4..] == ["Status"];
  }

  /** A blank log entry is refused before any request, naming every required
      field in the order the screen lists them. */
  lemma BlankEquipmentRefused(reply: Reply, iso: int -> string)
    ensures var blank := EmptyDraft(Equipment);
            Submit(Equipment, blank, reply, iso) ==
              Outcome(blank, ErrorStatus(RequiredPrefix + Join(Equipment.required, ", ")), None)
    ensures Join(Equipment.required, ", ") ==
            "EquipmentName" + ", " + "Ward" + ", " + "BreakdownDate" + ", " + "ProblemDescription" + ", " + "Status"
  {
    var blank := EmptyDraft(Equipment);
    AllBlankAllMissing(Equipment.required, blank);
    EquipmentRequiredList();
  }

  /** A breakdown logged without a repair date sends no `RepairDate` at all,
      and the breakdown date as its ISO text. */
  lemma UnrepairedPayload(d: Draft, iso: int -> string)
    requires WellFormed(Equipment, d)
    requires d["BreakdownDate"].Date? && d["BreakdownDate"].time.Some? && d["RepairDate"] == Null
    ensures Payload(Equipment, d, iso).Ok?
    ensures var body := Payload(Equipment, d, iso).value;
            && "RepairDate" !in body
            && "BreakdownDate" in body && body["BreakdownDate"] == iso(d["BreakdownDate"].time.value)
  {
    assert "BreakdownDate" in Equipment.dateFields;
    assert "RepairDate" in Equipment.dateFields;
    assert !HasInvalidDate(Equipment, d);
  }
}
