/** The patient case sheet screen. */
module PatientForm {
  import opened Js
  import opened Seqs
  import opened Client
  import opened Submission

  const PatientRequired: seq<string> := ["PatientName", "Age", "Gender", "Diagnosis", "DateOfAdmission", "Ward"]

  const Patient := Form(
    ["PatientName", "Age", "Gender", "Diagnosis", "MedicalDescription", "Complications",
     "ReasonForExtension", "Ward"],
    ["DateOfAdmission", "PredictedDischarge", "ActualDischarge"],
    PatientRequired,
    "patients",
    "Patient record saved successfully!")

  lemma PatientFormValid()
    ensures ValidForm(Patient)
  {
  }

  /** No optional field of the case sheet is a required one. */
  lemma PatientOptionalNotRequired(m: seq<string>)
    requires forall i :: 0 <= i < |m| ==> m[i] in PatientRequired
    ensures && "MedicalDescription" !in m && "Complications" !in m && "PredictedDischarge" !in m
            && "ActualDischarge" !in m && "ReasonForExtension" !in m
  {
  }

  /** The description, complications, discharge dates and extension reason
      are never reported missing, whatever the draft holds. */
  lemma PatientOptionalFields(d: Draft)
    ensures var m := MissingFields(Patient.required, d);
            && "MedicalDescription" !in m && "Complications" !in m && "PredictedDischarge" !in m
            && "ActualDischarge" !in m && "ReasonForExtension" !in m
  {
    PatientOptionalNotRequired(MissingFields(PatientRequired, d));
  }

  /** The list of required fields as the refusal banner spells it out. */
  lemma PatientRequiredList()
    ensures Join(Patient.required, ", ") ==
            "PatientName" + ", " + "Age" + ", " + "Gender" + ", " + "Diagnosis" + ", " + "DateOfAdmission" + ", " + "Ward"
  {
    var req := Patient.required;
    assert req[1..] == ["Age", "Gender", "Diagnosis", "DateOfAdmission", "Ward"];
    assert req[2..] == ["Gender", "Diagnosis", "DateOfAdmission", "Ward"];
    assert req[3..] == ["Diagnosis", "DateOfAdmission", "Ward"];
    assert req[4..] == ["DateOfAdmission", "Ward"];
    assert req[5..] == ["Ward"];
  }

  /** A blank case sheet is refused before any request, naming every required
      field in the order the screen lists them. */
  lemma BlankPatientRefused(reply: Reply, iso: int -> string)
    ensures var blank := EmptyDraft(Patient);
            Submit(Patient, blank, reply, iso) ==
              Outcome(blank, ErrorStatus(RequiredPrefix + Join(Patient.required, ", ")), None)
    ensures Join(Patient.required, ", ") ==
            "PatientName" + ", " + "Age" + ", " + "Gender" + ", " + "Diagnosis" + ", " + "DateOfAdmission" + ", " + "Ward"
  {
    var blank := EmptyDraft(Patient);
    AllBlankAllMissing(Patient.required, blank);
    PatientRequiredList();
  }
}
