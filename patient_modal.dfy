/** The patient dialog: a form over a patient's details, reset whenever the dialog
    opens, changed one named field at a time, and the patient it hands back on save. */
module PatientModal {
  import opened Wrappers
  import opened Text
  import opened Types

  /** The form's fields: a patient without its id. */
  datatype PatientForm = PatientForm(
    name: string,
    phone: string,
    email: string,
    dateOfBirth: string,
    address: string,
    medicalHistory: string)

  /** `emptyPatient`. */
  const EmptyForm := PatientForm("", "", "", "", "", "")

  /** The `name` attribute of the input that fired `handleChange`. */
  datatype PatientField = Name | Phone | Email | DateOfBirth | Address | MedicalHistory

  function FormOf(p: Patient): (f: PatientForm)
    ensures Patient(p.id, f.name, f.phone, f.email, f.dateOfBirth, f.address, f.medicalHistory) == p
  {
    PatientForm(p.name, p.phone, p.email, p.dateOfBirth, p.address, p.medicalHistory)
  }

  function FieldValue(f: PatientForm, field: PatientField): string {
    match field
    case Name => f.name
    case Phone => f.phone
    case Email => f.email
    case DateOfBirth => f.dateOfBirth
    case Address => f.address
    case MedicalHistory => f.medicalHistory
  }

  /** `{ ...prev, [name]: value }`: the named field takes the value, the others keep theirs. */
  function SetField(f: PatientForm, field: PatientField, value: string): (r: PatientForm)
    ensures FieldValue(r, field) == value
    ensures forall other :: other != field ==> FieldValue(r, other) == FieldValue(f, other)
  {
    match field
    case Name => f.(name := value)
    case Phone => f.(phone := value)
    case Email => f.(email := value)
    case DateOfBirth => f.(dateOfBirth := value)
    case Address => f.(address := value)
    case MedicalHistory => f.(medicalHistory := value)
  }

  /** A form is determined by its six field values. */
  lemma FormsAgreeOnFields(f: PatientForm, g: PatientForm)
    requires forall field :: FieldValue(f, field) == FieldValue(g, field)
    ensures f == g
  {
    assert FieldValue(f, Name) == FieldValue(g, Name);
    assert FieldValue(f, Phone) == FieldValue(g, Phone);
    assert FieldValue(f, Email) == FieldValue(g, Email);
    assert FieldValue(f, DateOfBirth) == FieldValue(g, DateOfBirth);
    assert FieldValue(f, Address) == FieldValue(g, Address);
    assert FieldValue(f, MedicalHistory) == FieldValue(g, MedicalHistory);
  }

  /** Typing a field's current value back into it changes nothing, and a second
      change of the same field overrides the first. */
  lemma SetFieldLaws(f: PatientForm, field: PatientField, v: string, w: string)
    ensures SetField(f, field, FieldValue(f, field)) == f
    ensures SetField(SetField(f, field, v), field, w) == SetField(f, field, w)
  {
    FormsAgreeOnFields(SetField(f, field, FieldValue(f, field)), f);
    FormsAgreeOnFields(SetField(SetField(f, field, v), field, w), SetField(f, field, w));
  }

  /** The save button is disabled while the name trims to nothing. */
  predicate SaveDisabled(f: PatientForm) {
    Trim(f.name) == ""
  }

  /** `patientToEdit?.id || crypto.randomUUID()`, the fresh id given. */
  function SavedId(toEdit: Option<Patient>, freshId: string): (id: string)
    ensures toEdit.Some? && toEdit.value.id != "" ==> id == toEdit.value.id
    ensures (toEdit.None? || toEdit.value.id == "") ==> id == freshId
  {
    if toEdit.Some? && toEdit.value.id != "" then toEdit.value.id else freshId
  }

  /** The patient `handleSave` passes to `onSave`: nothing for a blank name, otherwise
      the form's fields as typed (the name is not trimmed) under the kept or fresh id. */
  function SavedPatient(f: PatientForm, toEdit: Option<Patient>, freshId: string): (r: Option<Patient>)
    ensures r.None? <==> IsBlank(f.name)
    ensures r.Some? ==> r.value.id == SavedId(toEdit, freshId) && FormOf(r.value) == f
  {
    TrimEmptyIffBlank(f.name);
    if Trim(f.name) == "" then None
    else Some(Patient(SavedId(toEdit, freshId), f.name, f.phone, f.email, f.dateOfBirth, f.address,
      f.medicalHistory))
  }

  /** The button is enabled exactly when a click saves a patient. */
  lemma SaveEnabledIffSaved(f: PatientForm, toEdit: Option<Patient>, freshId: string)
    ensures !SaveDisabled(f) <==> SavedPatient(f, toEdit, freshId).Some?
  {
    TrimEmptyIffBlank(f.name);
  }

  /** A name made only of non-ASCII white space (a no-break space and an ideographic
      space) is blank to `trim`: the button stays disabled and nothing is saved. */
  lemma UnicodeBlankNameNotSaved(toEdit: Option<Patient>, freshId: string)
    ensures var f := EmptyForm.(name := "\U{00A0}\U{3000}");
      SaveDisabled(f) && SavedPatient(f, toEdit, freshId).None?
  {
    var f := EmptyForm.(name := "\U{00A0}\U{3000}");
    TrimEmptyIffBlank(f.name);
    assert IsBlank(f.name);
  }

  /** Reopening a saved patient and saving it untouched gives it back unchanged. */
  lemma ReopenedPatientSavesUnchanged(p: Patient, freshId: string)
    requires p.id != "" && !IsBlank(p.name)
    ensures SavedPatient(FormOf(p), Some(p), freshId) == Some(p)
  {
  }

  /** The dialog's form state. */
  class Modal {
    var formData: PatientForm

    constructor()
      ensures formData == EmptyForm
    {
      formData := EmptyForm;
    }

    /** The effect run when `isOpen` or `patientToEdit` changes. */
    method Reset(isOpen: bool, toEdit: Option<Patient>)
      modifies this
      ensures isOpen && toEdit.Some? ==> formData == FormOf(toEdit.value)
      ensures isOpen && toEdit.None? ==> formData == EmptyForm
      ensures !isOpen ==> formData == old(formData)
    {
      if isOpen {
        formData := if toEdit.Some? then FormOf(toEdit.value) else EmptyForm;
      }
    }

    /** `handleChange`: only the named field takes the typed value. */
    method HandleChange(field: PatientField, value: string)
      modifies this
      ensures formData == SetField(old(formData), field, value)
    {
      formData := SetField(formData, field, value);
    }

    /** `handleSave`: the patient handed to `onSave` and whether the dialog asks to
        close; both happen together. */
    method HandleSave(toEdit: Option<Patient>, freshId: string) returns (saved: Option<Patient>, closeRequested: bool)
      ensures saved == SavedPatient(formData, toEdit, freshId)
      ensures closeRequested <==> saved.Some?
    {
      if Trim(formData.name) == "" {
        return None, false;
      }
      var id := if toEdit.Some? && toEdit.value.id != "" then toEdit.value.id else freshId;
      saved := Some(Patient(id, formData.name, formData.phone, formData.email, formData.dateOfBirth,
        formData.address, formData.medicalHistory));
      closeRequested := true;
    }
  }
}
