/** The booking dialog: a form over one appointment's patient, procedure, custom
    procedure name and notes, reset whenever the dialog opens, and the appointment
    it hands back on save. */
module AppointmentModal {
  import opened Wrappers
  import opened Types

  /** The form's fields: an appointment without its id. */
  datatype AppointmentForm = AppointmentForm(
    patientId: string,
    procedure: string,
    customProcedureName: string,
    notes: string)

  /** `emptyAppointment`. */
  const EmptyForm := AppointmentForm("", "", "", "")

  /** The form filled from a stored appointment. */
  function FormOf(a: Appointment): (f: AppointmentForm)
    ensures Appointment(a.id, f.patientId, f.procedure, f.customProcedureName, f.notes) == a
  {
    AppointmentForm(a.patientId, a.procedure, a.customProcedureName, a.notes)
  }

  /** `isFormValid`, which enables the save button: a patient, a procedure, and a
      name when the procedure is "Custom". */
  predicate IsFormValid(f: AppointmentForm) {
    f.patientId != "" && f.procedure != "" && (f.procedure != CUSTOM || f.customProcedureName != "")
  }

  /** The guard at the top of `handleSave`: a patient, and a procedure or a custom name. */
  predicate SaveAccepted(f: AppointmentForm) {
    f.patientId != "" && (f.procedure != "" || f.customProcedureName != "")
  }

  /** `finalProcedure`: "Custom" when the form says "Custom" and names it, the
      form's procedure otherwise; either way the form's procedure. */
  function FinalProcedure(f: AppointmentForm): (p: string)
    ensures p == f.procedure
  {
    if f.procedure == CUSTOM && f.customProcedureName != "" then CUSTOM else f.procedure
  }

  /** `existingAppointment?.id || crypto.randomUUID()`, the fresh id given. */
  function SavedId(existing: Option<Appointment>, freshId: string): (id: string)
    ensures existing.Some? && existing.value.id != "" ==> id == existing.value.id
    ensures (existing.None? || existing.value.id == "") ==> id == freshId
  {
    if existing.Some? && existing.value.id != "" then existing.value.id else freshId
  }

  /** The appointment `handleSave` passes to `onSave`, or nothing when the guard
      rejects the form. */
  function SavedAppointment(f: AppointmentForm, existing: Option<Appointment>, freshId: string)
    : (r: Option<Appointment>)
    ensures r.Some? <==> SaveAccepted(f)
    ensures r.Some? ==> r.value.id == SavedId(existing, freshId)
    ensures r.Some? ==> (r.value.patientId == f.patientId && r.value.procedure == f.procedure
                         && r.value.customProcedureName == f.customProcedureName && r.value.notes == f.notes)
  {
    if f.patientId == "" || (f.procedure == "" && f.customProcedureName == "") then None
    else Some(Appointment(SavedId(existing, freshId), f.patientId, FinalProcedure(f),
      f.customProcedureName, f.notes))
  }

  /** A form the save button accepts always gets past the guard. */
  lemma ValidFormIsSaved(f: AppointmentForm, existing: Option<Appointment>, freshId: string)
    requires IsFormValid(f)
    ensures SavedAppointment(f, existing, freshId).Some?
    ensures DisplayProcedure(SavedAppointment(f, existing, freshId).value) != ""
  {
  }

  /** The guard alone is weaker than the button: a custom name without a procedure
      passes it although the button stays disabled. */
  lemma GuardWeakerThanButton()
    ensures SaveAccepted(AppointmentForm("p1", "", "Emergency", ""))
    ensures !IsFormValid(AppointmentForm("p1", "", "Emergency", ""))
  {
  }

  /** Opening a stored appointment and saving it untouched gives it back unchanged. */
  lemma ReopenedAppointmentSavesUnchanged(a: Appointment, freshId: string)
    requires a.id != "" && SaveAccepted(FormOf(a))
    ensures SavedAppointment(FormOf(a), Some(a), freshId) == Some(a)
  {
  }

  /** `patients.find(p => p.id === id)`: the first patient with that id. */
  function FindPatient(patients: seq<Patient>, id: string): (r: Option<Patient>)
    ensures r.None? <==> forall i :: 0 <= i < |patients| ==> patients[i].id != id
    ensures r.Some? ==> exists i :: (0 <= i < |patients| && patients[i] == r.value && r.value.id == id
                              && forall j :: 0 <= j < i ==> patients[j].id != id)
  {
    if patients == [] then None
    else if patients[0].id == id then Some(patients[0])
    else
      var r := FindPatient(patients[1..], id);
      FoundAfterFirst(patients, id, r);
      r
  }

  /** A patient found after a non-matching first one is found in the whole list. */
  lemma FoundAfterFirst(patients: seq<Patient>, id: string, r: Option<Patient>)
    requires |patients| > 0 && patients[0].id != id
    requires r.None? <==> forall i :: 0 <= i < |patients[1..]| ==> patients[1..][i].id != id
    requires r.Some? ==> exists i :: (0 <= i < |patients[1..]| && patients[1..][i] == r.value && r.value.id == id
                              && forall j :: 0 <= j < i ==> patients[1..][j].id != id)
    ensures r.None? <==> forall i :: 0 <= i < |patients| ==> patients[i].id != id
    ensures r.Some? ==> exists i :: (0 <= i < |patients| && patients[i] == r.value && r.value.id == id
                              && forall j :: 0 <= j < i ==> patients[j].id != id)
  {
    var tail := patients[1..];
    assert forall i :: 0 <= i < |tail| ==> tail[i] == patients[i + 1];
    if r.Some? {
      var i :| 0 <= i < |tail| && tail[i] == r.value && r.value.id == id
               && forall j :: 0 <= j < i ==> tail[j].id != id;
      assert patients[i + 1] == r.value;
      forall j | 0 <= j < i + 1 ensures patients[j].id != id {
        if j > 0 { assert patients[j] == tail[j - 1]; }
      }
    } else {
      forall i | 0 <= i < |patients| ensures patients[i].id != id {
        if i > 0 { assert patients[i] == tail[i - 1]; }
      }
    }
  }

  /** The dialog's form state. */
  class Modal {
    var formData: AppointmentForm

    constructor()
      ensures formData == EmptyForm
    {
      formData := EmptyForm;
    }

    /** The effect run when `isOpen` or `existingAppointment` changes: an open
        dialog shows the existing appointment, or an empty form. */
    method Reset(isOpen: bool, existing: Option<Appointment>)
      modifies this
      ensures isOpen && existing.Some? ==> formData == FormOf(existing.value)
      ensures isOpen && existing.None? ==> formData == EmptyForm
      ensures !isOpen ==> formData == old(formData)
    {
      if isOpen {
        formData := if existing.Some? then FormOf(existing.value) else EmptyForm;
      }
    }

    method SetPatientId(value: string)
      modifies this
      ensures formData == old(formData).(patientId := value)
    {
      formData := formData.(patientId := value);
    }

    method SetProcedure(value: string)
      modifies this
      ensures formData == old(formData).(procedure := value)
    {
      formData := formData.(procedure := value);
    }

    method SetCustomProcedureName(value: string)
      modifies this
      ensures formData == old(formData).(customProcedureName := value)
    {
      formData := formData.(customProcedureName := value);
    }

    method SetNotes(value: string)
      modifies this
      ensures formData == old(formData).(notes := value)
    {
      formData := formData.(notes := value);
    }

    /** `handleSave`: the appointment handed to `onSave`, if any. */
    method HandleSave(existing: Option<Appointment>, freshId: string) returns (saved: Option<Appointment>)
      ensures saved == SavedAppointment(formData, existing, freshId)
    {
      if formData.patientId == "" || (formData.procedure == "" && formData.customProcedureName == "") {
        return None;
      }
      var finalProcedure := if formData.procedure == CUSTOM && formData.customProcedureName != ""
        then CUSTOM else formData.procedure;
      var id := if existing.Some? && existing.value.id != "" then existing.value.id else freshId;
      saved := Some(Appointment(id, formData.patientId, finalProcedure, formData.customProcedureName, formData.notes));
    }

    /** `handleDelete`: asks for deletion only when editing a stored appointment. */
    method HandleDelete(existing: Option<Appointment>) returns (deleteRequested: bool)
      ensures deleteRequested <==> existing.Some?
    {
      deleteRequested := false;
      if existing.Some? {
        deleteRequested := true;
      }
    }

    /** `handleEditPatientClick`: the profile of the first listed patient with the
        form's id is opened when there is one and the page offers editing. */
    method HandleEditPatientClick(patients: seq<Patient>, canEditPatient: bool) returns (profile: Option<Patient>)
      ensures profile == (if canEditPatient then FindPatient(patients, formData.patientId) else None)
      ensures profile.Some? ==> canEditPatient && profile.value in patients && profile.value.id == formData.patientId
      ensures profile.None? ==> !canEditPatient || forall p :: p in patients ==> p.id != formData.patientId
    {
      var patient := FindPatient(patients, formData.patientId);
      profile := None;
      if patient.Some? && canEditPatient {
        profile := patient;
      }
    }
  }
}
