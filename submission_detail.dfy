/** The submission page: who may see it, the plagiarism alert, the grading
    form with its range check, and the local updates after grading and after
    an automatic evaluation. */
module SubmissionDetail {
  import opened Base

  const Teacher: string := "enseignant"
  const Student: string := "etudiant"

  const MaxGrade: real := 20.0
  const GradeRangeError: string := "La note doit être un nombre entre 0 et 20."
  const SaveError: string := "Erreur lors de l'enregistrement de la note."
  const LoadError: string := "Impossible de charger les détails de la soumission."
  const Saved: string := "La note a été enregistrée avec succès !"
  const AiApplied: string := "Note proposée par l'IA appliquée. Vous pouvez l'ajuster si nécessaire."

  /** The page may be shown: the exam's teacher, or the submission's
      student. */
  predicate HasAccess(role: string, userId: nat, examTeacherId: nat, submissionStudentId: nat)
  {
    (role == Teacher && userId == examTeacherId) || (role == Student && userId == submissionStudentId)
  }

  /** A teacher sees exactly the submissions to their exams, a student
      exactly their own, and no other role any. */
  lemma {:induction false} AccessCases(role: string, userId: nat, examTeacherId: nat, submissionStudentId: nat)
    ensures role == Teacher ==> (HasAccess(role, userId, examTeacherId, submissionStudentId) <==> userId == examTeacherId)
    ensures role == Student ==> (HasAccess(role, userId, examTeacherId, submissionStudentId) <==> userId == submissionStudentId)
    ensures role != Teacher && role != Student ==> !HasAccess(role, userId, examTeacherId, submissionStudentId)
  {
    assert Teacher[1] != Student[1];
  }

  /** The plagiarism banner: its variant and heading. */
  datatype Alert = Alert(variant: string, heading: string)

  const Detected: Alert := Alert("danger", "\U{26A0}\U{FE0F} Plagiat détecté")
  const Suspected: Alert := Alert("warning", "\U{26A0}\U{FE0F} Suspicion de plagiat")

  /** The banner for a flag: none unless the flag is positive, a detection
      from 1 up, a suspicion below. */
  function PlagiarismAlert(flag: real): (a: Option<Alert>)
    ensures a.Some? <==> flag > 0.0
    ensures a == Some(Detected) <==> flag >= 1.0
    ensures a == Some(Suspected) <==> 0.0 < flag < 1.0
  {
    if flag > 0.0 then Some(if flag >= 1.0 then Detected else Suspected) else None
  }

  /** A grade `parseFloat` produced (`None` for `NaN`) is accepted exactly in
      the closed range from 0 to 20. */
  predicate GradeAccepted(note: Option<real>)
  {
    note.Some? && 0.0 <= note.value <= MaxGrade
  }

  /** The fields of the submission the page uses; grades are kept as the
      text they arrived in. */
  datatype SubmissionData = SubmissionData(etudiantId: nat, examenId: nat, note: Option<string>,
                                           commentaire: Option<string>, plagiatFlag: real)

  datatype GradeForm = GradeForm(note: string, commentaire: string)

  /** The grading form as the page fills it from a loaded submission: only
      a submission that has a grade replaces the form. */
  function Prefilled(form: GradeForm, s: SubmissionData): (r: GradeForm)
    ensures s.note.None? ==> r == form
    ensures s.note.Some? ==> r.note == s.note.value
    ensures s.note.Some? ==> r.commentaire == if s.commentaire.Some? && s.commentaire.value != "" then s.commentaire.value else ""
  {
    if s.note.Some? then
      GradeForm(s.note.value, if s.commentaire.Some? && s.commentaire.value != "" then s.commentaire.value else "")
    else form
  }

  /** The grading form after an automatic evaluation: its grade replaces
      the form's, its comment only when non-empty. */
  function WithEvaluation(form: GradeForm, note: string, commentaire: Option<string>): (r: GradeForm)
    ensures r.note == note
    ensures commentaire.Some? && commentaire.value != "" ==> r.commentaire == commentaire.value
    ensures commentaire.None? || commentaire.value == "" ==> r.commentaire == form.commentaire
  {
    GradeForm(note, if commentaire.Some? && commentaire.value != "" then commentaire.value else form.commentaire)
  }

  /** The local submission after a grade is saved: only the grade and the
      comment change, to the form's. */
  function Graded(s: SubmissionData, form: GradeForm): (r: SubmissionData)
    ensures r.(note := s.note, commentaire := s.commentaire) == s
    ensures r.note == Some(form.note) && r.commentaire == Some(form.commentaire)
  {
    s.(note := Some(form.note), commentaire := Some(form.commentaire))
  }

  /** The page component's state. */
  class SubmissionDetailView {
    var submission: Option<SubmissionData>
    var examTeacherId: Option<nat>
    var loading: bool
    var error: Option<string>
    var gradeData: GradeForm
    var submitting: bool
    var successMessage: Option<string>

    constructor()
      ensures submission == None && examTeacherId == None && loading && error == None
      ensures gradeData == GradeForm("", "") && !submitting && successMessage == None
    {
      submission := None;
      examTeacherId := None;
      loading := true;
      error := None;
      gradeData := GradeForm("", "");
      submitting := false;
      successMessage := None;
    }

    /** `fetchData`: the submission, then its exam (by its teacher); a failed
        request ends loading with an error, and the form is filled only once
        both have arrived. */
    method FetchData(sub: Option<SubmissionData>, examTeacher: Option<nat>)
      modifies this
      ensures !loading
      ensures sub.None? ==> submission == old(submission) && examTeacherId == old(examTeacherId) &&
                            gradeData == old(gradeData) && error == Some(LoadError)
      ensures sub.Some? ==> submission == sub
      ensures sub.Some? && examTeacher.None? ==>
                examTeacherId == old(examTeacherId) && gradeData == old(gradeData) && error == Some(LoadError)
      ensures sub.Some? && examTeacher.Some? ==>
                examTeacherId == examTeacher && gradeData == Prefilled(old(gradeData), sub.value) && error == old(error)
      ensures submitting == old(submitting) && successMessage == old(successMessage)
    {
      if sub.None? {
        error := Some(LoadError);
        loading := false;
        return;
      }
      submission := sub;
      if examTeacher.None? {
        error := Some(LoadError);
        loading := false;
        return;
      }
      examTeacherId := examTeacher;
      gradeData := Prefilled(gradeData, sub.value);
      loading := false;
    }

    /** `handleSubmitGrade`: `parse` stands for `parseFloat`. A grade outside
        0..20 sets the error and sends nothing; otherwise the form is sent,
        and on success only the grade and comment of the shown submission
        change. The grading form is only on screen once the submission is
        loaded. */
    method HandleSubmitGrade(parse: string -> Option<real>, serverOk: bool) returns (sent: Option<GradeForm>)
      requires submission.Some?
      modifies this
      ensures !GradeAccepted(parse(old(gradeData).note)) ==>
                sent == None && error == Some(GradeRangeError) && submission == old(submission) &&
                successMessage == old(successMessage) && submitting == old(submitting)
      ensures GradeAccepted(parse(old(gradeData).note)) ==>
                sent == Some(old(gradeData)) && !submitting &&
                (serverOk ==> submission == Some(Graded(old(submission).value, old(gradeData))) &&
                              error == None && successMessage == Some(Saved)) &&
                (!serverOk ==> submission == old(submission) && error == Some(SaveError) && successMessage == None)
      ensures gradeData == old(gradeData) && examTeacherId == old(examTeacherId) && loading == old(loading)
    {
      var note := parse(gradeData.note);
      if !GradeAccepted(note) {
        error := Some(GradeRangeError);
        return None;
      }
      submitting := true;
      error := None;
      successMessage := None;
      sent := Some(gradeData);
      if serverOk {
        submission := Some(Graded(submission.value, gradeData));
        successMessage := Some(Saved);
      } else {
        error := Some(SaveError);
      }
      submitting := false;
    }

    /** The automatic evaluation's callback: the proposed grade and comment
        go into the form, which is not sent. */
    method ApplyEvaluation(note: string, commentaire: Option<string>)
      modifies this
      ensures gradeData == WithEvaluation(old(gradeData), note, commentaire)
      ensures successMessage == Some(AiApplied)
      ensures submission == old(submission) && examTeacherId == old(examTeacherId)
      ensures error == old(error) && loading == old(loading) && submitting == old(submitting)
    {
      gradeData := WithEvaluation(gradeData, note, commentaire);
      successMessage := Some(AiApplied);
    }
  }
}
