/** The exam form, in create mode (no route id) or edit mode (the id of the
    exam): loading the exam to edit with its owner check, field and file
    edits, the ordered validation and the submission. */
module ExamForm {
  import opened Base

  const Draft: string := "brouillon"

  const TitleRequired: string := "Le titre est obligatoire"
  const DeadlineRequired: string := "La date limite est obligatoire"
  const FileRequired: string := "Veuillez uploader un fichier pour l'examen"
  const NotAuthorised: string := "Vous n'êtes pas autorisé à modifier cet examen"
  const LoadFailed: string := "Impossible de charger les détails de l'examen"
  const SaveFailed: string := "Erreur lors de l'enregistrement de l'examen"

  /** The form; a chosen file is represented by its name. */
  datatype FormData = FormData(titre: string, description: string, dateLimite: string, statut: string,
                               fichier: Option<string>)

  /** The empty form; the status starts as draft. */
  const InitialForm: FormData := FormData("", "", "", Draft, None)

  /** The text inputs of the form, by their `name` attribute. */
  datatype Field = Titre | Description | DateLimite | Statut

  function FieldValue(f: FormData, name: Field): string
  {
    match name
    case Titre => f.titre
    case Description => f.description
    case DateLimite => f.dateLimite
    case Statut => f.statut
  }

  /** `{...formData, [name]: value}`: the named input takes the value; the
      other inputs and the file are unchanged. */
  function WithField(f: FormData, name: Field, value: string): (r: FormData)
    ensures forall m :: FieldValue(r, m) == if m == name then value else FieldValue(f, m)
    ensures r.fichier == f.fichier
  {
    match name
    case Titre => f.(titre := value)
    case Description => f.(description := value)
    case DateLimite => f.(dateLimite := value)
    case Statut => f.(statut := value)
  }

  /** An exam as the edit page receives it; `dateText` is the deadline
      already written as `YYYY-MM-DD`. */
  datatype ExamData = ExamData(titre: string, description: Option<string>, dateText: string, statut: string,
                               fichierUrl: Option<string>, enseignantId: nat)

  /** The form filled from a fetched exam; the file must be chosen again. */
  function FilledForm(d: ExamData): (r: FormData)
    ensures r.fichier.None? && r.titre == d.titre && r.statut == d.statut && r.dateLimite == d.dateText
    ensures r.description == if d.description.Some? then d.description.value else ""
  {
    FormData(d.titre, if d.description.Some? then d.description.value else "", d.dateText, d.statut, None)
  }

  /** The message of the first check that fails: a title blank after
      trimming, an empty deadline, then (in create mode only) no file. */
  function FormError(editMode: bool, f: FormData): Option<string>
  {
    if Trim(f.titre) == "" then Some(TitleRequired)
    else if f.dateLimite == "" then Some(DeadlineRequired)
    else if !editMode && f.fichier.None? then Some(FileRequired)
    else None
  }

  /** Each message is reported exactly when its check is the first to fail,
      and a form is accepted exactly when all three checks pass; a file is
      never required to edit an exam. */
  lemma {:induction false} FormErrorCases(editMode: bool, f: FormData)
    ensures FormError(editMode, f) == Some(TitleRequired) <==> IsBlank(f.titre)
    ensures FormError(editMode, f) == Some(DeadlineRequired) <==> !IsBlank(f.titre) && f.dateLimite == ""
    ensures FormError(editMode, f) == Some(FileRequired) <==>
              !IsBlank(f.titre) && f.dateLimite != "" && !editMode && f.fichier.None?
    ensures FormError(editMode, f).None? <==>
              !IsBlank(f.titre) && f.dateLimite != "" && (editMode || f.fichier.Some?)
    ensures FormError(true, f).None? <==> FormError(false, f.(fichier := Some("f"))).None?
  {
    TrimEmptyIffBlank(f.titre);
    TrimEmptyIffBlank(f.(fichier := Some("f")).titre);
  }

  /** What the page shows: the spinner while loading, otherwise the form
      with the error banner, if any. */
  datatype Screen = Spinner | FormScreen(banner: Option<string>)

  /** What saving gave: success (with the id of a created exam), or a
      failure with the server's `error` field if any. */
  datatype SaveOutcome = Saved(createdId: nat) | SaveRefused(message: Option<string>)

  /** The form component's state for one route: `examId` is the route id,
      present in edit mode. */
  class ExamFormView {
    const examId: Option<nat>
    const userId: nat
    const apiUrl: string
    var formData: FormData
    var preview: Option<string>
    var loading: bool
    var submitting: bool
    var error: Option<string>
    var navigatedTo: Option<string>

    predicate EditMode()
    {
      examId.Some?
    }

    function Shown(): Screen
      reads this
    {
      if loading then Spinner else FormScreen(error)
    }

    /** The initial state: loading only in edit mode. */
    constructor(examId: Option<nat>, userId: nat, apiUrl: string)
      ensures this.examId == examId && this.userId == userId && this.apiUrl == apiUrl
      ensures formData == InitialForm && preview == None && loading == examId.Some?
      ensures !submitting && error == None && navigatedTo == None
    {
      this.examId := examId;
      this.userId := userId;
      this.apiUrl := apiUrl;
      formData := InitialForm;
      preview := None;
      loading := examId.Some?;
      submitting := false;
      error := None;
      navigatedTo := None;
    }

    /** The edit-mode fetch as written: another teacher's exam sets the
        error and leaves the form empty, but `loading` is left as it was, so
        a page that starts loading keeps showing the spinner and the error is
        never displayed. */
    method FetchExam(fetched: Option<ExamData>)
      modifies this
      ensures !EditMode() ==> formData == old(formData) && preview == old(preview) && loading == old(loading) && error == old(error)
      ensures EditMode() && fetched.None? ==> error == Some(LoadFailed) && !loading && formData == old(formData)
      ensures EditMode() && fetched.Some? && fetched.value.enseignantId != userId ==>
                error == Some(NotAuthorised) && formData == old(formData) && preview == old(preview) &&
                loading == old(loading) && (old(loading) ==> Shown() == Spinner)
      ensures EditMode() && fetched.Some? && fetched.value.enseignantId == userId ==>
                formData == FilledForm(fetched.value) && !loading && error == old(error) &&
                preview == (if fetched.value.fichierUrl.Some? && fetched.value.fichierUrl.value != ""
                            then Some(apiUrl + fetched.value.fichierUrl.value) else old(preview))
      ensures submitting == old(submitting) && navigatedTo == old(navigatedTo)
    {
      if !EditMode() {
        return;
      }
      if fetched.None? {
        error := Some(LoadFailed);
        loading := false;
        return;
      }
      var d := fetched.value;
      if d.enseignantId != userId {
        error := Some(NotAuthorised);
        return;
      }
      formData := FilledForm(d);
      if d.fichierUrl.Some? && d.fichierUrl.value != "" {
        preview := Some(apiUrl + d.fichierUrl.value);
      }
      loading := false;
    }

    /** The edit-mode fetch with the owner check ending the loading state,
        so that the refusal is shown instead of the spinner. */
    method FetchExamCorrected(fetched: Option<ExamData>)
      modifies this
      ensures !EditMode() ==> formData == old(formData) && preview == old(preview) && loading == old(loading) && error == old(error)
      ensures EditMode() && fetched.None? ==> error == Some(LoadFailed) && !loading && formData == old(formData)
      ensures EditMode() && fetched.Some? && fetched.value.enseignantId != userId ==>
                formData == old(formData) && preview == old(preview) && Shown() == FormScreen(Some(NotAuthorised))
      ensures EditMode() && fetched.Some? && fetched.value.enseignantId == userId ==>
                formData == FilledForm(fetched.value) && !loading && error == old(error) &&
                preview == (if fetched.value.fichierUrl.Some? && fetched.value.fichierUrl.value != ""
                            then Some(apiUrl + fetched.value.fichierUrl.value) else old(preview))
      ensures submitting == old(submitting) && navigatedTo == old(navigatedTo)
    {
      if !EditMode() {
        return;
      }
      if fetched.None? {
        error := Some(LoadFailed);
        loading := false;
        return;
      }
      var d := fetched.value;
      if d.enseignantId != userId {
        error := Some(NotAuthorised);
        loading := false;
        return;
      }
      formData := FilledForm(d);
      if d.fichierUrl.Some? && d.fichierUrl.value != "" {
        preview := Some(apiUrl + d.fichierUrl.value);
      }
      loading := false;
    }

    /** `handleChange`. */
    method HandleChange(name: Field, value: string)
      modifies this
      ensures formData == WithField(old(formData), name, value)
      ensures preview == old(preview) && loading == old(loading) && error == old(error)
      ensures submitting == old(submitting) && navigatedTo == old(navigatedTo)
    {
      formData := WithField(formData, name, value);
    }

    /** `handleFileChange`: a chosen file replaces the form's file and the
        preview shows it; choosing none changes nothing. */
    method HandleFileChange(file: Option<string>, objectUrl: string)
      modifies this
      ensures file.None? ==> formData == old(formData) && preview == old(preview)
      ensures file.Some? ==> formData == old(formData).(fichier := file) && preview == Some(objectUrl)
      ensures loading == old(loading) && error == old(error)
      ensures submitting == old(submitting) && navigatedTo == old(navigatedTo)
    {
      if file.Some? {
        formData := formData.(fichier := file);
        preview := Some(objectUrl);
      }
    }

    /** `validateForm`: accepts exactly the forms without a failing check,
        and otherwise shows the first failure's message. */
    method ValidateForm() returns (ok: bool)
      modifies this
      ensures ok <==> FormError(EditMode(), formData).None?
      ensures error == if ok then old(error) else FormError(EditMode(), formData)
      ensures formData == old(formData) && preview == old(preview) && loading == old(loading)
      ensures submitting == old(submitting) && navigatedTo == old(navigatedTo)
    {
      if Trim(formData.titre) == "" {
        error := Some(TitleRequired);
        return false;
      }
      if formData.dateLimite == "" {
        error := Some(DeadlineRequired);
        return false;
      }
      if !EditMode() && formData.fichier.None? {
        error := Some(FileRequired);
        return false;
      }
      return true;
    }

    /** `handleSubmit`: an invalid form is not sent; a valid one is sent as
        an update (edit mode) or a creation, success opens the exam's page
        and a failure shows the server's message or a generic one. */
    method HandleSubmit(outcome: SaveOutcome) returns (sent: Option<FormData>)
      modifies this
      ensures FormError(EditMode(), old(formData)).Some? ==>
                sent == None && error == FormError(EditMode(), old(formData)) && navigatedTo == old(navigatedTo)
      ensures FormError(EditMode(), old(formData)).None? ==>
                sent == Some(old(formData)) &&
                (outcome.Saved? ==>
                   error == None &&
                   navigatedTo == Some("/exams/" + NatText(if EditMode() then examId.value else outcome.createdId))) &&
                (outcome.SaveRefused? ==>
                   navigatedTo == old(navigatedTo) &&
                   error == Some(if outcome.message.Some? && outcome.message.value != "" then outcome.message.value
                                 else SaveFailed))
      ensures submitting == if FormError(EditMode(), old(formData)).Some? then old(submitting) else false
      ensures formData == old(formData) && preview == old(preview) && loading == old(loading)
    {
      var ok := ValidateForm();
      if !ok {
        return None;
      }
      submitting := true;
      error := None;
      sent := Some(formData);
      if outcome.Saved? {
        var id := if EditMode() then examId.value else outcome.createdId;
        navigatedTo := Some("/exams/" + NatText(id));
      } else if outcome.message.Some? && outcome.message.value != "" {
        error := Some(outcome.message.value);
      } else {
        error := Some(SaveFailed);
      }
      submitting := false;
    }
  }
}
