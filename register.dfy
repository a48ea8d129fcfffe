/** The registration form: field edits, the ordered validation, the class
    list with its fallback, and the payload sent without the confirmation. */
module Register {
  import opened Base

  const Student: string := "etudiant"
  const MinPasswordLength: nat := 6

  const PasswordMismatch: string := "Les mots de passe ne correspondent pas"
  const PasswordTooShort: string := "Le mot de passe doit contenir au moins 6 caractères"
  const FieldsRequired: string := "Tous les champs sont obligatoires"
  const ClassRequired: string := "Veuillez sélectionner une classe"
  const ClassesUnavailable: string := "Impossible de charger la liste des classes"
  const RegisterFailed: string := "Erreur lors de l'inscription"

  /** The list shown before the classes arrive. */
  const LoadingClasses: seq<string> := ["Chargement..."]
  /** The list used when the server sends none or cannot be reached. */
  const DefaultClasses: seq<string> := ["Licence 1", "Licence 2", "Licence 3", "Master 1", "Master 2"]

  datatype UserForm = UserForm(nom: string, prenom: string, email: string, mdp: string,
                               mdpConfirm: string, classe: string, role: string)

  /** The empty form; the role starts as student. */
  const InitialForm: UserForm := UserForm("", "", "", "", "", "", Student)

  /** The inputs of the form, by their `name` attribute. */
  datatype Field = Nom | Prenom | Email | Mdp | MdpConfirm | Classe | Role

  function FieldValue(f: UserForm, name: Field): string
  {
    match name
    case Nom => f.nom
    case Prenom => f.prenom
    case Email => f.email
    case Mdp => f.mdp
    case MdpConfirm => f.mdpConfirm
    case Classe => f.classe
    case Role => f.role
  }

  /** `{...userData, [name]: value}`: the named field takes the value and
      every other field is unchanged. */
  function WithField(f: UserForm, name: Field, value: string): (r: UserForm)
    ensures forall m :: FieldValue(r, m) == if m == name then value else FieldValue(f, m)
  {
    match name
    case Nom => f.(nom := value)
    case Prenom => f.(prenom := value)
    case Email => f.(email := value)
    case Mdp => f.(mdp := value)
    case MdpConfirm => f.(mdpConfirm := value)
    case Classe => f.(classe := value)
    case Role => f.(role := value)
  }

  /** The message of the first check that fails, in the form's order:
      confirmation, length, required fields, class of a student. */
  function FormError(f: UserForm): Option<string>
  {
    if f.mdp != f.mdpConfirm then Some(PasswordMismatch)
    else if |f.mdp| < MinPasswordLength then Some(PasswordTooShort)
    else if f.nom == "" || f.prenom == "" || f.email == "" || f.mdp == "" then Some(FieldsRequired)
    else if f.role == Student && f.classe == "" then Some(ClassRequired)
    else None
  }

  /** Each message is reported exactly when its check is the first to fail;
      the form is accepted exactly when no check fails. An empty password
      with an empty confirmation gets the length message, and the
      required-fields message is never caused by the password. */
  lemma {:induction false} FormErrorCases(f: UserForm)
    ensures FormError(f) == Some(PasswordMismatch) <==> f.mdp != f.mdpConfirm
    ensures FormError(f) == Some(PasswordTooShort) <==> f.mdp == f.mdpConfirm && |f.mdp| < MinPasswordLength
    ensures FormError(f) == Some(FieldsRequired) <==>
              f.mdp == f.mdpConfirm && |f.mdp| >= MinPasswordLength && (f.nom == "" || f.prenom == "" || f.email == "")
    ensures FormError(f) == Some(ClassRequired) <==>
              f.mdp == f.mdpConfirm && |f.mdp| >= MinPasswordLength && f.nom != "" && f.prenom != "" && f.email != "" &&
              f.role == Student && f.classe == ""
    ensures FormError(f).None? <==>
              f.mdp == f.mdpConfirm && |f.mdp| >= MinPasswordLength && f.nom != "" && f.prenom != "" && f.email != "" &&
              (f.role == Student ==> f.classe != "")
    ensures f.mdp == "" && f.mdpConfirm == "" ==> FormError(f) == Some(PasswordTooShort)
  {
  }

  /** The body sent to the server: the form without `mdp_confirm`. */
  datatype Payload = Payload(nom: string, prenom: string, email: string, mdp: string, classe: string, role: string)

  function PayloadOf(f: UserForm): Payload
  {
    Payload(f.nom, f.prenom, f.email, f.mdp, f.classe, f.role)
  }

  /** The form a payload and a confirmation come from. */
  function FormOf(p: Payload, mdpConfirm: string): UserForm
  {
    UserForm(p.nom, p.prenom, p.email, p.mdp, mdpConfirm, p.classe, p.role)
  }

  /** Dropping the confirmation loses nothing else: the form is rebuilt from
      its payload and its confirmation, and the payload does not depend on
      the confirmation. */
  lemma {:induction false} PayloadDropsOnlyConfirmation(f: UserForm, p: Payload, c: string)
    ensures FormOf(PayloadOf(f), f.mdpConfirm) == f
    ensures PayloadOf(FormOf(p, c)) == p
    ensures PayloadOf(f.(mdpConfirm := c)) == PayloadOf(f)
  {
  }

  /** What the class request gave: a failure, or a list (`null` read as
      empty). */
  datatype ClassFetch = FetchFailed | Fetched(data: seq<string>)

  /** What `register` gave: success, or a failure with the server's `error`
      field if any. */
  datatype RegisterOutcome = Registered | Refused(message: Option<string>)

  /** The registration component's state. */
  class RegisterView {
    var userData: UserForm
    var classes: seq<string>
    var loadingClasses: bool
    var classError: string
    var loading: bool
    var error: string
    var navigatedToLogin: bool

    constructor()
      ensures userData == InitialForm && classes == LoadingClasses && loadingClasses
      ensures classError == "" && !loading && error == "" && !navigatedToLogin
    {
      userData := InitialForm;
      classes := LoadingClasses;
      loadingClasses := true;
      classError := "";
      loading := false;
      error := "";
      navigatedToLogin := false;
    }

    /** `fetchClasses`: a non-empty list is shown as received; an empty one
        or a failure falls back to the default list, a failure with an error
        message. */
    method FetchClasses(fetched: ClassFetch)
      modifies this
      ensures classes == if fetched.Fetched? && |fetched.data| > 0 then fetched.data else DefaultClasses
      ensures classError == if fetched.FetchFailed? then ClassesUnavailable else old(classError)
      ensures !loadingClasses
      ensures userData == old(userData) && error == old(error) && loading == old(loading)
      ensures navigatedToLogin == old(navigatedToLogin)
    {
      loadingClasses := true;
      if fetched.Fetched? {
        if |fetched.data| > 0 {
          classes := fetched.data;
        } else {
          classes := DefaultClasses;
        }
      } else {
        classError := ClassesUnavailable;
        classes := DefaultClasses;
      }
      loadingClasses := false;
    }

    /** `handleChange`. */
    method HandleChange(name: Field, value: string)
      modifies this
      ensures userData == WithField(old(userData), name, value)
      ensures classes == old(classes) && loadingClasses == old(loadingClasses) && classError == old(classError)
      ensures loading == old(loading) && error == old(error) && navigatedToLogin == old(navigatedToLogin)
    {
      userData := WithField(userData, name, value);
    }

    /** `validateForm`: accepts exactly the forms without a failing check,
        and otherwise shows the first failure's message. */
    method ValidateForm() returns (ok: bool)
      modifies this
      ensures ok <==> FormError(userData).None?
      ensures error == if ok then old(error) else FormError(userData).value
      ensures userData == old(userData) && classes == old(classes) && loadingClasses == old(loadingClasses)
      ensures classError == old(classError) && loading == old(loading) && navigatedToLogin == old(navigatedToLogin)
    {
      if userData.mdp != userData.mdpConfirm {
        error := PasswordMismatch;
        return false;
      }
      if |userData.mdp| < MinPasswordLength {
        error := PasswordTooShort;
        return false;
      }
      if userData.nom == "" || userData.prenom == "" || userData.email == "" || userData.mdp == "" {
        error := FieldsRequired;
        return false;
      }
      if userData.role == Student && userData.classe == "" {
        error := ClassRequired;
        return false;
      }
      return true;
    }

    /** `handleSubmit`: an invalid form is not sent; a valid one is sent
        without the confirmation, and success goes to the login page while a
        refusal shows the server's message or a generic one. */
    method HandleSubmit(outcome: RegisterOutcome) returns (sent: Option<Payload>)
      modifies this
      ensures FormError(old(userData)).Some? ==>
                sent == None && error == FormError(old(userData)).value &&
                loading == old(loading) && navigatedToLogin == old(navigatedToLogin)
      ensures FormError(old(userData)).None? ==>
                sent == Some(PayloadOf(old(userData))) && !loading &&
                (outcome.Registered? ==> navigatedToLogin && error == "") &&
                (outcome.Refused? ==>
                   navigatedToLogin == old(navigatedToLogin) &&
                   error == if outcome.message.Some? && outcome.message.value != "" then outcome.message.value
                            else RegisterFailed)
      ensures userData == old(userData) && classes == old(classes)
    {
      var ok := ValidateForm();
      if !ok {
        return None;
      }
      loading := true;
      error := "";
      sent := Some(PayloadOf(userData));
      if outcome.Registered? {
        navigatedToLogin := true;
      } else if outcome.message.Some? && outcome.message.value != "" {
        error := outcome.message.value;
      } else {
        error := RegisterFailed;
      }
      loading := false;
    }
  }
}
