/**
 * The login / signup form: field edits, the submit gate (required fields,
 * then, when signing up, the name and the password confirmation), the payload
 * handed to `onSubmit`, and the loading flag around that call.
 */
module AuthForm {

  datatype Mode = Login | Signup

  /** What the gate decides. */
  datatype Outcome = MissingCredentials | MissingName | PasswordMismatch | Submitted

  /** The observable effects of the form, in order: alerts, loading-flag
      changes, and the call of `onSubmit` with its payload. */
  datatype Effect = Alert(message: string) | SetLoading(on: bool) | CallOnSubmit(payload: map<string, string>)

  const FieldKeys: set<string> := {"name", "email", "password", "confirmPassword"}
  const InitialForm: map<string, string> := map["name" := "", "email" := "", "password" := "", "confirmPassword" := ""]

  const MissingCredentialsMessage := "Please fill in all required fields"
  const MissingNameMessage := "Please enter your full name"
  const MismatchMessage := "Passwords don't match"

  /** The guard chain of `handleSubmit`, on the field values. */
  function Gate(mode: Mode, name: string, email: string, password: string, confirmPassword: string): Outcome {
    if email == "" || password == "" then MissingCredentials
    else if mode == Signup && name == "" then MissingName
    else if mode == Signup && password != confirmPassword then PasswordMismatch
    else Submitted
  }

  /** The alert of a stopping guard. */
  function AlertOf(o: Outcome): string
    requires o != Submitted
  {
    match o
    case MissingCredentials => MissingCredentialsMessage
    case MissingName => MissingNameMessage
    case PasswordMismatch => MismatchMessage
  }

  /** The form is submitted exactly when email and password are filled in and,
      when signing up, the name is filled in and the confirmation matches. */
  lemma GateIff(mode: Mode, name: string, email: string, password: string, confirmPassword: string)
    ensures Gate(mode, name, email, password, confirmPassword) == Submitted <==>
      email != "" && password != "" && (mode == Login || (name != "" && password == confirmPassword))
  {
  }

  /** Login never looks at the name or the confirmation. */
  lemma LoginIgnoresSignupFields(email: string, password: string, n1: string, c1: string, n2: string, c2: string)
    ensures Gate(Login, n1, email, password, c1) == Gate(Login, n2, email, password, c2)
  {
  }

  /** Missing credentials are reported first, whatever the mode. */
  lemma CredentialsCheckedFirst(mode: Mode, name: string, email: string, password: string, confirmPassword: string)
    requires email == "" || password == ""
    ensures Gate(mode, name, email, password, confirmPassword) == MissingCredentials
  {
  }

  /** `submitData`: email and password, plus name and confirmation when signing up. */
  function SubmitData(mode: Mode, form: map<string, string>): (r: map<string, string>)
    requires FieldKeys <= form.Keys
    ensures mode == Login ==> r.Keys == {"email", "password"}
    ensures mode == Signup ==> r.Keys == FieldKeys
    ensures forall k :: k in r ==> k in form && r[k] == form[k]
  {
    var base := map["email" := form["email"], "password" := form["password"]];
    if mode == Login then base
    else base["name" := form["name"]]["confirmPassword" := form["confirmPassword"]]
  }

  class AuthFormState {
    const mode: Mode
    /** Whether an `onSubmit` callback was passed. */
    const hasOnSubmit: bool
    var isLoading: bool
    var formData: map<string, string>
    var effects: seq<Effect>

    /** The four fields are always present. */
    ghost predicate Valid()
      reads this
    {
      FieldKeys <= formData.Keys
    }

    constructor(mode: Mode, hasOnSubmit: bool)
      ensures Valid()
      ensures this.mode == mode && this.hasOnSubmit == hasOnSubmit
      ensures !isLoading && formData == InitialForm && effects == []
    {
      this.mode := mode;
      this.hasOnSubmit := hasOnSubmit;
      isLoading := false;
      formData := InitialForm;
      effects := [];
    }

    /** `handleInputChange`: the field named by the input's id takes its value;
        every other field keeps its own. */
    method HandleInputChange(id: string, value: string)
      requires Valid()
      modifies this
      ensures Valid()
      ensures formData == old(formData)[id := value]
      ensures id in formData && formData[id] == value
      ensures forall k :: k in old(formData) && k != id ==> k in formData && formData[k] == old(formData)[k]
      ensures unchanged(this`isLoading, this`effects)
    {
      formData := formData[id := value];
    }

    /** `handleSubmit`. A stopping guard raises its alert and changes nothing
        else. Otherwise loading starts, `onSubmit` (when present) is called with
        the payload, and loading stops whether or not that call throws. */
    method HandleSubmit(onSubmitThrows: bool)
      requires Valid()
      modifies this
      ensures Valid()
      ensures unchanged(this`formData)
      ensures var o := Gate(mode, formData["name"], formData["email"], formData["password"], formData["confirmPassword"]);
        && (o != Submitted ==> effects == old(effects) + [Alert(AlertOf(o))] && isLoading == old(isLoading))
        && (o == Submitted ==>
              && effects == old(effects) + [SetLoading(true)]
                            + (if hasOnSubmit then [CallOnSubmit(SubmitData(mode, formData))] else [])
                            + [SetLoading(false)]
              && !isLoading)
    {
      var email, password := formData["email"], formData["password"];
      if email == "" || password == "" {
        effects := effects + [Alert(MissingCredentialsMessage)];
        return;
      }
      if mode != Login {
        if formData["name"] == "" {
          effects := effects + [Alert(MissingNameMessage)];
          return;
        }
        if password != formData["confirmPassword"] {
          effects := effects + [Alert(MismatchMessage)];
          return;
        }
      }
      isLoading := true;
      effects := effects + [SetLoading(true)];
      var submitData := SubmitData(mode, formData);
      if hasOnSubmit {
        // a throwing callback is caught; the payload was handed over either way
        effects := effects + [CallOnSubmit(submitData)];
        if onSubmitThrows {
          isLoading := false;
          effects := effects + [SetLoading(false)];
          return;
        }
      }
      isLoading := false;
      effects := effects + [SetLoading(false)];
    }
  }
}
