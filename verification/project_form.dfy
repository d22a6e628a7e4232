/** The create-project form: its client-side validation and the error clearing on edit. */
module ProjectForm {
  import opened Outcomes
  import opened Text
  import opened ProjectModel
  import opened ProjectController

  datatype FieldName = Name | Description | Repository | Branch | BuildCommand | DeployCommand

  /** The six inputs of the form. */
  datatype Form = Form(name: string, description: string, repository: string, branch: string,
                       buildCommand: string, deployCommand: string)
  {
    function Get(f: FieldName): string {
      match f
      case Name => name
      case Description => description
      case Repository => repository
      case Branch => branch
      case BuildCommand => buildCommand
      case DeployCommand => deployCommand
    }
  }

  /** The messages the form shows under an input; `Cleared` is the empty message an edit leaves. */
  datatype Message = NameRequired | NameTooShort | RepositoryRequired | RepositoryNotUrl | BuildCommandRequired | Cleared
  {
    function Text(): string {
      match this
      case NameRequired => "Project name is required"
      case NameTooShort => "Project name must be at least 3 characters"
      case RepositoryRequired => "Repository URL is required"
      case RepositoryNotUrl => "Repository must be a valid URL"
      case BuildCommandRequired => "Build command is required"
      case Cleared => ""
    }
  }

  /** What `validate` leaves in the error state and returns. */
  datatype Validation = Validation(errors: map<FieldName, Message>, ok: bool)

  // The checks test `!value.trim()` as `Blank(value)`: the two agree on every string
  // (`Text.TrimEmptyIffBlank`), and the predicate keeps the trimming out of every proof below.

  /** The name check: blank after trimming, else shorter than three characters. */
  function NameError(name: string): Option<Message> {
    if Blank(name) then Some(NameRequired)
    else if |name| < 3 then Some(NameTooShort)
    else None
  }

  /** The repository check: blank after trimming, else not starting with `http`. */
  function RepositoryError(repository: string): Option<Message> {
    if Blank(repository) then Some(RepositoryRequired)
    else if !StartsWith(repository, "http") then Some(RepositoryNotUrl)
    else None
  }

  /** The build command check: blank after trimming. */
  function BuildCommandError(command: string): Option<Message> {
    if Blank(command) then Some(BuildCommandRequired) else None
  }

  /** The message `validate()` records for a field, if any; only three fields are checked. */
  function ErrorOf(form: Form, f: FieldName): Option<Message> {
    match f
    case Name => NameError(form.name)
    case Repository => RepositoryError(form.repository)
    case BuildCommand => BuildCommandError(form.buildCommand)
    case _ => None
  }

  /** `validate()`: the name, repository and build command checks, each field with at most one
      message; the form passes exactly when no message was produced. */
  function Validate(form: Form): (r: Validation)
    ensures r.ok <==> r.errors == map[]
    ensures r.errors.Keys <= {Name, Repository, BuildCommand}
    ensures Name in r.errors && r.errors[Name] == NameRequired <==> Blank(form.name)
    ensures Name in r.errors && r.errors[Name] == NameTooShort <==> !Blank(form.name) && |form.name| < 3
    ensures Name in r.errors <==> Blank(form.name) || |form.name| < 3
    ensures Repository in r.errors && r.errors[Repository] == RepositoryRequired <==> Blank(form.repository)
    ensures Repository in r.errors && r.errors[Repository] == RepositoryNotUrl <==>
      !Blank(form.repository) && !StartsWith(form.repository, "http")
    ensures Repository in r.errors <==> Blank(form.repository) || !StartsWith(form.repository, "http")
    ensures BuildCommand in r.errors <==> Blank(form.buildCommand)
    ensures BuildCommand in r.errors ==> r.errors[BuildCommand] == BuildCommandRequired
  {
    var errors := map f | f in {Name, Repository, BuildCommand} && ErrorOf(form, f).Some? :: ErrorOf(form, f).value;
    Validation(errors, |errors| == 0)
  }

  /** What `handleChange` leaves: the edited form and the error state. */
  datatype Edited = Edited(form: Form, errors: map<FieldName, Message>)

  function Set(form: Form, f: FieldName, value: string): Form {
    match f
    case Name => form.(name := value)
    case Description => form.(description := value)
    case Repository => form.(repository := value)
    case Branch => form.(branch := value)
    case BuildCommand => form.(buildCommand := value)
    case DeployCommand => form.(deployCommand := value)
  }

  /** `handleChange`: the edited input takes the new value and its error, if it had a message,
      is cleared to the empty string; nothing else changes. */
  function HandleChange(form: Form, errors: map<FieldName, Message>, f: FieldName, value: string): (r: Edited)
    ensures r.form.Get(f) == value
    ensures forall g | g != f :: r.form.Get(g) == form.Get(g)
    ensures r.errors.Keys == errors.Keys
    ensures forall g | g in errors && g != f :: r.errors[g] == errors[g]
    ensures f in errors ==> r.errors[f] == Cleared
  {
    Edited(Set(form, f, value), if f in errors && errors[f] != Cleared then errors[f := Cleared] else errors)
  }

  /** The body the form submits. */
  function AsBody(form: Form): ProjectBody {
    ProjectBody(Given(form.name), Given(form.description), Given(form.repository), Given(form.branch),
                Given(form.buildCommand), Given(form.deployCommand), Undefined)
  }

  /** A form that passes validation is never refused by the server's required-field check, and
      its build command and a name of at most 100 characters pass the server's validators. */
  lemma AcceptedFormHasRequiredFields(form: Form)
    requires Validate(form).ok
    ensures !MissingRequired(AsBody(form))
    ensures ValidBuildCommand(form.buildCommand)
    ensures |form.name| <= NameMax ==> ValidName(form.name)
  {
    assert Name !in Validate(form).errors;
    assert BuildCommand !in Validate(form).errors;
    assert Repository !in Validate(form).errors;
  }
}
