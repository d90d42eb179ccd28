/**
 * The two tables of the clinic (`Doctor`, `Patient`), the session binding, the
 * form input of the patient handlers and the responses the handlers give, plus
 * the pure parts of the handlers: lookups by email and the dashboard's filter.
 */
module Models {
  import opened Wrappers
  import opened Passwords

  /** A row of the Doctor table. `password` holds a hash; the type admits no plaintext. */
  datatype Doctor = Doctor(id: int, name: string, email: string, password: PasswordHash)

  /** A row of the Patient table; `doctorId` is the owning doctor. */
  datatype Patient = Patient(
    id: int,
    doctorId: int,
    name: string,
    age: Option<int>,
    gender: string,
    medicalHistory: string,
    weight: Option<real>,
    lastVisit: string,
    allergies: string,
    imageFilename: Option<string>)

  /** The two keys a logged-in browser's session carries. */
  datatype Session = Session(doctorId: int, doctorName: string)

  /**
   * A numeric form field after `int()` or `float()`: absent or empty,
   * a number, or text that makes the conversion raise.
   */
  datatype NumberField<T> = Blank | Number(value: T) | NotANumber

  /**
   * The fields a patient form posts. Text fields arrive already defaulted to
   * "" when absent; `allergies` is the multi-valued selection; `image` is the
   * sanitised name of an uploaded file, present only when a file with a
   * non-empty name was sent. Sanitising can empty a name (`../`, or one made
   * only of non-ASCII letters), so `Some("")` is a possible value.
   */
  datatype PatientForm = PatientForm(
    name: string,
    age: NumberField<int>,
    gender: string,
    medicalHistory: string,
    weight: NumberField<real>,
    lastVisit: string,
    allergies: seq<string>,
    image: Option<string>)

  /** Both numeric fields convert without raising. */
  predicate NumbersParse(form: PatientForm) {
    !form.age.NotANumber? && !form.weight.NotANumber?
  }

  /** The range of SQLite's INTEGER: a value outside it cannot be bound to a statement. */
  const MinInt64: int := -0x8000_0000_0000_0000
  const MaxInt64: int := 0x7FFF_FFFF_FFFF_FFFF

  predicate InInt64(x: int) {
    MinInt64 <= x <= MaxInt64
  }

  /**
   * The upload, if any, has a non-empty sanitised name. The save does not fail
   * on an empty name: one that came out empty names the upload folder itself,
   * and saving to a directory raises. Other failures of the save are not
   * modelled.
   */
  predicate ImageNamed(form: PatientForm) {
    form.image != Some([])
  }

  /** The upload has a name, both numbers convert and the age fits the store's integer column. */
  predicate Storable(form: PatientForm) {
    ImageNamed(form) && NumbersParse(form) && (form.age.Number? ==> InInt64(form.age.value))
  }

  /** The value a patient form stores on creation: nothing when the field was blank. */
  function OrNone<T>(f: NumberField<T>): (r: Option<T>)
    requires !f.NotANumber?
    ensures r.None? <==> f.Blank?
    ensures f.Number? ==> r == Some(f.value)
  {
    match f
    case Blank => None
    case Number(v) => Some(v)
  }

  /** The value a patient form stores on edit: `zero` when the field was blank. */
  function OrZero<T>(f: NumberField<T>, zero: T): (r: T)
    requires !f.NotANumber?
    ensures f.Blank? ==> r == zero
    ensures f.Number? ==> r == f.value
  {
    match f
    case Blank => zero
    case Number(v) => v
  }

  /** Where a redirect goes. */
  datatype Page = IndexPage | RegisterPage | LoginPage | DashboardPage

  /** The one-shot status messages the handlers flash. */
  datatype Flash =
    | FillAllFields
    | EmailAlreadyRegistered
    | RegistrationSuccessful
    | LoggedIn
    | InvalidCredentials
    | PleaseLogInFirst
    | PatientCreated
    | PatientUpdated
    | PatientDeleted
    | NotAuthorized
    | LoggedOut

  /** What a handler answers: a redirect, a rendered page, or an HTTP error. */
  datatype Response =
    | Redirect(to: Page, flash: Option<Flash>)
    | LoginForm(flash: Option<Flash>)
    | RegisterForm
    | PatientList(patients: seq<Patient>)
    | PatientEditor(patient: Option<Patient>)
    | NotFound
    | ServerError

  /** No two doctors share an email (the column's `unique` constraint). */
  ghost predicate UniqueEmails(doctors: map<int, Doctor>) {
    forall a, b :: a in doctors && b in doctors && doctors[a].email == doctors[b].email ==> a == b
  }

  /** Some doctor is registered under exactly this email. */
  predicate EmailTaken(doctors: map<int, Doctor>, email: string) {
    exists id :: id in doctors && doctors[id].email == email
  }

  /** Some doctor has exactly this email and a password hash that checks against `password`. */
  predicate CredentialsMatch(doctors: map<int, Doctor>, derive: KeyDerivation, email: string, password: string) {
    exists id :: id in doctors && doctors[id].email == email && CheckPasswordHash(derive, doctors[id].password, password)
  }

  /** Every row sits under its own id. */
  ghost predicate KeyedById(patients: map<int, Patient>) {
    forall id :: id in patients ==> patients[id].id == id
  }

  /**
   * The dashboard query `filter_by(doctor_id=owner)` over the ids below `n`,
   * in ascending id order: exactly the owner's rows, each once.
   */
  function OwnedBelow(patients: map<int, Patient>, owner: int, n: nat): (r: seq<Patient>)
    requires KeyedById(patients)
    ensures forall i :: 0 <= i < |r| ==> r[i].id < n && r[i].id in patients && patients[r[i].id] == r[i] && r[i].doctorId == owner
    ensures forall id :: 0 <= id < n && id in patients && patients[id].doctorId == owner ==> patients[id] in r
    ensures forall i, j :: 0 <= i < j < |r| ==> r[i].id < r[j].id
  {
    if n == 0 then []
    else
      var before := OwnedBelow(patients, owner, n - 1);
      var k := n - 1;
      if k in patients && patients[k].doctorId == owner then before + [patients[k]] else before
  }

  /**
   * Between `before` and `after`, every row that `caller` does not own (all
   * rows when nobody is logged in) is still there, unchanged.
   */
  ghost predicate NonOwnersUntouched(before: map<int, Patient>, after: map<int, Patient>, caller: Option<Session>) {
    forall id :: id in before && (caller.None? || before[id].doctorId != caller.value.doctorId) ==>
      id in after && after[id] == before[id]
  }
}
