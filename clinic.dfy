/**
 * The request handlers of the clinic application as transitions on one store
 * (the Doctor and Patient tables and their id counters) and one browser's
 * session. Each handler is a method; a handler that only renders a page reads
 * the state and changes nothing.
 */
module App {
  import opened Wrappers
  import opened Text
  import opened Passwords
  import opened Models

  /** Any of the three registration fields is empty once stripped. */
  predicate MissingField(name: string, email: string, password: string) {
    AllSpace(name) || AllSpace(email) || AllSpace(password)
  }

  class Clinic {
    /** The Doctor table, by id. */
    var doctors: map<int, Doctor>
    /** The Patient table, by id. */
    var patients: map<int, Patient>
    /** The id the store gives the next doctor. */
    var nextDoctorId: int
    /** The id the store gives the next patient. */
    var nextPatientId: int
    /** The session's `doctor_id` and `doctor_name`, when bound. */
    var session: Option<Session>
    /** The password key derivation behind `generate_password_hash`. */
    const derive: KeyDerivation

    /**
     * Ids match keys and stay below the counters, emails are unique, every
     * patient's owner exists, and a bound session names an existing doctor
     * under that doctor's name.
     */
    ghost predicate Valid()
      reads this
    {
      && 0 < nextDoctorId && 0 < nextPatientId
      && (forall id :: id in doctors ==> doctors[id].id == id && 0 < id < nextDoctorId)
      && UniqueEmails(doctors)
      && KeyedById(patients)
      && (forall id :: id in patients ==> 0 < id < nextPatientId && patients[id].doctorId in doctors)
      && (session.Some? ==> session.value.doctorId in doctors && doctors[session.value.doctorId].name == session.value.doctorName)
    }

    /** An empty store and a browser that is not logged in. */
    constructor (derive: KeyDerivation)
      ensures Valid()
      ensures doctors == map[] && patients == map[] && session == None
      ensures this.derive == derive
    {
      doctors, patients := map[], map[];
      nextDoctorId, nextPatientId := 1, 1;
      session := None;
      this.derive := derive;
    }

    /**
     * /register. A GET (`post` false) renders the form; a POST registers.
     * `salt` is the random salt the hash draws.
     */
    method Register(post: bool, name: string, email: string, password: string, salt: string) returns (r: Response)
      requires Valid()
      modifies this`doctors, this`nextDoctorId
      ensures Valid()
      ensures !post ==> r == RegisterForm && doctors == old(doctors) && nextDoctorId == old(nextDoctorId)
      ensures post && MissingField(name, email, password) ==>
        r == Redirect(RegisterPage, Some(FillAllFields)) && doctors == old(doctors) && nextDoctorId == old(nextDoctorId)
      ensures post && !MissingField(name, email, password) && EmailTaken(old(doctors), Strip(email)) ==>
        r == Redirect(RegisterPage, Some(EmailAlreadyRegistered)) && doctors == old(doctors) && nextDoctorId == old(nextDoctorId)
      ensures post && !MissingField(name, email, password) && !EmailTaken(old(doctors), Strip(email)) ==>
        && r == Redirect(LoginPage, Some(RegistrationSuccessful))
        && old(nextDoctorId) !in old(doctors)
        && old(nextDoctorId) in doctors
        && doctors == old(doctors)[old(nextDoctorId) := doctors[old(nextDoctorId)]]
        && doctors[old(nextDoctorId)].name == Strip(name)
        && doctors[old(nextDoctorId)].email == Strip(email)
        && doctors[old(nextDoctorId)].password == GeneratePasswordHash(derive, salt, Strip(password))
        && nextDoctorId == old(nextDoctorId) + 1
    {
      if !post {
        return RegisterForm;
      }
      var n, e, pw := Strip(name), Strip(email), Strip(password);
      if n == [] || e == [] || pw == [] {
        return Redirect(RegisterPage, Some(FillAllFields));
      }
      var hash := GeneratePasswordHash(derive, salt, pw);
      if exists id :: id in doctors && doctors[id].email == e {
        return Redirect(RegisterPage, Some(EmailAlreadyRegistered));
      }
      var id := nextDoctorId;
      doctors := doctors[id := Doctor(id, n, e, hash)];
      nextDoctorId := nextDoctorId + 1;
      r := Redirect(LoginPage, Some(RegistrationSuccessful));
    }

    /**
     * /login. A GET (`post` false) renders the form. A POST binds the session
     * only when a doctor has exactly the stripped email and the stripped
     * password checks against its hash; an unknown email and a wrong password
     * give the same answer.
     */
    method Login(post: bool, email: string, password: string) returns (r: Response)
      requires Valid()
      modifies this`session
      ensures Valid()
      ensures !post ==> r == LoginForm(None) && session == old(session)
      ensures post && CredentialsMatch(doctors, derive, Strip(email), Strip(password)) ==>
        && r == Redirect(DashboardPage, Some(LoggedIn))
        && session.Some?
        && doctors[session.value.doctorId].email == Strip(email)
        && CheckPasswordHash(derive, doctors[session.value.doctorId].password, Strip(password))
      ensures post && !CredentialsMatch(doctors, derive, Strip(email), Strip(password)) ==>
        r == LoginForm(Some(InvalidCredentials)) && session == old(session)
    {
      if !post {
        return LoginForm(None);
      }
      var e, pw := Strip(email), Strip(password);
      if exists id :: id in doctors && doctors[id].email == e {
        var id :| id in doctors && doctors[id].email == e;
        if CheckPasswordHash(derive, doctors[id].password, pw) {
          session := Some(Session(id, doctors[id].name));
          return Redirect(DashboardPage, Some(LoggedIn));
        }
      }
      r := LoginForm(Some(InvalidCredentials));
    }

    /** GET /logout: drops both session keys, whether or not they were bound. */
    method Logout() returns (r: Response)
      requires Valid()
      modifies this`session
      ensures Valid()
      ensures session == None
      ensures r == Redirect(IndexPage, Some(LoggedOut))
    {
      session := None;
      r := Redirect(IndexPage, Some(LoggedOut));
    }

    /** GET /dashboard: the caller's patients, and only theirs, in id order. */
    method Dashboard() returns (r: Response)
      requires Valid()
      ensures session.None? ==> r == Redirect(LoginPage, Some(PleaseLogInFirst))
      ensures session.Some? ==> r.PatientList?
      ensures session.Some? ==> forall p :: p in r.patients <==> p in patients.Values && p.doctorId == session.value.doctorId
      ensures session.Some? ==> forall i, j :: 0 <= i < j < |r.patients| ==> r.patients[i].id < r.patients[j].id
    {
      if session.None? {
        return Redirect(LoginPage, Some(PleaseLogInFirst));
      }
      var owner := session.value.doctorId;
      var listed := OwnedBelow(patients, owner, nextPatientId);
      forall p | p in patients.Values && p.doctorId == owner
        ensures p in listed
      {
        var id :| id in patients && patients[id] == p;
      }
      r := PatientList(listed);
    }

    /** GET /patient/new. */
    method NewPatientView() returns (r: Response)
      ensures session.None? ==> r == Redirect(LoginPage, None)
      ensures session.Some? ==> r == PatientEditor(None)
    {
      if session.None? {
        return Redirect(LoginPage, None);
      }
      r := PatientEditor(None);
    }

    /**
     * POST /patient/new: adds one patient owned by the caller. Blank numbers
     * are stored as nothing; an upload whose sanitised name is empty, a number that
     * does not convert, or an age outside the store's 64-bit integers, is a
     * server error and nothing is added.
     */
    method CreatePatient(form: PatientForm) returns (r: Response)
      requires Valid()
      modifies this`patients, this`nextPatientId
      ensures Valid()
      ensures NonOwnersUntouched(old(patients), patients, session)
      ensures session.None? ==>
        r == Redirect(LoginPage, None) && patients == old(patients) && nextPatientId == old(nextPatientId)
      ensures session.Some? && !Storable(form) ==>
        r == ServerError && patients == old(patients) && nextPatientId == old(nextPatientId)
      ensures session.Some? && Storable(form) ==>
        && r == Redirect(DashboardPage, Some(PatientCreated))
        && old(nextPatientId) !in old(patients)
        && patients == old(patients)[old(nextPatientId) := Patient(
             old(nextPatientId), session.value.doctorId, Strip(form.name), OrNone(form.age), form.gender,
             form.medicalHistory, OrNone(form.weight), form.lastVisit, Join(form.allergies), form.image)]
        && |patients| == |old(patients)| + 1
        && nextPatientId == old(nextPatientId) + 1
    {
      if session.None? {
        return Redirect(LoginPage, None);
      }
      if !ImageNamed(form) {
        // the file is saved before the row is built, and the save raises
        return ServerError;
      }
      if form.age.NotANumber? || form.weight.NotANumber? {
        return ServerError;
      }
      if form.age.Number? && !InInt64(form.age.value) {
        // the commit cannot bind the age, and nothing is stored
        return ServerError;
      }
      var id := nextPatientId;
      var p := Patient(id, session.value.doctorId, Strip(form.name), OrNone(form.age), form.gender,
                       form.medicalHistory, OrNone(form.weight), form.lastVisit, Join(form.allergies), form.image);
      patients := patients[id := p];
      nextPatientId := nextPatientId + 1;
      r := Redirect(DashboardPage, Some(PatientCreated));
    }

    /** The caller is logged in and owns the existing patient `pid`, an id the store can look up. */
    predicate OwnedByCaller(pid: nat)
      reads this
    {
      session.Some? && InInt64(pid) && pid in patients && patients[pid].doctorId == session.value.doctorId
    }

    /**
     * GET /patient/<pid>/edit: the session gate, then the lookup (a server
     * error for an id beyond 64 bits, 404 for a missing one), then ownership.
     */
    method EditPatientView(pid: nat) returns (r: Response)
      requires Valid()
      ensures session.None? ==> r == Redirect(LoginPage, None)
      ensures session.Some? && !InInt64(pid) ==> r == ServerError
      ensures session.Some? && InInt64(pid) && pid !in patients ==> r == NotFound
      ensures session.Some? && InInt64(pid) && pid in patients && !OwnedByCaller(pid) ==> r == Redirect(DashboardPage, Some(NotAuthorized))
      ensures OwnedByCaller(pid) ==> r == PatientEditor(Some(patients[pid]))
    {
      if session.None? {
        return Redirect(LoginPage, None);
      }
      if !InInt64(pid) {
        // the lookup cannot bind the id
        return ServerError;
      }
      if pid !in patients {
        return NotFound;
      }
      var p := patients[pid];
      if p.doctorId != session.value.doctorId {
        return Redirect(DashboardPage, Some(NotAuthorized));
      }
      r := PatientEditor(Some(p));
    }

    /**
     * POST /patient/<pid>/edit. The owner's edit overwrites every field (blank
     * numbers become zero), replaces the image only when a file was sent and
     * never reassigns the owner; every refusal and every server error (an
     * upload whose sanitised name is empty among them) leaves the table as it was.
     */
    method EditPatient(pid: nat, form: PatientForm) returns (r: Response)
      requires Valid()
      modifies this`patients
      ensures Valid()
      ensures NonOwnersUntouched(old(patients), patients, session)
      ensures session.None? ==> r == Redirect(LoginPage, None) && patients == old(patients)
      ensures session.Some? && !InInt64(pid) ==> r == ServerError && patients == old(patients)
      ensures session.Some? && InInt64(pid) && pid !in old(patients) ==> r == NotFound && patients == old(patients)
      ensures session.Some? && InInt64(pid) && pid in old(patients) && old(patients)[pid].doctorId != session.value.doctorId ==>
        r == Redirect(DashboardPage, Some(NotAuthorized)) && patients == old(patients)
      ensures old(OwnedByCaller(pid)) && !Storable(form) ==> r == ServerError && patients == old(patients)
      ensures old(OwnedByCaller(pid)) && Storable(form) ==>
        && r == Redirect(DashboardPage, Some(PatientUpdated))
        && pid in patients
        && patients == old(patients)[pid := patients[pid]]
        && patients[pid].id == pid
        && patients[pid].doctorId == old(patients)[pid].doctorId
        && patients[pid].name == Strip(form.name)
        && patients[pid].age == Some(OrZero(form.age, 0))
        && patients[pid].gender == form.gender
        && patients[pid].medicalHistory == form.medicalHistory
        && patients[pid].weight == Some(OrZero(form.weight, 0.0))
        && patients[pid].lastVisit == form.lastVisit
        && patients[pid].allergies == Join(form.allergies)
        && patients[pid].imageFilename == (if form.image.Some? then form.image else old(patients)[pid].imageFilename)
    {
      if session.None? {
        return Redirect(LoginPage, None);
      }
      if !InInt64(pid) {
        // the lookup cannot bind the id
        return ServerError;
      }
      if pid !in patients {
        return NotFound;
      }
      var p := patients[pid];
      if p.doctorId != session.value.doctorId {
        return Redirect(DashboardPage, Some(NotAuthorized));
      }
      // The loaded row is changed field by field; a conversion that raises
      // abandons the changes before they are committed.
      p := p.(name := Strip(form.name));
      if form.age.NotANumber? {
        return ServerError;
      }
      p := p.(age := Some(OrZero(form.age, 0)));
      p := p.(gender := form.gender);
      p := p.(medicalHistory := form.medicalHistory);
      if form.weight.NotANumber? {
        return ServerError;
      }
      p := p.(weight := Some(OrZero(form.weight, 0.0)));
      p := p.(lastVisit := form.lastVisit);
      p := p.(allergies := Join(form.allergies));
      if !ImageNamed(form) {
        return ServerError;
      }
      if form.image.Some? {
        p := p.(imageFilename := form.image);
      }
      if p.age.Some? && !InInt64(p.age.value) {
        // the commit cannot bind the age, and the changes are discarded
        return ServerError;
      }
      patients := patients[pid := p];
      r := Redirect(DashboardPage, Some(PatientUpdated));
    }

    /** POST /patient/<pid>/delete: the owner removes exactly that patient. */
    method DeletePatient(pid: nat) returns (r: Response)
      requires Valid()
      modifies this`patients
      ensures Valid()
      ensures NonOwnersUntouched(old(patients), patients, session)
      ensures session.None? ==> r == Redirect(LoginPage, None) && patients == old(patients)
      ensures session.Some? && !InInt64(pid) ==> r == ServerError && patients == old(patients)
      ensures session.Some? && InInt64(pid) && pid !in old(patients) ==> r == NotFound && patients == old(patients)
      ensures session.Some? && InInt64(pid) && pid in old(patients) && old(patients)[pid].doctorId != session.value.doctorId ==>
        r == Redirect(DashboardPage, Some(NotAuthorized)) && patients == old(patients)
      ensures old(OwnedByCaller(pid)) ==>
        && r == Redirect(DashboardPage, Some(PatientDeleted))
        && patients == old(patients) - {pid}
        && pid !in patients
        && |patients| == |old(patients)| - 1
    {
      if session.None? {
        return Redirect(LoginPage, None);
      }
      if !InInt64(pid) {
        // the lookup cannot bind the id
        return ServerError;
      }
      if pid !in patients {
        return NotFound;
      }
      var p := patients[pid];
      if p.doctorId != session.value.doctorId {
        return Redirect(DashboardPage, Some(NotAuthorized));
      }
      patients := patients - {pid};
      r := Redirect(DashboardPage, Some(PatientDeleted));
    }
  }
}
