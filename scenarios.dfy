/**
 * Properties that span several requests, stated as client methods that drive
 * one `Clinic` through a sequence of handlers using only their contracts.
 */
module Scenarios {
  import opened Wrappers
  import opened Text
  import opened Passwords
  import opened Models
  import opened App

  /** Logging out twice leaves the same state and answer as logging out once. */
  method LogoutTwice(c: Clinic) returns (first: Response, second: Response)
    requires c.Valid()
    modifies c`session
    ensures c.Valid()
    ensures first == second && c.session == None
  {
    first := c.Logout();
    var afterFirst := c.session;
    second := c.Logout();
    assert c.session == afterFirst;
  }

  /**
   * A doctor who registers can then log in with the very same form input,
   * and the session then names the new doctor.
   */
  method RegisterThenLogin(c: Clinic, name: string, email: string, password: string, salt: string)
    returns (registered: Response, loggedIn: Response)
    requires c.Valid()
    requires !MissingField(name, email, password)
    requires !EmailTaken(c.doctors, Strip(email))
    modifies c`doctors, c`nextDoctorId, c`session
    ensures c.Valid()
    ensures registered == Redirect(LoginPage, Some(RegistrationSuccessful))
    ensures loggedIn == Redirect(DashboardPage, Some(LoggedIn))
    ensures c.session == Some(Session(old(c.nextDoctorId), Strip(name)))
  {
    registered := c.Register(true, name, email, password, salt);
    var id := old(c.nextDoctorId);
    assert CheckPasswordHash(c.derive, c.doctors[id].password, Strip(password));
    loggedIn := c.Login(true, email, password);
    assert c.session.value.doctorId == id;
  }

  /**
   * With an injective key derivation, after a registration only the
   * registered password logs in under that email.
   */
  method RegisterThenWrongPassword(c: Clinic, name: string, email: string, password: string, salt: string, other: string)
    returns (registered: Response, attempt: Response)
    requires c.Valid()
    requires Injective(c.derive)
    requires !MissingField(name, email, password)
    requires !EmailTaken(c.doctors, Strip(email))
    requires Strip(other) != Strip(password)
    modifies c`doctors, c`nextDoctorId, c`session
    ensures c.Valid()
    ensures attempt == LoginForm(Some(InvalidCredentials))
    ensures c.session == old(c.session)
  {
    registered := c.Register(true, name, email, password, salt);
    CheckOnlyOwnPassword(c.derive, salt, Strip(password), Strip(other));
    attempt := c.Login(true, email, other);
  }

  /** Deleting a patient twice: the second request finds nothing. */
  method DeleteTwice(c: Clinic, pid: nat) returns (first: Response, second: Response)
    requires c.Valid()
    requires c.OwnedByCaller(pid)
    modifies c`patients
    ensures c.Valid()
    ensures first == Redirect(DashboardPage, Some(PatientDeleted))
    ensures second == NotFound
    ensures c.patients == old(c.patients) - {pid}
  {
    first := c.DeletePatient(pid);
    second := c.DeletePatient(pid);
  }

  /**
   * A patient created by the logged-in doctor is listed on that doctor's
   * dashboard straight away, with the fields the form gave.
   */
  method CreateThenList(c: Clinic, form: PatientForm) returns (created: Response, listing: Response)
    requires c.Valid()
    requires c.session.Some?
    requires Storable(form)
    modifies c`patients, c`nextPatientId
    ensures c.Valid()
    ensures created == Redirect(DashboardPage, Some(PatientCreated))
    ensures listing.PatientList?
    ensures Patient(old(c.nextPatientId), c.session.value.doctorId, Strip(form.name), OrNone(form.age), form.gender,
                    form.medicalHistory, OrNone(form.weight), form.lastVisit, Join(form.allergies), form.image) in listing.patients
  {
    created := c.CreatePatient(form);
    assert c.patients[old(c.nextPatientId)] in c.patients.Values;
    listing := c.Dashboard();
  }

  /** A doctor who does not own a patient can neither edit nor delete it. */
  method IntruderRefused(c: Clinic, pid: nat, form: PatientForm) returns (edit: Response, delete: Response)
    requires c.Valid()
    requires c.session.Some? && InInt64(pid) && pid in c.patients && c.patients[pid].doctorId != c.session.value.doctorId
    modifies c`patients
    ensures c.Valid()
    ensures edit == Redirect(DashboardPage, Some(NotAuthorized))
    ensures delete == Redirect(DashboardPage, Some(NotAuthorized))
    ensures c.patients == old(c.patients)
  {
    edit := c.EditPatient(pid, form);
    delete := c.DeletePatient(pid);
  }
}
