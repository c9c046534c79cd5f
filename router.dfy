/**
 * The frontend's route table and its navigation guard: a decision on the
 * user's authentication and role and the target route's metadata that either
 * lets the navigation proceed or redirects it.
 */
module Router {
  import opened Optional

  /** A route record: its path, name, `meta.requiresAuth`, `meta.role`, and a redirect if it has one. */
  datatype RouteRecord = RouteRecord(path: string, name: Option<string>, requiresAuth: bool,
                                     role: Option<string>, redirect: Option<string>)

  function Page(path: string, name: string): RouteRecord
  {
    RouteRecord(path, Some(name), false, None, None)
  }

  function Gated(path: string, name: string, role: string): RouteRecord
  {
    RouteRecord(path, Some(name), true, Some(role), None)
  }

  /** The route table, in declaration order: only the root redirects, and every page after `/register` needs sign-in. */
  function Routes(): (r: seq<RouteRecord>)
    ensures |r| == 22
    ensures forall i :: 0 <= i < |r| ==> (r[i].redirect.Some? <==> i == 0)
    ensures forall i :: 3 <= i < |r| ==> r[i].requiresAuth
  {
    [
      RouteRecord("/", None, false, None, Some("/login")),
      Page("/login", "login"),
      Page("/register", "register"),
      Gated("/admin", "admin-dashboard", "ADMIN"),
      Gated("/doctor", "doctor-dashboard", "DOCTOR"),
      Gated("/doctor/schedule", "doctor-schedule", "DOCTOR"),
      Gated("/doctor/appointments", "doctor-appointments", "DOCTOR"),
      Gated("/doctor/treatments", "doctor-treatments", "DOCTOR"),
      Gated("/doctor/treatments/:id", "doctor-treatment-detail", "DOCTOR"),
      Gated("/doctor/profile", "doctor-profile", "DOCTOR"),
      RouteRecord("/doctor/profile/:id", Some("doctor-profile-view"), true, None, None),
      Gated("/patient", "patient-dashboard", "PATIENT"),
      Gated("/patient/appointments", "patient-appointments", "PATIENT"),
      Gated("/patient/treatments", "patient-treatments", "PATIENT"),
      Gated("/patient/profile", "patient-profile", "PATIENT"),
      Gated("/patient/profile/:id", "patient-profile-view", "DOCTOR"),
      Gated("/patient/book", "patient-book-appointment", "PATIENT"),
      Gated("/admin/doctors", "admin-doctors", "ADMIN"),
      Gated("/admin/patients", "admin-patients", "ADMIN"),
      Gated("/admin/departments", "admin-departments", "ADMIN"),
      Gated("/admin/appointments", "admin-appointments", "ADMIN"),
      Gated("/admin/report", "admin-report", "ADMIN")
    ]
  }

  /** The record whose path pattern is `path`, searching in table order. */
  function Lookup(routes: seq<RouteRecord>, path: string): (r: Option<RouteRecord>)
    ensures r.Some? ==> r.value in routes && r.value.path == path
    ensures r.None? ==> forall x :: x in routes ==> x.path != path
  {
    if routes == [] then None
    else if routes[0].path == path then Some(routes[0])
    else Lookup(routes[1..], path)
  }

  /** What the guard tells the router: `next()` or `next(path)`. */
  datatype Navigation = Proceed | RedirectTo(path: string)

  /** The dashboard of each known role. */
  function Dashboard(role: string): Option<string>
  {
    if role == "ADMIN" then Some("/admin")
    else if role == "DOCTOR" then Some("/doctor")
    else if role == "PATIENT" then Some("/patient")
    else None
  }

  /**
   * The guard run before every navigation. `to` is the matched record (None
   * when no route matches); `role` is the signed-in user's role.
   */
  function Guard(to: Option<RouteRecord>, isAuthenticated: bool, role: string): Navigation
  {
    var requiresAuth := to.Some? && to.value.requiresAuth;
    var requiredRole := if to.Some? then to.value.role else None;
    var name := if to.Some? then to.value.name else None;
    if requiresAuth && !isAuthenticated then RedirectTo("/login")
    else if requiresAuth && requiredRole.Some? && role != requiredRole.value then
      RedirectTo(if Dashboard(role).Some? then Dashboard(role).value else "/login")
    else if isAuthenticated && (name == Some("login") || name == Some("register")) then
      RedirectTo(if Dashboard(role).Some? then Dashboard(role).value else "/")
    else Proceed
  }

  predicate KnownRole(role: string)
  {
    role == "ADMIN" || role == "DOCTOR" || role == "PATIENT"
  }

  /**
   * The guard's decision table: a protected route visited signed out goes to
   * the login page; a role mismatch goes to the user's dashboard (the login
   * page for an unknown role); a signed-in user on the login or register page
   * goes to their dashboard (the root for an unknown role); everything else
   * proceeds.
   */
  lemma GuardTable(r: RouteRecord, isAuthenticated: bool, role: string)
    ensures r.requiresAuth && !isAuthenticated ==> Guard(Some(r), isAuthenticated, role) == RedirectTo("/login")
    ensures r.requiresAuth && isAuthenticated && r.role.Some? && r.role.value != role ==>
      Guard(Some(r), isAuthenticated, role) == RedirectTo(if KnownRole(role) then Dashboard(role).value else "/login")
    ensures !r.requiresAuth && isAuthenticated && (r.name == Some("login") || r.name == Some("register")) ==>
      Guard(Some(r), isAuthenticated, role) == RedirectTo(if KnownRole(role) then Dashboard(role).value else "/")
    ensures Guard(Some(r), isAuthenticated, role) == Proceed <==>
      && !(r.requiresAuth && !isAuthenticated)
      && !(r.requiresAuth && r.role.Some? && r.role.value != role)
      && !(isAuthenticated && (r.name == Some("login") || r.name == Some("register")))
  {
  }

  /** A path no route matches is never redirected by the guard. */
  lemma UnmatchedProceeds(isAuthenticated: bool, role: string)
    ensures Guard(None, isAuthenticated, role) == Proceed
  {
  }

  /** Lookup finds the first record with the path. */
  lemma {:induction false} LookupFirst(routes: seq<RouteRecord>, path: string, i: nat)
    requires i < |routes| && routes[i].path == path
    requires forall j :: 0 <= j < i ==> routes[j].path != path
    ensures Lookup(routes, path) == Some(routes[i])
  {
    if i > 0 {
      LookupFirst(routes[1..], path, i - 1);
    }
  }

  /** The public routes and the admin and doctor dashboards open the table. */
  lemma TableStart()
    ensures Routes()[0].path == "/" && Routes()[1].path == "/login" && Routes()[2].path == "/register"
    ensures Routes()[3] == Gated("/admin", "admin-dashboard", "ADMIN")
    ensures Routes()[4] == Gated("/doctor", "doctor-dashboard", "DOCTOR")
  {
  }

  /** The doctor's treatment detail and profile pages follow, before the patient dashboard. */
  lemma TableDoctorPages()
    ensures Routes()[8].path == "/doctor/treatments/:id"
    ensures Routes()[9].path == "/doctor/profile" && Routes()[10].path == "/doctor/profile/:id"
  {
  }

  /** The doctor's work pages come right after the dashboards. */
  lemma TableDoctorWork()
    ensures Routes()[5].path == "/doctor/schedule" && Routes()[6].path == "/doctor/appointments"
    ensures Routes()[7].path == "/doctor/treatments"
  {
  }

  /** The patient's dashboard follows the doctor's pages. */
  lemma TablePatient()
    ensures Routes()[11] == Gated("/patient", "patient-dashboard", "PATIENT")
  {
  }

  /** `/admin` resolves to the ADMIN-gated dashboard. */
  lemma AdminDashboardRoute()
    ensures Lookup(Routes(), "/admin") == Some(Gated("/admin", "admin-dashboard", "ADMIN"))
  {
    TableStart();
    LookupFirst(Routes(), "/admin", 3);
  }

  /** `/doctor` resolves to the DOCTOR-gated dashboard. */
  lemma DoctorDashboardRoute()
    ensures Lookup(Routes(), "/doctor") == Some(Gated("/doctor", "doctor-dashboard", "DOCTOR"))
  {
    TableStart();
    LookupFirst(Routes(), "/doctor", 4);
  }

  /** `/patient` resolves to the PATIENT-gated dashboard. */
  lemma PatientDashboardRoute()
    ensures Lookup(Routes(), "/patient") == Some(Gated("/patient", "patient-dashboard", "PATIENT"))
  {
    TableStart();
    TableDoctorWork();
    TableDoctorPages();
    TablePatient();
    LookupFirst(Routes(), "/patient", 11);
  }

  /** Each known role's dashboard is in the table, gated to that role. */
  lemma DashboardRoutes(role: string)
    requires KnownRole(role)
    ensures Lookup(Routes(), Dashboard(role).value).Some?
    ensures var r := Lookup(Routes(), Dashboard(role).value).value;
      r.requiresAuth && r.role == Some(role) && r.name != Some("login") && r.name != Some("register")
  {
    if role == "ADMIN" {
      AdminDashboardRoute();
    } else if role == "DOCTOR" {
      DoctorDashboardRoute();
    } else {
      PatientDashboardRoute();
    }
  }

  /**
   * Every redirect the guard issues to a signed-in user with a known role
   * lands on a page the guard accepts: one redirect is enough.
   */
  lemma RedirectSettles(to: Option<RouteRecord>, role: string, path: string)
    requires KnownRole(role) && Guard(to, true, role) == RedirectTo(path)
    ensures Guard(Lookup(Routes(), path), true, role) == Proceed
  {
    assert path == Dashboard(role).value;
    DashboardRoutes(role);
    var r := Lookup(Routes(), path).value;
    assert r.requiresAuth && r.role == Some(role);
    assert r.name != Some("login") && r.name != Some("register");
  }

  /**
   * A signed-in user whose role is none of the three known ones is sent from
   * the login page to the root, which redirects back to the login page.
   */
  lemma UnknownRoleLoops(role: string)
    requires !KnownRole(role)
    ensures Guard(Lookup(Routes(), "/login"), true, role) == RedirectTo("/")
    ensures Lookup(Routes(), "/").Some? && Lookup(Routes(), "/").value.redirect == Some("/login")
  {
    assert Routes()[1..][0] == Page("/login", "login");
  }
}
