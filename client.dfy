/** The React client (`App` in App.tsx): the state it keeps and the handlers that change it.
    A handler that calls the back end is given the server's table and calls the controller's
    operation on it, so its contract ties the page and the table together.  What the browser
    does besides (alerts, `localStorage`, rendering) is not modelled. */
module Client {
  import opened Wrappers
  import opened Seqs
  import opened Text
  import opened UsuarioModel
  import AuthController
  import opened TrayectoController
  import opened HelpRequests
  import opened Engagement

  datatype AuthStep = RegisterStep | LoginStep | SelectRoleStep | DashboardStep

  /** The profile kept once a role is chosen.  Its `type` field follows from the role. */
  datatype UserProfile = UserProfile(
    id: nat, name: string, email: string, gender: string, age: string, rol_activo: Rol)

  datatype LoginForm = LoginForm(email: string, password: string)

  const MsgAlreadyRegistered := "Este correo ya está registrado. Por favor inicia sesión."
  const MsgWrongCredentials := "Contraseña o correo incorrectos"

  /** How `handleLogin` refills the register form from the login reply: missing fields become
      empty, the age is printed back as a numeral, and the password is never kept. */
  function FormOfProfile(p: AuthController.Profile): (f: RegisterForm)
    ensures f.nombre_completo == (if p.nombre_completo.Some? then p.nombre_completo.value else "")
    ensures f.email == p.email
    ensures f.genero == (if p.genero.Some? then p.genero.value else "")
    ensures f.password == ""
    ensures p.edad.Some? ==> ParseInt(f.edad) == p.edad
    ensures p.edad.None? ==> f.edad == ""
  {
    ParseIntString(if p.edad.Some? then p.edad.value else 0);
    RegisterForm(
      p.nombre_completo.GetOr(""), p.email, "",
      if p.edad.Some? then IntString(p.edad.value) else "",
      p.genero.GetOr(""))
  }

  class App {
    var userProfile: Option<UserProfile>
    var authStep: AuthStep
    var registerForm: RegisterForm
    var loginForm: LoginForm
    var loginError: Option<string>
    var registerError: Option<string>
    var tempUserId: Option<nat>
    var helpRequests: seq<HelpRequest>
    var myRequests: seq<HelpRequest>
    var myHelps: seq<HelpRequest>
    var showRequestForm: bool
    var requestData: RequestData
    var selectedLocationId: Option<string>

    /** `userProfile?.id`, with 0 for no profile: both are falsy to the handlers' guards. */
    function Uid(): nat
      reads this`userProfile
    {
      if userProfile.Some? then userProfile.value.id else 0
    }

    function UserId(): Option<nat>
      reads this`userProfile
    {
      if userProfile.Some? then Some(userProfile.value.id) else None
    }

    /** What `createHelpRequest` would send now, if anything. */
    function RequestBody(nowIso: string): Option<TrayectoBody>
      reads this`userProfile, this`selectedLocationId, this`requestData
    {
      NewRequestBody(UserId(), selectedLocationId, requestData, nowIso)
    }

    /** The lists show the table as it now is: all requests, and, for a logged-in user, their
        own requests and helps. */
    ghost predicate Fresh(store: TrayectoTable)
      reads this`userProfile, this`helpRequests, this`myRequests, this`myHelps, store`rows
    {
      && helpRequests == ToHelpRequests(store.rows)
      && (Uid() != 0 ==>
            myRequests == MyRequests(helpRequests, Uid()) && myHelps == MyHelps(helpRequests, Uid()))
    }

    /** The first render, with the profile `localStorage` held, if any: a saved profile goes
        straight to the dashboard, and, since a profile is then set, the lists are loaded. */
    constructor (saved: Option<UserProfile>, store: TrayectoTable)
      requires store.Valid()
      ensures userProfile == saved && authStep == if saved.Some? then DashboardStep else RegisterStep
      ensures registerForm == EmptyRegisterForm && loginForm == LoginForm("", "")
      ensures loginError == None && registerError == None && tempUserId == None
      ensures saved.None? ==> helpRequests == [] && myRequests == [] && myHelps == []
      ensures saved.Some? ==> Fresh(store)
      ensures !showRequestForm && requestData == EmptyRequestData && selectedLocationId == None
    {
      userProfile := saved;
      authStep := if saved.Some? then DashboardStep else RegisterStep;
      registerForm := EmptyRegisterForm;
      loginForm := LoginForm("", "");
      loginError := None;
      registerError := None;
      tempUserId := None;
      helpRequests := [];
      myRequests := [];
      myHelps := [];
      showRequestForm := false;
      requestData := EmptyRequestData;
      selectedLocationId := None;
      new;
      if saved.Some? {
        LoadTrayectos(store);
      }
    }

    /** `loadTrayectos`: every request is listed; the user's own lists are refreshed only when
        there is a user id. */
    method LoadTrayectos(store: TrayectoTable)
      requires store.Valid()
      modifies this`helpRequests, this`myRequests, this`myHelps
      ensures Fresh(store)
      ensures Uid() == 0 ==> myRequests == old(myRequests) && myHelps == old(myHelps)
    {
      var mapped := ToHelpRequests(store.FindAll().trayectos);
      helpRequests := mapped;
      if userProfile.Some? && userProfile.value.id != 0 {
        myRequests := MyRequests(mapped, userProfile.value.id);
        myHelps := MyHelps(mapped, userProfile.value.id);
      }
    }

    /** `handleRegister`: the form's own checks, then `POST /auth/register`.  A 400 from the
        server can only mean the address is taken (the form checks already rule out the
        missing-field 400), and it is reported as such; a created user moves the page to the
        role choice.  On any error the page stays and the user table is unchanged. */
    method HandleRegister(auth: AuthController.UserTable, now: nat, passwordHash: string, token: string)
      requires auth.Valid()
      modifies this`registerError, this`tempUserId, this`authStep, auth
      ensures auth.Valid()
      ensures registerError.Some? ==>
        && tempUserId == old(tempUserId) && authStep == old(authStep)
        && auth.users == old(auth.users) && auth.nextId == old(auth.nextId)
      ensures RegisterFormError(registerForm).Some? ==> registerError == RegisterFormError(registerForm)
      ensures RegisterFormError(registerForm).None? ==>
        var body := RegisterBodyOf(registerForm);
        var u := AuthController.NewUsuario(body, old(auth.nextId), now, passwordHash, token);
        if IndexWhere(old(auth.users), AuthController.HasEmail(body.email)).Some? then
          registerError == Some(MsgAlreadyRegistered)
        else if Insert(old(auth.users), u).Some? then
          && registerError == None && tempUserId == Some(u.id) && authStep == SelectRoleStep
          && auth.users == old(auth.users) + [u] && auth.nextId == old(auth.nextId) + 1
        else
          registerError == Some(AuthController.MsgRegisterFailed)
    {
      registerError := None;
      var formError := RegisterFormError(registerForm);
      if formError.Some? {
        registerError := formError;
        return;
      }
      ClientCheckCoversServerCheck(registerForm);
      var reply := auth.Register(RegisterBodyOf(registerForm), now, passwordHash, token);
      match reply
      case Registered(profile, _) =>
        tempUserId := Some(profile.id);
        authStep := SelectRoleStep;
      case Failure(status, message) =>
        if status == 400 {
          registerError := Some(MsgAlreadyRegistered);
        } else {
          registerError := Some(message);
        }
      case LoggedIn(_, _) =>
      case RedirectToApp =>
    }

    /** `handleLogin`: both fields filled, then `POST /auth/login`.  Unknown address and wrong
        password read alike; an unverified account gets the server's message; a successful login
        refills the register form from the reply and moves to the role choice.  On any error
        only the message changes. */
    method HandleLogin(auth: AuthController.UserTable, compare: (string, string) -> bool)
      requires auth.Valid()
      modifies this`loginError, this`tempUserId, this`registerForm, this`authStep
      ensures loginError.Some? ==>
        tempUserId == old(tempUserId) && registerForm == old(registerForm) && authStep == old(authStep)
      ensures loginForm.email == "" || loginForm.password == "" ==> loginError == Some(MsgFillAll)
      ensures loginForm.email != "" && loginForm.password != "" &&
              (forall i :: 0 <= i < |auth.users| ==> auth.users[i].email != loginForm.email) ==>
        loginError == Some(MsgWrongCredentials)
      ensures forall i :: 0 <= i < |auth.users| && auth.users[i].email == loginForm.email &&
                          loginForm.email != "" && loginForm.password != "" ==>
        var u := auth.users[i];
        if !compare(loginForm.password, u.password_hash) then
          loginError == Some(MsgWrongCredentials)
        else if u.email_verified != Some(true) then
          loginError == Some(AuthController.MsgVerifyFirst)
        else
          && loginError == None && tempUserId == Some(u.id) && authStep == SelectRoleStep
          && registerForm == FormOfProfile(AuthController.ProfileOf(u))
    {
      loginError := None;
      if loginForm.email == "" || loginForm.password == "" {
        loginError := Some(MsgFillAll);
        return;
      }
      var reply := auth.Login(loginForm.email, loginForm.password, compare);
      match reply
      case LoggedIn(profile, _) =>
        tempUserId := Some(profile.id);
        registerForm := FormOfProfile(profile);
        authStep := SelectRoleStep;
      case Failure(status, message) =>
        if status == 401 || status == 404 {
          loginError := Some(MsgWrongCredentials);
        } else {
          loginError := Some(message);
        }
      case Registered(_, _) =>
      case RedirectToApp =>
    }

    /** `handleSelectRole`: with a pending user id, the role is saved on the server (a call
        outside this model; `saved` says whether it returned) and the profile is built from the
        register form.  Setting the profile makes the client reload the lists. */
    method HandleSelectRole(rol: Rol, saved: bool, store: TrayectoTable)
      requires store.Valid()
      modifies this`userProfile, this`authStep, this`helpRequests, this`myRequests, this`myHelps
      ensures tempUserId.None? || tempUserId.value == 0 || !saved ==>
        && userProfile == old(userProfile) && authStep == old(authStep)
        && helpRequests == old(helpRequests) && myRequests == old(myRequests) && myHelps == old(myHelps)
      ensures tempUserId.Some? && tempUserId.value != 0 && saved ==>
        && userProfile == Some(UserProfile(tempUserId.value, registerForm.nombre_completo, registerForm.email,
                                           registerForm.genero, registerForm.edad, rol))
        && authStep == DashboardStep
        && Fresh(store)
    {
      if tempUserId.None? || tempUserId.value == 0 || !saved {
        return;
      }
      userProfile := Some(UserProfile(tempUserId.value, registerForm.nombre_completo, registerForm.email,
                                      registerForm.genero, registerForm.edad, rol));
      authStep := DashboardStep;
      LoadTrayectos(store);
    }

    /** `switchRole`: back to the role choice, with the form refilled from the profile. */
    method SwitchRole()
      modifies this`tempUserId, this`registerForm, this`authStep
      ensures userProfile.None? ==>
        tempUserId == old(tempUserId) && registerForm == old(registerForm) && authStep == old(authStep)
      ensures userProfile.Some? ==>
        var p := userProfile.value;
        && tempUserId == Some(p.id)
        && registerForm == RegisterForm(p.name, p.email, "", p.age, p.gender)
        && authStep == SelectRoleStep
    {
      if userProfile.Some? {
        var p := userProfile.value;
        tempUserId := Some(p.id);
        registerForm := RegisterForm(p.name, p.email, "", p.age, p.gender);
        authStep := SelectRoleStep;
      }
    }

    /** `createHelpRequest`: when the form is complete the request is created pending, the lists
        are reloaded and the form is reset; otherwise nothing happens.  `users` is what the
        controller reads to address the notice.  On the table this is the client step
        `CreateRequest`, so the single-engagement rule is kept. */
    method CreateHelpRequest(store: TrayectoTable, users: seq<Usuario>, now: nat, nowIso: string,
                             usersUnavailable: bool)
      requires store.Valid()
      modifies this`helpRequests, this`myRequests, this`myHelps
      modifies this`requestData, this`selectedLocationId, this`showRequestForm, store
      ensures store.Valid()
      ensures old(RequestBody(nowIso)).None? ==>
        && store.rows == old(store.rows) && store.nextId == old(store.nextId)
        && helpRequests == old(helpRequests) && myRequests == old(myRequests) && myHelps == old(myHelps)
        && requestData == old(requestData) && selectedLocationId == old(selectedLocationId)
        && showRequestForm == old(showRequestForm)
      ensures old(RequestBody(nowIso)).Some? ==>
        && store.rows == old(store.rows) + [FromBody(old(RequestBody(nowIso)).value, old(store.nextId), now)]
        && store.nextId == old(store.nextId) + 1
        && Fresh(store)
        && requestData == EmptyRequestData && selectedLocationId == None && !showRequestForm
      ensures Table(store.rows, store.nextId) ==
        Step(Table(old(store.rows), old(store.nextId)),
             CreateRequest(UserId(), old(selectedLocationId), old(requestData), nowIso, now))
      ensures SingleEngagement(old(store.rows)) ==> SingleEngagement(store.rows)
    {
      CreateStep(Table(store.rows, store.nextId), UserId(), selectedLocationId, requestData, nowIso, now);
      var body := RequestBody(nowIso);
      if body.Some? {
        SubmitRequest(store, users, body.value, now, usersUnavailable);
      }
    }

    /** The part of `createHelpRequest` after its checks: create, reload, reset the form. */
    method SubmitRequest(store: TrayectoTable, users: seq<Usuario>, body: TrayectoBody, now: nat,
                         usersUnavailable: bool)
      requires store.Valid()
      modifies this`helpRequests, this`myRequests, this`myHelps
      modifies this`requestData, this`selectedLocationId, this`showRequestForm, store
      ensures store.Valid()
      ensures store.rows == old(store.rows) + [FromBody(body, old(store.nextId), now)]
      ensures store.nextId == old(store.nextId) + 1
      ensures Fresh(store)
      ensures requestData == EmptyRequestData && selectedLocationId == None && !showRequestForm
    {
      var reply, notice := store.CreateTrayecto(body, now, users, usersUnavailable);
      LoadTrayectos(store);
      requestData := EmptyRequestData;
      selectedLocationId := None;
      showRequestForm := false;
    }

    /** `acceptHelp`: nothing without a user id, nor while the loaded "my helps" hold an accepted
        request; otherwise the request gets the state and the volunteer, and the lists are
        reloaded.  On lists that were fresh this is the client step `AcceptHelp`, which keeps the
        single-engagement rule. */
    method AcceptHelp(store: TrayectoTable, requestId: nat)
      requires store.Valid()
      modifies this`helpRequests, this`myRequests, this`myHelps, store
      ensures store.Valid() && store.nextId == old(store.nextId)
      ensures Uid() == 0 || HasActiveHelp(old(myHelps)) ==>
        && store.rows == old(store.rows)
        && helpRequests == old(helpRequests) && myRequests == old(myRequests) && myHelps == old(myHelps)
      ensures Uid() != 0 && !HasActiveHelp(old(myHelps)) ==>
        store.rows == UpdateWhere(old(store.rows), requestId, AcceptPatch(Uid())) && Fresh(store)
      ensures old(Fresh(store)) ==>
        Table(store.rows, store.nextId) ==
          Step(Table(old(store.rows), old(store.nextId)), Engagement.AcceptHelp(Uid(), requestId))
      ensures old(Fresh(store)) && SingleEngagement(old(store.rows)) ==> SingleEngagement(store.rows)
    {
      AcceptStep(Table(store.rows, store.nextId), Uid(), requestId);
      if userProfile.None? || userProfile.value.id == 0 {
        return;
      }
      if HasActiveHelp(myHelps) {
        return;
      }
      SendUpdate(store, requestId, AcceptPatch(userProfile.value.id));
    }

    /** An update sent from the dashboard, followed by a reload of the lists. */
    method SendUpdate(store: TrayectoTable, requestId: nat, patch: Patch)
      requires store.Valid()
      modifies this`helpRequests, this`myRequests, this`myHelps, store
      ensures store.Valid() && store.nextId == old(store.nextId)
      ensures store.rows == UpdateWhere(old(store.rows), requestId, patch) && Fresh(store)
    {
      var reply := store.UpdateTrayecto(requestId, patch);
      LoadTrayectos(store);
    }

    /** `completeHelp`: the request's state becomes completed, with no check, and the lists are
        reloaded.  On the table this is the client step `CompleteHelp`. */
    method CompleteHelp(store: TrayectoTable, requestId: nat)
      requires store.Valid()
      modifies this`helpRequests, this`myRequests, this`myHelps, store
      ensures store.Valid() && store.nextId == old(store.nextId)
      ensures store.rows == UpdateWhere(old(store.rows), requestId, CompletePatch) && Fresh(store)
      ensures Table(store.rows, store.nextId) ==
        Step(Table(old(store.rows), old(store.nextId)), Engagement.CompleteHelp(requestId))
      ensures SingleEngagement(old(store.rows)) ==> SingleEngagement(store.rows)
    {
      CompleteStep(Table(store.rows, store.nextId), requestId);
      SendUpdate(store, requestId, CompletePatch);
    }

    /** `logout`: the profile, the pending user id, the three lists and the register form are
        cleared and the page returns to registration. */
    method Logout()
      modifies this`userProfile, this`authStep, this`registerForm, this`tempUserId
      modifies this`helpRequests, this`myRequests, this`myHelps
      ensures userProfile == None && authStep == RegisterStep && registerForm == EmptyRegisterForm
      ensures tempUserId == None && helpRequests == [] && myRequests == [] && myHelps == []
    {
      userProfile := None;
      authStep := RegisterStep;
      registerForm := EmptyRegisterForm;
      tempUserId := None;
      helpRequests := [];
      myRequests := [];
      myHelps := [];
    }
  }
}
