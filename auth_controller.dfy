/** The account endpoints: `register`, `verifyEmail` and `login`, as operations on the `usuario`
    table.  bcrypt's salted hash, the random verification token and `Date.now()` arrive as
    parameters; `bcrypt.compare` is a function parameter. */
module AuthController {
  import opened Wrappers
  import opened Seqs
  import opened Text
  import opened UsuarioModel

  const MsgRegisterRequired := "Nombre, email y contraseña son requeridos"
  const MsgEmailTaken := "El email ya está registrado"
  const MsgRegistered := "Usuario registrado. Por favor verifica tu correo."
  const MsgRegisterFailed := "Error al registrar usuario"
  const MsgInvalidLink := "<h1>Link de verificación inválido o expirado.</h1>"
  const MsgLoginRequired := "Email y contraseña son requeridos"
  const MsgBadCredentials := "Email o contraseña incorrectos"
  const MsgVerifyFirst := "Por favor verifica tu correo antes de iniciar sesión."

  /** The JSON body of a registration; "" stands for a field that is absent or empty, which the
      controller's truthiness tests do not tell apart.  `edad` is a number or absent/null. */
  datatype RegisterBody = RegisterBody(
    nombre_completo: string, email: string, password: string, edad: Option<int>, genero: string)

  /** The user fields the endpoints echo back; there is no field for the password hash. */
  datatype Profile = Profile(
    id: nat, nombre_usuario: string, email: string, nombre_completo: Option<string>,
    edad: Option<int>, genero: Option<string>, rol_activo: Option<Rol>)

  datatype Reply =
    | Registered(profile: Profile, message: string)    // 201
    | LoggedIn(profile: Profile, es_voluntario: bool)  // 200
    | RedirectToApp                                    // 302 to the front end's login page
    | Failure(status: nat, message: string)

  function ProfileOf(u: Usuario): Profile {
    Profile(u.id, u.nombre_usuario, u.email, u.nombre_completo, u.edad, u.genero, u.rol_activo)
  }

  predicate MissingRegisterField(body: RegisterBody) {
    body.nombre_completo == "" || body.email == "" || body.password == ""
  }

  function HasEmail(email: string): Usuario -> bool {
    (u: Usuario) => u.email == email
  }

  function HoldsToken(token: string): Usuario -> bool {
    (u: Usuario) => u.verification_token == Some(token)
  }

  /** The generated user name: the part of the address before the first '@', '_', and the
      registration time in milliseconds. */
  function NombreUsuario(email: string, now: nat): string {
    Before(email, '@') + "_" + DecimalString(now)
  }

  /** With a 13-digit millisecond clock (every instant from September 2001 to the year 2286) the
      generated user name fits its 50-character column exactly when the address's local part has
      at most 36 characters; a longer one makes the insert, and so the registration, fail. */
  lemma NombreUsuarioFits(email: string, now: nat)
    requires Pow10(12) <= now < Pow10(13)
    ensures |NombreUsuario(email, now)| <= MaxNombreUsuario <==> |Before(email, '@')| <= 36
  {
    DecimalStringLength(now, 13);
  }

  /** The row `register` inserts: defaults made explicit, `edad || null` and `genero || null`. */
  function NewUsuario(body: RegisterBody, id: nat, now: nat, passwordHash: string, token: string): Usuario {
    Usuario(
      id := id,
      nombre_usuario := NombreUsuario(body.email, now),
      email := body.email,
      password_hash := passwordHash,
      nombre_completo := Some(body.nombre_completo),
      es_voluntario := false,
      telefono := None,
      edad := if body.edad == Some(0) then None else body.edad,
      genero := if body.genero == "" then None else Some(body.genero),
      rol_activo := None,
      fecha_registro := now,
      email_verified := Some(false),
      verification_token := Some(token))
  }

  /** The row after its address is verified. */
  function MarkVerified(u: Usuario): Usuario {
    u.(email_verified := Some(true), verification_token := None)
  }

  /** The table after `verifyEmail(token)`, or `None` when no row holds the token. */
  function Verify(users: seq<Usuario>, token: string): (r: Option<seq<Usuario>>)
    ensures r.None? <==> forall i :: 0 <= i < |users| ==> users[i].verification_token != Some(token)
    ensures r.Some? ==>
      exists i :: 0 <= i < |users| && users[i].verification_token == Some(token)
        && r.value == users[i := MarkVerified(users[i])]
  {
    match IndexWhere(users, HoldsToken(token))
    case None => None
    case Some(i) => Some(users[i := MarkVerified(users[i])])
  }

  /** Verification changes no key and no length-limited value except by clearing it, so the
      database always accepts the save. */
  lemma VerifyKeepsValid(users: seq<Usuario>, token: string)
    requires ValidTable(users)
    ensures Verify(users, token).Some? ==> ValidTable(Verify(users, token).value)
  {
    if Verify(users, token).Some? {
      var i :| 0 <= i < |users| && users[i].verification_token == Some(token)
        && Verify(users, token).value == users[i := MarkVerified(users[i])];
      var after := users[i := MarkVerified(users[i])];
      forall j, k | 0 <= j < k < |after|
        ensures Distinct(after[j], after[k])
      {
        assert Distinct(users[j], users[k]);
      }
    }
  }

  /** A token held by one row is single-use: once it has verified that row, presenting it again
      is rejected. */
  lemma TokenSingleUse(users: seq<Usuario>, token: string)
    requires forall i, j ::
      (0 <= i < |users| && 0 <= j < |users| &&
       users[i].verification_token == Some(token) && users[j].verification_token == Some(token)) ==> i == j
    ensures Verify(users, token).Some? ==> Verify(Verify(users, token).value, token).None?
  {
    if Verify(users, token).Some? {
      var i :| 0 <= i < |users| && users[i].verification_token == Some(token)
        && Verify(users, token).value == users[i := MarkVerified(users[i])];
      var after := users[i := MarkVerified(users[i])];
      forall j | 0 <= j < |after|
        ensures after[j].verification_token != Some(token)
      {
        if j != i {
          assert users[j].verification_token != Some(token);
        }
      }
    }
  }

  class UserTable {
    var users: seq<Usuario>
    var nextId: nat  // the table's auto-increment counter

    ghost predicate Valid()
      reads this
    {
      && ValidTable(users)
      && 1 <= nextId
      && forall i :: 0 <= i < |users| ==> users[i].id < nextId
    }

    constructor ()
      ensures Valid() && users == [] && nextId == 1
    {
      users := [];
      nextId := 1;
    }

    /** `POST /auth/register`. */
    method Register(body: RegisterBody, now: nat, passwordHash: string, token: string) returns (reply: Reply)
      requires Valid()
      modifies this
      ensures Valid()
      ensures MissingRegisterField(body) ==> reply == Failure(400, MsgRegisterRequired)
      ensures !MissingRegisterField(body) && IndexWhere(old(users), HasEmail(body.email)).Some? ==>
        reply == Failure(400, MsgEmailTaken)
      ensures !MissingRegisterField(body) && IndexWhere(old(users), HasEmail(body.email)).None? ==>
        var u := NewUsuario(body, old(nextId), now, passwordHash, token);
        if Insert(old(users), u).Some? then
          reply == Registered(ProfileOf(u), MsgRegistered) && users == old(users) + [u] && nextId == old(nextId) + 1
        else
          reply == Failure(500, MsgRegisterFailed)
      ensures reply.Failure? ==> users == old(users) && nextId == old(nextId)
    {
      if MissingRegisterField(body) {
        return Failure(400, MsgRegisterRequired);
      }
      if IndexWhere(users, HasEmail(body.email)).Some? {
        return Failure(400, MsgEmailTaken);
      }
      var u := NewUsuario(body, nextId, now, passwordHash, token);
      var inserted := Insert(users, u);
      if inserted.None? {
        return Failure(500, MsgRegisterFailed);
      }
      users := inserted.value;
      nextId := nextId + 1;
      reply := Registered(ProfileOf(u), MsgRegistered);
    }

    /** `GET /auth/verify/:token`. */
    method VerifyEmail(token: string) returns (reply: Reply)
      requires Valid()
      modifies this
      ensures Valid() && nextId == old(nextId)
      ensures Verify(old(users), token).None? ==> reply == Failure(400, MsgInvalidLink) && users == old(users)
      ensures Verify(old(users), token).Some? ==> reply == RedirectToApp && users == Verify(old(users), token).value
    {
      var verified := Verify(users, token);
      if verified.None? {
        return Failure(400, MsgInvalidLink);
      }
      VerifyKeepsValid(users, token);
      users := verified.value;
      reply := RedirectToApp;
    }

    /** `POST /auth/login`: the outcomes in the order the controller tests them.  It changes
        nothing, and its success reply carries no password hash. */
    method Login(email: string, password: string, compare: (string, string) -> bool) returns (reply: Reply)
      requires Valid()
      ensures email == "" || password == "" ==> reply == Failure(400, MsgLoginRequired)
      ensures email != "" && password != "" && (forall i :: 0 <= i < |users| ==> users[i].email != email) ==>
        reply == Failure(401, MsgBadCredentials)
      ensures forall i :: 0 <= i < |users| && users[i].email == email && email != "" && password != "" ==>
        if !compare(password, users[i].password_hash) then reply == Failure(401, MsgBadCredentials)
        else if users[i].email_verified != Some(true) then reply == Failure(403, MsgVerifyFirst)
        else reply == LoggedIn(ProfileOf(users[i]), users[i].es_voluntario)
    {
      if email == "" || password == "" {
        return Failure(400, MsgLoginRequired);
      }
      var found := IndexWhere(users, HasEmail(email));
      if found.None? {
        return Failure(401, MsgBadCredentials);
      }
      var u := users[found.value];
      forall i | 0 <= i < |users| && users[i].email == email
        ensures i == found.value
      {
        EmailIdentifiesRow(users, i, found.value);
      }
      if !compare(password, u.password_hash) {
        return Failure(401, MsgBadCredentials);
      }
      if u.email_verified != Some(true) {
        return Failure(403, MsgVerifyFirst);
      }
      reply := LoggedIn(ProfileOf(u), u.es_voluntario);
    }
  }
}
