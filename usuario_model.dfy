/** The `usuario` table as declared by its Sequelize model: one record per account, the column
    types, lengths and nullability, the unique indexes, and the defaults.  Nullable columns are
    `Option`s; non-null ones are plain values. */
module UsuarioModel {
  import opened Wrappers

  /** The ENUM of `rol_activo`. */
  datatype Rol = Voluntario | Solicitante

  datatype Usuario = Usuario(
    id: nat,                           // INTEGER UNSIGNED, primary key, auto-increment
    nombre_usuario: string,            // STRING(50), not null, unique
    email: string,                     // STRING(100), not null, unique
    password_hash: string,             // STRING(255), not null
    nombre_completo: Option<string>,   // STRING(100), nullable
    es_voluntario: bool,               // BOOLEAN, not null, default false
    telefono: Option<string>,          // STRING(20), nullable
    edad: Option<int>,                 // INTEGER, nullable
    genero: Option<string>,            // STRING(20), nullable
    rol_activo: Option<Rol>,           // ENUM('voluntario', 'solicitante'), nullable
    fecha_registro: nat,               // DATE, not null, default NOW
    email_verified: Option<bool>,      // BOOLEAN, default false, nullable (no allowNull: false)
    verification_token: Option<string> // STRING (255), nullable
  )

  const MaxUnsigned: nat := 0xFFFF_FFFF
  const MinInteger: int := -0x8000_0000
  const MaxInteger: int := 0x7FFF_FFFF
  const MaxNombreUsuario: nat := 50
  const MaxEmail: nat := 100
  const MaxPasswordHash: nat := 255
  const MaxNombreCompleto: nat := 100
  const MaxTelefono: nat := 20
  const MaxGenero: nat := 20
  const MaxVarchar: nat := 255

  predicate FitsLength(s: Option<string>, max: nat) {
    s.None? || |s.value| <= max
  }

  /** Every column value fits the column's type. */
  predicate FitsColumns(u: Usuario) {
    && 1 <= u.id <= MaxUnsigned
    && |u.nombre_usuario| <= MaxNombreUsuario
    && |u.email| <= MaxEmail
    && |u.password_hash| <= MaxPasswordHash
    && FitsLength(u.nombre_completo, MaxNombreCompleto)
    && FitsLength(u.telefono, MaxTelefono)
    && (u.edad.None? || MinInteger <= u.edad.value <= MaxInteger)
    && FitsLength(u.genero, MaxGenero)
    && FitsLength(u.verification_token, MaxVarchar)
  }

  /** The primary key and the two unique indexes (`nombre_usuario`, `email`) tell rows apart. */
  predicate Distinct(u: Usuario, v: Usuario) {
    u.id != v.id && u.nombre_usuario != v.nombre_usuario && u.email != v.email
  }

  predicate ValidTable(users: seq<Usuario>) {
    && (forall i :: 0 <= i < |users| ==> FitsColumns(users[i]))
    && (forall i, j :: 0 <= i < j < |users| ==> Distinct(users[i], users[j]))
  }

  /** `Usuario.create`: the database accepts the row exactly when it fits its columns and clashes
      with no existing row on a key; otherwise the insert fails and the table is unchanged. */
  function Insert(users: seq<Usuario>, u: Usuario): (r: Option<seq<Usuario>>)
    ensures r.Some? <==> FitsColumns(u) && forall i :: 0 <= i < |users| ==> Distinct(users[i], u)
    ensures r.Some? ==> r.value == users + [u]
    ensures r.Some? && ValidTable(users) ==> ValidTable(r.value)
  {
    if FitsColumns(u) && forall i :: 0 <= i < |users| ==> Distinct(users[i], u) then
      Some(users + [u])
    else
      None
  }

  /** In a valid table an e-mail address identifies at most one row. */
  lemma EmailIdentifiesRow(users: seq<Usuario>, i: nat, j: nat)
    requires ValidTable(users) && i < |users| && j < |users|
    ensures users[i].email == users[j].email ==> i == j
  {
    if i < j {
      assert Distinct(users[i], users[j]);
    } else if j < i {
      assert Distinct(users[j], users[i]);
    }
  }
}
