/** The client's pure logic: how a loaded `trayecto` becomes a help request on screen, the lists
    the dashboards show, the category labels, and what the forms must hold before anything is
    sent to the server. */
module HelpRequests {
  import opened Wrappers
  import opened Seqs
  import opened Text
  import opened TrayectoController
  import AuthController

  datatype Status = Pending | Accepted | Completed

  /** The `estado` → status mapping of `loadTrayectos`. */
  function StatusOfEstado(e: Estado): (s: Status)
    ensures s == Accepted <==> e == ACEPTADO
    ensures s == Completed <==> e == COMPLETADO
    ensures s == Pending <==> e == PENDIENTE || e == CANCELADO
  {
    match e
    case ACEPTADO => Accepted
    case COMPLETADO => Completed
    case _ => Pending
  }

  /** A request as the client holds it.  The requester's and volunteer's names, the parsed
      location and the formatted timestamp are display data and are not kept. */
  datatype HelpRequest = HelpRequest(
    id: nat, category: string, description: string, status: Status,
    solicitante_id: nat, voluntario_id: Option<nat>)

  function ToHelpRequest(t: Trayecto): HelpRequest {
    HelpRequest(t.id, t.titulo, t.descripcion, StatusOfEstado(t.estado), t.solicitante_id, t.voluntario_id)
  }

  /** `trayectos.map(...)`: one help request per record, in table order. */
  function ToHelpRequests(rows: seq<Trayecto>): (r: seq<HelpRequest>)
    ensures |r| == |rows|
    ensures forall i :: 0 <= i < |rows| ==> r[i] == ToHelpRequest(rows[i])
  {
    if rows == [] then [] else [ToHelpRequest(rows[0])] + ToHelpRequests(rows[1..])
  }

  function RequestedBy(uid: nat): HelpRequest -> bool {
    (r: HelpRequest) => r.solicitante_id == uid
  }

  function HelpedBy(uid: nat): HelpRequest -> bool {
    (r: HelpRequest) => r.voluntario_id == Some(uid)
  }

  function IsPending(r: HelpRequest): bool {
    r.status == Pending
  }

  function IsAccepted(r: HelpRequest): bool {
    r.status == Accepted
  }

  /** "Mis solicitudes": the loaded requests the user made. */
  function MyRequests(reqs: seq<HelpRequest>, uid: nat): (r: seq<HelpRequest>)
    ensures forall x :: x in r <==> x in reqs && x.solicitante_id == uid
  {
    Filter(reqs, RequestedBy(uid))
  }

  /** "Mis ayudas": the loaded requests the user is the volunteer of. */
  function MyHelps(reqs: seq<HelpRequest>, uid: nat): (r: seq<HelpRequest>)
    ensures forall x :: x in r <==> x in reqs && x.voluntario_id == Some(uid)
  {
    Filter(reqs, HelpedBy(uid))
  }

  /** Both lists keep the order of the loaded list: loading more requests appends to them. */
  lemma MyListsKeepOrder(a: seq<HelpRequest>, b: seq<HelpRequest>, uid: nat)
    ensures MyRequests(a + b, uid) == MyRequests(a, uid) + MyRequests(b, uid)
    ensures MyHelps(a + b, uid) == MyHelps(a, uid) + MyHelps(b, uid)
  {
    FilterAppend(a, b, RequestedBy(uid));
    FilterAppend(a, b, HelpedBy(uid));
  }

  /** The volunteer dashboard's list: every loaded request whose status is pending. */
  function PendingRequests(reqs: seq<HelpRequest>): (r: seq<HelpRequest>)
    ensures forall x :: x in r <==> x in reqs && x.status == Pending
  {
    Filter(reqs, IsPending)
  }

  /** `hasActiveHelp`: one of the volunteer's helps is accepted.  Every accept button on the
      dashboard is disabled exactly when this holds. */
  function HasActiveHelp(myHelps: seq<HelpRequest>): (b: bool)
    ensures b <==> exists h :: h in myHelps && h.status == Accepted
  {
    var active := Filter(myHelps, IsAccepted);
    if |active| > 0 then
      assert active[0] in active;
      true
    else
      false
  }

  /** The helps that show a "complete" button: those whose status is accepted. */
  function CompletableHelps(myHelps: seq<HelpRequest>): (r: seq<HelpRequest>)
    ensures forall x :: x in r <==> x in myHelps && x.status == Accepted
  {
    Filter(myHelps, IsAccepted)
  }

  datatype Category = Category(id: string, name: string, icon: string)

  const HelpCategories: seq<Category> := [
    Category("whatsapp", "WhatsApp", "💬"),
    Category("redes", "Redes Sociales", "📱"),
    Category("correo", "Correo Electrónico", "📧"),
    Category("videollamada", "Videollamada", "📹"),
    Category("cita-previa", "Cita Previa", "📅"),
    Category("documentos", "Documentos", "📄")
  ]

  function CategoryHasId(id: string): Category -> bool {
    (c: Category) => c.id == id
  }

  /** No two catalogued categories share an id (their ids even differ in length). */
  lemma CategoryIdsDistinct()
    ensures forall i, j :: 0 <= i < j < |HelpCategories| ==> HelpCategories[i].id != HelpCategories[j].id
  {
    forall i, j | 0 <= i < j < |HelpCategories|
      ensures |HelpCategories[i].id| != |HelpCategories[j].id|
    {
    }
  }

  /** `getCategoryLabel`: icon, a space and label for a catalogued id; the id itself otherwise. */
  function CategoryLabel(id: string): (r: string)
    ensures forall c :: c in HelpCategories && c.id == id ==> r == c.icon + " " + c.name
    ensures (forall c :: c in HelpCategories ==> c.id != id) ==> r == id
  {
    CategoryIdsDistinct();
    match IndexWhere(HelpCategories, CategoryHasId(id))
    case None => id
    case Some(i) => HelpCategories[i].icon + " " + HelpCategories[i].name
  }

  /** A predefined meeting point; its coordinates are kept as the text the client serialises. */
  datatype Location = Location(id: string, name: string, lat: string, lng: string, icon: string, color: string)

  const PredefinedLocations: seq<Location> := [
    Location("loc1", "Punto Vuela", "36.87617075381733", "-5.045460278303508", "🏢", "blue")
  ]

  function LocationHasId(id: string): Location -> bool {
    (l: Location) => l.id == id
  }

  /** `JSON.stringify(location)`: no field of a predefined location needs escaping. */
  function LocationJson(l: Location): string {
    "{\"id\":\"" + l.id + "\",\"name\":\"" + l.name + "\",\"lat\":" + l.lat + ",\"lng\":" + l.lng
      + ",\"icon\":\"" + l.icon + "\",\"color\":\"" + l.color + "\"}"
  }

  datatype RequestData = RequestData(category: string, description: string)

  const EmptyRequestData := RequestData("", "")

  /** The body `createHelpRequest` sends, or `None` when it sends nothing: it needs a logged-in
      user with a (truthy, so non-zero) id, a selected location, a category and a description, and
      the selected id must name a predefined location. */
  function NewRequestBody(userId: Option<nat>, selected: Option<string>, data: RequestData, nowIso: string)
    : (r: Option<TrayectoBody>)
    ensures r.Some? <==>
      && userId.Some? && userId.value != 0
      && selected.Some? && selected.value != ""
      && data.category != "" && data.description != ""
      && exists l :: l in PredefinedLocations && l.id == selected.value
    ensures r.Some? ==>
      && r.value.estado == PENDIENTE
      && r.value.solicitante_id == userId.value
      && r.value.voluntario_id == None
      && r.value.titulo == data.category
      && r.value.descripcion == data.description
      && r.value.ubicacion_destino == ""
      && r.value.fecha_necesaria == nowIso
      && forall l :: l in PredefinedLocations && l.id == selected.value ==> r.value.ubicacion_origen == LocationJson(l)
  {
    if userId.None? || userId.value == 0 || selected.None? || selected.value == ""
       || data.category == "" || data.description == "" then
      None
    else
      match IndexWhere(PredefinedLocations, LocationHasId(selected.value))
      case None => None
      case Some(i) =>
        Some(TrayectoBody(
          solicitante_id := userId.value,
          titulo := data.category,
          descripcion := data.description,
          ubicacion_origen := LocationJson(PredefinedLocations[i]),
          ubicacion_destino := "",
          fecha_necesaria := nowIso,
          estado := PENDIENTE,
          voluntario_id := None))
  }

  /** What `acceptHelp` sends: exactly the state and the volunteer. */
  function AcceptPatch(uid: nat): Patch {
    NoFields.(estado := Some(ACEPTADO), voluntario_id := Some(Some(uid)))
  }

  /** What `completeHelp` sends: the state alone. */
  const CompletePatch: Patch := NoFields.(estado := Some(COMPLETADO))

  /** Accepting sets the state and the volunteer and nothing else; completing sets only the
      state, so the volunteer stays attributed. */
  lemma ClientPatchesEffect(t: Trayecto, uid: nat)
    ensures Merge(t, AcceptPatch(uid)) == t.(estado := ACEPTADO, voluntario_id := Some(uid))
    ensures Merge(t, CompletePatch) == t.(estado := COMPLETADO)
  {
  }

  datatype RegisterForm = RegisterForm(
    nombre_completo: string, email: string, password: string, edad: string, genero: string)

  const EmptyRegisterForm := RegisterForm("", "", "", "", "")

  const MsgFillAll := "Por favor completa todos los campos"
  const MsgDomain := "Solo se permiten correos @gmail.com o @outlook.com"

  predicate AllowedDomain(email: string) {
    EndsWith(ToLower(email), "@gmail.com") || EndsWith(ToLower(email), "@outlook.com")
  }

  /** `handleRegister`'s checks, in order: every field filled, then an address at gmail.com or
      outlook.com in any letter case.  `None` means the form may be sent. */
  function RegisterFormError(f: RegisterForm): (r: Option<string>)
    ensures r == Some(MsgFillAll) <==>
      f.nombre_completo == "" || f.email == "" || f.password == "" || f.edad == "" || f.genero == ""
    ensures r == Some(MsgDomain) <==>
      f.nombre_completo != "" && f.email != "" && f.password != "" && f.edad != "" && f.genero != ""
      && !AllowedDomain(f.email)
    ensures r.None? || r == Some(MsgFillAll) || r == Some(MsgDomain)
  {
    if f.nombre_completo == "" || f.email == "" || f.password == "" || f.edad == "" || f.genero == "" then
      Some(MsgFillAll)
    else if !AllowedDomain(f.email) then
      Some(MsgDomain)
    else
      None
  }

  /** The body `handleRegister` posts: `edad` goes through `parseInt`, and NaN travels as null. */
  function RegisterBodyOf(f: RegisterForm): AuthController.RegisterBody {
    AuthController.RegisterBody(f.nombre_completo, f.email, f.password, ParseInt(f.edad), f.genero)
  }

  /** A form the client lets through never meets the server's missing-field rejection. */
  lemma ClientCheckCoversServerCheck(f: RegisterForm)
    ensures RegisterFormError(f).None? ==> !AuthController.MissingRegisterField(RegisterBodyOf(f))
  {
  }

  /** The domain test ignores letter case. */
  lemma AllowedDomainIgnoresCase(email: string)
    ensures AllowedDomain(ToLower(email)) <==> AllowedDomain(email)
  {
    LowerIdempotent(email);
  }

  lemma {:induction false} LowerIdempotent(s: string)
    ensures ToLower(ToLower(s)) == ToLower(s)
  {
    if s != [] {
      LowerIdempotent(s[1..]);
    }
  }
}
