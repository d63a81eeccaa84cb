/** The help-request ("trayecto") endpoints: create (with the new-request notification), find one,
    find all and update, over an in-memory `trayecto` table.  The server applies whatever fields
    it is sent: it checks neither the current `estado` nor who is asking. */
module TrayectoController {
  import opened Wrappers
  import opened Seqs
  import opened UsuarioModel

  /** The values of `estado` the client knows. */
  datatype Estado = PENDIENTE | ACEPTADO | COMPLETADO | CANCELADO

  /** The JSON body of `POST /trayectos`. */
  datatype TrayectoBody = TrayectoBody(
    solicitante_id: nat, titulo: string, descripcion: string, ubicacion_origen: string,
    ubicacion_destino: string, fecha_necesaria: string, estado: Estado, voluntario_id: Option<nat>)

  datatype Trayecto = Trayecto(
    id: nat, solicitante_id: nat, titulo: string, descripcion: string, ubicacion_origen: string,
    ubicacion_destino: string, fecha_necesaria: string, estado: Estado, voluntario_id: Option<nat>,
    fecha_creacion: nat)

  /** The JSON body of `PUT /trayectos/:id`: each field is either supplied (`Some`) or absent.
      `voluntario_id` may be supplied as null, hence the nested `Option`. */
  datatype Patch = Patch(
    solicitante_id: Option<nat>, titulo: Option<string>, descripcion: Option<string>,
    ubicacion_origen: Option<string>, ubicacion_destino: Option<string>,
    fecha_necesaria: Option<string>, estado: Option<Estado>, voluntario_id: Option<Option<nat>>)

  const NoFields := Patch(None, None, None, None, None, None, None, None)

  /** The e-mail a new request is announced with. */
  datatype Notice = Notice(trayecto: Trayecto, recipients: seq<string>)

  datatype Reply =
    | Found(trayecto: Trayecto)          // 200
    | Created(trayecto: Trayecto)        // 201
    | Listed(trayectos: seq<Trayecto>)   // 200
    | NotFound(message: string)          // 404

  const MsgNotFound := "Journey not found"

  function StatusOf(r: Reply): nat {
    match r
    case Found(_) => 200
    case Created(_) => 201
    case Listed(_) => 200
    case NotFound(_) => 404
  }

  function HasId(id: nat): Trayecto -> bool {
    (t: Trayecto) => t.id == id
  }

  /** `Trayecto.update(body)` on one record: each supplied field replaces the record's, each absent
      one stays.  A patch carries only the eight columns the client sends, so the key and the
      creation time keep their values. */
  function Merge(t: Trayecto, p: Patch): (r: Trayecto)
    ensures r.id == t.id && r.fecha_creacion == t.fecha_creacion
    ensures r.solicitante_id == if p.solicitante_id.Some? then p.solicitante_id.value else t.solicitante_id
    ensures r.titulo == if p.titulo.Some? then p.titulo.value else t.titulo
    ensures r.descripcion == if p.descripcion.Some? then p.descripcion.value else t.descripcion
    ensures r.ubicacion_origen == if p.ubicacion_origen.Some? then p.ubicacion_origen.value else t.ubicacion_origen
    ensures r.ubicacion_destino == if p.ubicacion_destino.Some? then p.ubicacion_destino.value else t.ubicacion_destino
    ensures r.fecha_necesaria == if p.fecha_necesaria.Some? then p.fecha_necesaria.value else t.fecha_necesaria
    ensures r.estado == if p.estado.Some? then p.estado.value else t.estado
    ensures r.voluntario_id == if p.voluntario_id.Some? then p.voluntario_id.value else t.voluntario_id
  {
    t.(solicitante_id := p.solicitante_id.GetOr(t.solicitante_id),
       titulo := p.titulo.GetOr(t.titulo),
       descripcion := p.descripcion.GetOr(t.descripcion),
       ubicacion_origen := p.ubicacion_origen.GetOr(t.ubicacion_origen),
       ubicacion_destino := p.ubicacion_destino.GetOr(t.ubicacion_destino),
       fecha_necesaria := p.fecha_necesaria.GetOr(t.fecha_necesaria),
       estado := p.estado.GetOr(t.estado),
       voluntario_id := p.voluntario_id.GetOr(t.voluntario_id))
  }

  /** Sending the same update twice has the effect of sending it once, and an update with no
      fields changes nothing. */
  lemma MergeIdempotent(t: Trayecto, p: Patch)
    ensures Merge(Merge(t, p), p) == Merge(t, p)
    ensures Merge(t, NoFields) == t
  {
  }

  /** `UPDATE trayecto SET ... WHERE id = :id`: every row with that key is merged, the others are
      untouched. */
  function UpdateWhere(rows: seq<Trayecto>, id: nat, p: Patch): (r: seq<Trayecto>)
    ensures |r| == |rows|
    ensures forall i :: 0 <= i < |rows| ==> r[i] == if rows[i].id == id then Merge(rows[i], p) else rows[i]
  {
    if rows == [] then []
    else [if rows[0].id == id then Merge(rows[0], p) else rows[0]] + UpdateWhere(rows[1..], id, p)
  }

  /** The record `Trayecto.create(body)` stores. */
  function FromBody(body: TrayectoBody, id: nat, now: nat): Trayecto {
    Trayecto(id, body.solicitante_id, body.titulo, body.descripcion, body.ubicacion_origen,
             body.ubicacion_destino, body.fecha_necesaria, body.estado, body.voluntario_id, now)
  }

  function Emails(users: seq<Usuario>): (r: seq<string>)
    ensures |r| == |users| && forall i :: 0 <= i < |users| ==> r[i] == users[i].email
  {
    if users == [] then [] else [users[0].email] + Emails(users[1..])
  }

  function NonEmpty(s: string): bool {
    s != ""
  }

  /** `users.map(u => u.email).filter(email => email)`: every user's address, empty ones dropped. */
  function Recipients(users: seq<Usuario>): seq<string> {
    Filter(Emails(users), NonEmpty)
  }

  /** The recipients are exactly the non-empty addresses of the user table; in particular the
      requester's own address is among them. */
  lemma RecipientsExact(users: seq<Usuario>, x: string)
    ensures x in Recipients(users) <==> x != "" && exists i :: 0 <= i < |users| && users[i].email == x
  {
    var emails := Emails(users);
    if x != "" && exists i :: 0 <= i < |users| && users[i].email == x {
      var i :| 0 <= i < |users| && users[i].email == x;
      assert emails[i] == x;
    }
  }

  /** The recipients keep the table's order: a longer table announces to the same addresses first. */
  lemma RecipientsAppend(a: seq<Usuario>, b: seq<Usuario>)
    ensures Recipients(a + b) == Recipients(a) + Recipients(b)
  {
    EmailsAppend(a, b);
    FilterAppend(Emails(a), Emails(b), NonEmpty);
  }

  lemma EmailsAppend(a: seq<Usuario>, b: seq<Usuario>)
    ensures Emails(a + b) == Emails(a) + Emails(b)
  {
    var joined, parts := Emails(a + b), Emails(a) + Emails(b);
    forall i | 0 <= i < |joined|
      ensures joined[i] == parts[i]
    {
      if i < |a| {
        assert (a + b)[i] == a[i];
      } else {
        assert (a + b)[i] == b[i - |a|];
      }
    }
  }

  /** Changing only the non-key fields of rows keeps the position findOne picks for any key. */
  lemma {:induction false} UpdateKeepsIndex(rows: seq<Trayecto>, id: nat, p: Patch, key: nat)
    ensures IndexWhere(UpdateWhere(rows, id, p), HasId(key)) == IndexWhere(rows, HasId(key))
  {
    if rows != [] {
      UpdateKeepsIndex(rows[1..], id, p, key);
      assert UpdateWhere(rows, id, p)[1..] == UpdateWhere(rows[1..], id, p);
    }
  }

  lemma UpdateKeepsKeys(rows: seq<Trayecto>, id: nat, p: Patch)
    ensures |UpdateWhere(rows, id, p)| == |rows|
    ensures forall i :: 0 <= i < |rows| ==> UpdateWhere(rows, id, p)[i].id == rows[i].id
  {
  }

  /** An update whose key matches no record leaves the table as it was. */
  lemma UpdateMissingKey(rows: seq<Trayecto>, id: nat, p: Patch)
    requires IndexWhere(rows, HasId(id)).None?
    ensures UpdateWhere(rows, id, p) == rows
  {
    var r := UpdateWhere(rows, id, p);
    forall i | 0 <= i < |rows|
      ensures r[i] == rows[i]
    {
      assert !HasId(id)(rows[i]);
    }
  }

  /** An update that supplies no field leaves the table as it was. */
  lemma EmptyUpdateChangesNothing(rows: seq<Trayecto>, id: nat)
    ensures UpdateWhere(rows, id, NoFields) == rows
  {
    var r := UpdateWhere(rows, id, NoFields);
    forall i | 0 <= i < |rows|
      ensures r[i] == rows[i]
    {
      MergeIdempotent(rows[i], NoFields);
    }
  }

  predicate DistinctKeys(rows: seq<Trayecto>) {
    forall i, j :: 0 <= i < j < |rows| ==> rows[i].id != rows[j].id
  }

  /** The table's invariant: keys are distinct, positive and below the auto-increment counter. */
  predicate ValidRows(rows: seq<Trayecto>, nextId: nat) {
    && 1 <= nextId
    && (forall i :: 0 <= i < |rows| ==> 1 <= rows[i].id < nextId)
    && DistinctKeys(rows)
  }

  /** With distinct keys, the record findOne picks for a key is the one that has it. */
  lemma KeyedIndex(rows: seq<Trayecto>, k: nat)
    requires DistinctKeys(rows)
    requires k < |rows|
    ensures IndexWhere(rows, HasId(rows[k].id)) == Some(k)
  {
    assert HasId(rows[k].id)(rows[k]);
  }

  class TrayectoTable {
    var rows: seq<Trayecto>
    var nextId: nat  // the table's auto-increment counter

    ghost predicate Valid()
      reads this
    {
      ValidRows(rows, nextId)
    }

    constructor ()
      ensures Valid() && rows == [] && nextId == 1
    {
      rows := [];
      nextId := 1;
    }

    /** `GET /trayectos/:id` (`findByPk`): the record with that key, or 404. */
    function FindOne(id: nat): (r: Reply)
      reads this
      ensures r.Found? || r.NotFound?
      ensures r.NotFound? <==> forall i :: 0 <= i < |rows| ==> rows[i].id != id
      ensures r.Found? ==> r.trayecto in rows && r.trayecto.id == id
    {
      match IndexWhere(rows, HasId(id))
      case None => NotFound(MsgNotFound)
      case Some(i) => Found(rows[i])
    }

    /** `GET /trayectos`: the whole table, in table order; a record is listed exactly when
        `FindOne` returns it for its key. */
    function FindAll(): (r: Reply)
      reads this
      requires Valid()
      ensures r.Listed? && StatusOf(r) == 200
      ensures r.trayectos == rows
      ensures forall t :: t in r.trayectos <==> FindOne(t.id) == Found(t)
    {
      FindAllAgrees();
      Listed(rows)
    }

    lemma FindAllAgrees()
      requires Valid()
      ensures forall t :: t in rows <==> FindOne(t.id) == Found(t)
    {
      forall t | t in rows
        ensures FindOne(t.id) == Found(t)
      {
        var k :| 0 <= k < |rows| && rows[k] == t;
        KeyedIndex(rows, k);
      }
    }

    /** `POST /trayectos`: the body is stored as a new record and echoed with 201.  Every user's
        non-empty address is then notified, unless there is none or the users cannot be read;
        neither case changes the reply. */
    method CreateTrayecto(body: TrayectoBody, now: nat, users: seq<Usuario>, usersUnavailable: bool)
      returns (reply: Reply, notice: Option<Notice>)
      requires Valid()
      modifies this
      ensures Valid()
      ensures rows == old(rows) + [FromBody(body, old(nextId), now)] && nextId == old(nextId) + 1
      ensures reply == Created(FromBody(body, old(nextId), now))
      ensures notice == if usersUnavailable || Recipients(users) == [] then None
                        else Some(Notice(FromBody(body, old(nextId), now), Recipients(users)))
    {
      var t := FromBody(body, nextId, now);
      rows := rows + [t];
      nextId := nextId + 1;
      notice := None;
      if !usersUnavailable {
        var recipients := Recipients(users);
        if |recipients| > 0 {
          notice := Some(Notice(t, recipients));
        }
      }
      reply := Created(t);
    }

    /** `PUT /trayectos/:id`: every supplied field of the record with that key is overwritten,
        whatever its current `estado`; the updated record is returned.  The reply is 404 when no
        record has the key, or when the body supplies no field at all, since Sequelize then runs
        no query and reports no affected row; in both cases nothing changes. */
    method UpdateTrayecto(id: nat, patch: Patch) returns (reply: Reply)
      requires Valid()
      modifies this
      ensures Valid() && nextId == old(nextId)
      ensures rows == UpdateWhere(old(rows), id, patch)
      ensures IndexWhere(old(rows), HasId(id)).None? ==> reply == NotFound(MsgNotFound) && rows == old(rows)
      ensures patch == NoFields ==> reply == NotFound(MsgNotFound) && rows == old(rows)
      ensures IndexWhere(old(rows), HasId(id)).Some? && patch != NoFields ==>
        reply == Found(Merge(old(rows)[IndexWhere(old(rows), HasId(id)).value], patch))
    {
      var updated := if patch == NoFields then 0 else |Filter(rows, HasId(id))|;
      FilterFindsFirst(rows, HasId(id));
      UpdateKeepsIndex(rows, id, patch, id);
      UpdateKeepsKeys(rows, id, patch);
      ghost var before := rows;
      rows := UpdateWhere(rows, id, patch);
      if updated > 0 {
        reply := FindOne(id);
      } else {
        if patch == NoFields {
          EmptyUpdateChangesNothing(before, id);
        } else {
          UpdateMissingKey(before, id, patch);
        }
        reply := NotFound(MsgNotFound);
      }
    }
  }
}
