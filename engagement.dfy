/** The single-engagement rule: a volunteer is the assigned volunteer of at most one accepted
    request.  Nothing on the server enforces it; the only guard is the client's, which refuses
    to accept while the volunteer's loaded helps include an accepted one.  This module shows that
    the guard keeps the rule when every action is taken on freshly loaded lists, and that neither
    the server's update alone nor the guard on stale lists does. */
module Engagement {
  import opened Wrappers
  import opened Seqs
  import opened TrayectoController
  import opened HelpRequests

  function AcceptedBy(v: nat): Trayecto -> bool {
    (t: Trayecto) => t.estado == ACEPTADO && t.voluntario_id == Some(v)
  }

  /** How many accepted requests have `v` as their volunteer. */
  function ActiveCount(rows: seq<Trayecto>, v: nat): nat {
    |Filter(rows, AcceptedBy(v))|
  }

  ghost predicate SingleEngagement(rows: seq<Trayecto>) {
    forall v :: ActiveCount(rows, v) <= 1
  }

  /** The client's guard, evaluated on lists loaded from `rows`, sees exactly the volunteer's
      accepted requests: it blocks precisely when the volunteer already has one. */
  lemma FreshGuardExact(rows: seq<Trayecto>, uid: nat)
    ensures HasActiveHelp(MyHelps(ToHelpRequests(rows), uid)) <==> ActiveCount(rows, uid) > 0
  {
    var reqs := ToHelpRequests(rows);
    var active := Filter(rows, AcceptedBy(uid));
    if HasActiveHelp(MyHelps(reqs, uid)) {
      var h :| h in MyHelps(reqs, uid) && h.status == Accepted;
      var i :| 0 <= i < |reqs| && reqs[i] == h;
      assert AcceptedBy(uid)(rows[i]);
      assert rows[i] in active;
    }
    if |active| > 0 {
      assert active[0] in active;
      var i :| 0 <= i < |rows| && rows[i] == active[0];
      assert reqs[i] in MyHelps(reqs, uid);
    }
  }

  /** Distinct keys: an update by key touches at most one record. */
  lemma {:induction false} KeyCountAtMostOne(rows: seq<Trayecto>, id: nat)
    requires DistinctKeys(rows)
    ensures |Filter(rows, HasId(id))| <= 1
  {
    if rows != [] {
      if rows[0].id == id {
        FilterAllOrNone(rows[1..], HasId(id));
      } else {
        KeyCountAtMostOne(rows[1..], id);
      }
    }
  }

  /** A guarded accept: when the volunteer holds no accepted request, giving them one more keeps
      the rule, whoever held the target before. */
  lemma AcceptKeepsSingleEngagement(rows: seq<Trayecto>, id: nat, uid: nat)
    requires DistinctKeys(rows) && SingleEngagement(rows)
    requires ActiveCount(rows, uid) == 0
    ensures SingleEngagement(UpdateWhere(rows, id, AcceptPatch(uid)))
  {
    var after := UpdateWhere(rows, id, AcceptPatch(uid));
    forall v
      ensures ActiveCount(after, v) <= 1
    {
      if v == uid {
        FilterCountBound(after, rows, AcceptedBy(uid), HasId(id));
        KeyCountAtMostOne(rows, id);
      } else {
        FilterCountMonotone(after, rows, AcceptedBy(v));
        assert ActiveCount(rows, v) <= 1;
      }
    }
  }

  /** Completing only ever removes an accepted request. */
  lemma CompleteKeepsSingleEngagement(rows: seq<Trayecto>, id: nat)
    requires SingleEngagement(rows)
    ensures SingleEngagement(UpdateWhere(rows, id, CompletePatch))
  {
    var after := UpdateWhere(rows, id, CompletePatch);
    forall v
      ensures ActiveCount(after, v) <= 1
    {
      FilterCountMonotone(after, rows, AcceptedBy(v));
      assert ActiveCount(rows, v) <= 1;
    }
  }

  /** A request the client creates is pending, so it counts against nobody. */
  lemma CreateKeepsSingleEngagement(rows: seq<Trayecto>, t: Trayecto)
    requires SingleEngagement(rows) && t.estado == PENDIENTE
    ensures SingleEngagement(rows + [t])
  {
    forall v
      ensures ActiveCount(rows + [t], v) <= 1
    {
      FilterAppend(rows, [t], AcceptedBy(v));
      assert ActiveCount(rows, v) <= 1;
    }
  }

  /** The `trayecto` table with its auto-increment counter. */
  datatype Table = Table(rows: seq<Trayecto>, nextId: nat)

  /** What a client does from its dashboard; `now` is the server's clock at creation. */
  datatype Action =
    | CreateRequest(userId: Option<nat>, selected: Option<string>, data: RequestData, nowIso: string, now: nat)
    | AcceptHelp(uid: nat, requestId: nat)
    | CompleteHelp(requestId: nat)

  /** The effect on the table of one client action taken on lists freshly loaded from it:
      `createHelpRequest` inserts a pending request when its form is complete, `acceptHelp`
      updates only when the user id is truthy and the guard lets it through, and `completeHelp`
      always updates. */
  function Step(tbl: Table, a: Action): Table {
    match a
    case CreateRequest(userId, selected, data, nowIso, now) =>
      (match NewRequestBody(userId, selected, data, nowIso)
       case None => tbl
       case Some(body) => Table(tbl.rows + [FromBody(body, tbl.nextId, now)], tbl.nextId + 1))
    case AcceptHelp(uid, id) =>
      if uid == 0 || HasActiveHelp(MyHelps(ToHelpRequests(tbl.rows), uid)) then tbl
      else Table(UpdateWhere(tbl.rows, id, AcceptPatch(uid)), tbl.nextId)
    case CompleteHelp(id) =>
      Table(UpdateWhere(tbl.rows, id, CompletePatch), tbl.nextId)
  }

  /** A sequential run: each action sees the table the previous ones left, freshly loaded. */
  function Run(tbl: Table, actions: seq<Action>): Table
    decreases |actions|
  {
    if actions == [] then tbl else Run(Step(tbl, actions[0]), actions[1..])
  }

  lemma StepKeepsInvariants(tbl: Table, a: Action)
    requires ValidRows(tbl.rows, tbl.nextId) && SingleEngagement(tbl.rows)
    ensures ValidRows(Step(tbl, a).rows, Step(tbl, a).nextId) && SingleEngagement(Step(tbl, a).rows)
  {
    match a
    case CreateRequest(userId, selected, data, nowIso, now) =>
      CreateStep(tbl, userId, selected, data, nowIso, now);
    case AcceptHelp(uid, id) =>
      AcceptStep(tbl, uid, id);
    case CompleteHelp(id) =>
      CompleteStep(tbl, id);
  }

  /** The creation step inserts exactly the body the client sends, under a fresh key, and keeps
      the rule. */
  lemma CreateStep(tbl: Table, userId: Option<nat>, selected: Option<string>, data: RequestData, nowIso: string, now: nat)
    requires ValidRows(tbl.rows, tbl.nextId)
    ensures var body := NewRequestBody(userId, selected, data, nowIso);
      Step(tbl, CreateRequest(userId, selected, data, nowIso, now)) ==
        if body.None? then tbl else Table(tbl.rows + [FromBody(body.value, tbl.nextId, now)], tbl.nextId + 1)
    ensures var after := Step(tbl, CreateRequest(userId, selected, data, nowIso, now));
      && ValidRows(after.rows, after.nextId)
      && (SingleEngagement(tbl.rows) ==> SingleEngagement(after.rows))
  {
    var body := NewRequestBody(userId, selected, data, nowIso);
    if body.Some? && SingleEngagement(tbl.rows) {
      CreateKeepsSingleEngagement(tbl.rows, FromBody(body.value, tbl.nextId, now));
    }
  }

  /** The guarded accept step keeps the keys, and keeps the rule on the lists it loaded. */
  lemma AcceptStep(tbl: Table, uid: nat, id: nat)
    requires ValidRows(tbl.rows, tbl.nextId)
    ensures var after := Step(tbl, AcceptHelp(uid, id));
      && ValidRows(after.rows, after.nextId)
      && (SingleEngagement(tbl.rows) ==> SingleEngagement(after.rows))
  {
    UpdateKeepsKeys(tbl.rows, id, AcceptPatch(uid));
    FreshGuardExact(tbl.rows, uid);
    if uid != 0 && ActiveCount(tbl.rows, uid) == 0 && SingleEngagement(tbl.rows) {
      AcceptKeepsSingleEngagement(tbl.rows, id, uid);
    }
  }

  /** The complete step keeps the keys and the rule. */
  lemma CompleteStep(tbl: Table, id: nat)
    requires ValidRows(tbl.rows, tbl.nextId)
    ensures var after := Step(tbl, CompleteHelp(id));
      && ValidRows(after.rows, after.nextId)
      && (SingleEngagement(tbl.rows) ==> SingleEngagement(after.rows))
  {
    UpdateKeepsKeys(tbl.rows, id, CompletePatch);
    if SingleEngagement(tbl.rows) {
      CompleteKeepsSingleEngagement(tbl.rows, id);
    }
  }

  /** In a sequential run of guarded client actions on fresh lists, no volunteer ever holds two
      accepted requests. */
  lemma {:induction false} RunKeepsSingleEngagement(tbl: Table, actions: seq<Action>)
    requires ValidRows(tbl.rows, tbl.nextId) && SingleEngagement(tbl.rows)
    ensures ValidRows(Run(tbl, actions).rows, Run(tbl, actions).nextId)
    ensures SingleEngagement(Run(tbl, actions).rows)
    decreases |actions|
  {
    if actions != [] {
      StepKeepsInvariants(tbl, actions[0]);
      RunKeepsSingleEngagement(Step(tbl, actions[0]), actions[1..]);
    }
  }

  function Request(id: nat, estado: Estado, volunteer: Option<nat>): Trayecto {
    Trayecto(id, 1, "whatsapp", "ayuda", "", "", "", estado, volunteer, 0)
  }

  /** The server's update alone does not keep the rule: volunteer 7 already holds request 1, and
      an unguarded update gives them request 2 as well. */
  lemma ServerUpdateBreaksSingleEngagement()
    ensures var rows := [Request(1, ACEPTADO, Some(7)), Request(2, PENDIENTE, None)];
      SingleEngagement(rows) && !SingleEngagement(UpdateWhere(rows, 2, AcceptPatch(7)))
  {
    var rows := [Request(1, ACEPTADO, Some(7)), Request(2, PENDIENTE, None)];
    forall v
      ensures ActiveCount(rows, v) <= 1
    {
      assert rows == [rows[0]] + [rows[1]];
      FilterAppend([rows[0]], [rows[1]], AcceptedBy(v));
    }
    var after := UpdateWhere(rows, 2, AcceptPatch(7));
    assert after == [rows[0], Request(2, ACEPTADO, Some(7))];
    assert after == [after[0]] + [after[1]];
    FilterAppend([after[0]], [after[1]], AcceptedBy(7));
    assert ActiveCount(after, 7) == 2;
  }

  /** The guard on stale lists does not keep it either: volunteer 7 accepted request 1 after
      their lists were loaded (from another tab, say), the stale "my helps" is empty, and the
      guard lets a second accept through. */
  lemma StaleGuardBreaksSingleEngagement()
    ensures var stale := [Request(1, PENDIENTE, None), Request(2, PENDIENTE, None)];
      var rows := [Request(1, ACEPTADO, Some(7)), Request(2, PENDIENTE, None)];
      && !HasActiveHelp(MyHelps(ToHelpRequests(stale), 7))
      && SingleEngagement(rows)
      && !SingleEngagement(UpdateWhere(rows, 2, AcceptPatch(7)))
  {
    var stale := [Request(1, PENDIENTE, None), Request(2, PENDIENTE, None)];
    FreshGuardExact(stale, 7);
    assert stale == [stale[0]] + [stale[1]];
    FilterAppend([stale[0]], [stale[1]], AcceptedBy(7));
    ServerUpdateBreaksSingleEngagement();
  }

  /** The dashboard offers "accept" only on requests that are pending or cancelled on the server:
      a cancelled request is shown as pending and can be accepted. */
  lemma OfferedAcceptTargets(rows: seq<Trayecto>, r: HelpRequest)
    requires r in PendingRequests(ToHelpRequests(rows))
    ensures exists t :: t in rows && t.id == r.id && (t.estado == PENDIENTE || t.estado == CANCELADO)
  {
    var reqs := ToHelpRequests(rows);
    var i :| 0 <= i < |reqs| && reqs[i] == r;
    assert rows[i] in rows;
  }

  /** "Complete" is offered only on requests that are accepted with the user as volunteer, so
      through the dashboard only the assigned volunteer completes a request. */
  lemma OfferedCompleteIsAssigned(rows: seq<Trayecto>, uid: nat, h: HelpRequest)
    requires h in CompletableHelps(MyHelps(ToHelpRequests(rows), uid))
    ensures exists t :: t in rows && t.id == h.id && t.estado == ACEPTADO && t.voluntario_id == Some(uid)
  {
    var reqs := ToHelpRequests(rows);
    var i :| 0 <= i < |reqs| && reqs[i] == h;
    assert rows[i] in rows;
  }
}
