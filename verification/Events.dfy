/**
  One event at a time (internal/event): validation, authorization, and
  `persistAndApply`, which sequences, stores and executes an event in one
  transaction, or leaves everything as it was.
*/
module Events {
  import opened Common
  import opened Structure

  datatype Role = Owner | Admin | Regular | Viewer | OtherRole(name: string)

  predicate Grantable(r: Role) {
    r in {Admin, Regular, Viewer}
  }

  datatype Member = Member(role: Role, expiresAt: Option<int>)

  /** Members are unique per application and public key. */
  datatype MemberKey = MemberKey(app: string, key: string)

  /** A NULL last_sequence reads as 0. */
  datatype App = App(name: string, lastSequence: nat, deleted: bool)

  datatype Tables = Tables(apps: map<string, App>, members: map<MemberKey, Member>, rows: Rows)

  /** The data of an event, by type; `Passive` stands for the types whose handler changes no row. */
  datatype Body =
    | MemberAdded(key: string, role: Role, expiresAt: Option<int>, displayName: string)
    | MemberRemoved(key: string)
    | MemberRoleChanged(key: string, oldRole: Role, newRole: Role)
    | MemberDetailsChanged(key: string)
    | ApplicationDataChanged(name: string)
    | ApplicationDeleted
    | ApplicationMoved
    | ComponentEdited(componentId: string, changedFields: Option<map<string, FieldChange>>)
    | EditModeChanged(changes: seq<Change>)
    | TemplateChanged(templateId: string, rev: nat)
    | Passive(kind: string)

  function TypeOf(b: Body): string {
    match b
    case MemberAdded(_, _, _, _) => "member_added"
    case MemberRemoved(_) => "member_removed"
    case MemberRoleChanged(_, _, _) => "member_role_changed"
    case MemberDetailsChanged(_) => "member_details_changed"
    case ApplicationDataChanged(_) => "application_data_changed"
    case ApplicationDeleted => "application_deleted"
    case ApplicationMoved => "application_moved"
    case ComponentEdited(_, _) => "component_data_changed"
    case EditModeChanged(_) => "application_after_edit_mode_changed"
    case TemplateChanged(_, _) => "template_changed"
    case Passive(kind) => kind
  }

  /** `app` is None for a user-scoped event. */
  datatype Event = Event(id: string, app: Option<string>, creator: string, body: Body)

  datatype Row = Row(id: string, createdAt: int, app: Option<string>, seqNo: nat, creator: string, body: Body)

  /** The events table is keyed by its ordinal, which the database hands out and never hands out twice. */
  type Log = map<nat, Row>

  datatype Space = Space(tables: Tables, log: Log, nextOrdinal: nat)

  datatype Outcome = Stored(row: Row) | Duplicate(row: Row) | Rejected(error: ExecError)

  predicate ValidEvent(e: Event) {
    && e.id != ""
    && e.creator != ""
    && match e.body
       case MemberAdded(key, role, _, displayName) => key != "" && displayName != "" && Grantable(role)
       case MemberRemoved(key) => key != ""
       case MemberRoleChanged(key, oldRole, newRole) => key != "" && oldRole != OtherRole("") && Grantable(newRole)
       case MemberDetailsChanged(key) => key != ""
       case ApplicationDataChanged(name) => name != ""
       case EditModeChanged(changes) => ValidChanges(changes)
       case TemplateChanged(templateId, _) => templateId != ""
       case _ => true
  }

  // ----- authorization, on a snapshot taken without a lock -----

  predicate Active(m: Member, now: int) {
    m.expiresAt.None? || m.expiresAt.value > now
  }

  /** findMember over the members loaded with the application: only active ones are loaded. */
  function FindMember(t: Tables, app: string, key: string, now: int): Option<Member> {
    var k := MemberKey(app, key);
    if k in t.members && Active(t.members[k], now) then Some(t.members[k]) else None
  }

  predicate Authorized(t: Tables, app: string, submitter: string, b: Body, now: int) {
    var me := FindMember(t, app, submitter, now);
    && app in t.apps && !t.apps[app].deleted
    && me.Some?
    && var canManage := me.value.role in {Owner, Admin};
       match b
       case ApplicationDeleted => me.value.role == Owner
       case MemberRemoved(key) =>
         var target := FindMember(t, app, key, now);
         target.Some? && target.value.role != Owner && (key == submitter || canManage)
       case MemberRoleChanged(key, oldRole, _) =>
         var target := FindMember(t, app, key, now);
         canManage && key != submitter && target.Some? && target.value.role != Owner && target.value.role == oldRole
       case MemberDetailsChanged(key) => key == submitter
       case ApplicationDataChanged(_) => true
       case ComponentEdited(_, _) => true
       case EditModeChanged(_) => true
       case Passive(kind) =>
         if kind == "invite_revoked" then canManage
         else kind == "reminder_changed"
       case MemberAdded(_, _, _, _) => false
       case ApplicationMoved => false
       case TemplateChanged(_, _) => false
  }

  // ----- execution -----

  function ExecBody(t: Tables, app: string, b: Body, now: int): Result<Tables, ExecError>
    requires app in t.apps
  {
    match b
    case MemberAdded(key, role, expiresAt, _) =>
      Ok(t.(members := t.members[MemberKey(app, key) := Member(role, expiresAt)]))
    case MemberRemoved(key) =>
      if FindMember(t, app, key, now).None? then Ok(t) else Ok(t.(members := t.members - {MemberKey(app, key)}))
    case MemberRoleChanged(key, _, newRole) =>
      if FindMember(t, app, key, now).None? then Err(Unappliable)
      else
        var k := MemberKey(app, key);
        Ok(t.(members := t.members[k := t.members[k].(role := newRole)]))
    case ApplicationDataChanged(name) =>
      if t.apps[app].deleted then Err(Internal) else Ok(t.(apps := t.apps[app := t.apps[app].(name := name)]))
    case ApplicationDeleted => Ok(t.(apps := t.apps[app := t.apps[app].(deleted := true)]))
    case ComponentEdited(id, changedFields) =>
      if id == "" then Err(Invalid)
      else
        var rows := PatchComponent(t.rows, app, id, changedFields, Invalid);
        if rows.Err? then Err(rows.error) else Ok(t.(rows := rows.value))
    case EditModeChanged(changes) =>
      var rows := ExecAll(t.rows, app, changes);
      if rows.Err? then Err(rows.error) else Ok(t.(rows := rows.value))
    case MemberDetailsChanged(_) => Ok(t)
    case ApplicationMoved => Ok(t)
    case TemplateChanged(_, _) => Ok(t)
    case Passive(_) => Ok(t)
  }

  /** updateAppVersion: only ever raises the mark, and silently does nothing on a deleted application. */
  function RaiseMark(t: Tables, app: string, seqNo: nat): Tables
    requires app in t.apps
  {
    if t.apps[app].deleted || seqNo <= t.apps[app].lastSequence then t
    else t.(apps := t.apps[app := t.apps[app].(lastSequence := seqNo)])
  }

  // ----- the log -----

  ghost predicate UniqueIds(log: Log) {
    forall o, p :: o in log && p in log && log[o].id == log[p].id ==> o == p
  }

  ghost predicate HasId(log: Log, id: string) {
    exists o :: o in log && log[o].id == id
  }

  ghost function RowOf(log: Log, id: string): (r: Option<Row>)
    ensures r.Some? <==> HasId(log, id)
    ensures r.Some? ==> exists o :: o in log && log[o].id == id && r == Some(log[o])
  {
    if HasId(log, id) then
      var o :| o in log && log[o].id == id;
      Some(log[o])
    else None
  }

  predicate IsRetryOf(r: Row, e: Event) {
    r.app == e.app && r.creator == e.creator && TypeOf(r.body) == TypeOf(e.body)
  }

  /** The largest of a non-empty set of numbers. */
  ghost function MaxOf(s: set<nat>): (m: nat)
    requires s != {}
    ensures m in s && forall x :: x in s ==> x <= m
  {
    var x :| x in s;
    if s == {x} then x
    else
      var rest := MaxOf(s - {x});
      assert s == (s - {x}) + {x};
      if rest < x then x else rest
  }

  ghost function Numbers(log: Log, app: string): set<nat> {
    set o | o in log && log[o].app == Some(app) :: log[o].seqNo
  }

  /** One above both the stored mark and every number still in the log. */
  ghost function NextSequence(s: Space, app: string): nat {
    var mark := if app in s.tables.apps then s.tables.apps[app].lastSequence else 0;
    MaxOf(Numbers(s.log, app) + {mark}) + 1
  }

  // ----- persistAndApply -----

  ghost function Persist(s: Space, e: Event, now: int): (Space, Outcome) {
    if e.app.Some? && (e.app.value !in s.tables.apps || (s.tables.apps[e.app.value].deleted && !e.body.ApplicationMoved?)) then
      (s, Rejected(Unappliable))
    else
      var stored := RowOf(s.log, e.id);
      if stored.Some? then
        (s, if IsRetryOf(stored.value, e) then Duplicate(stored.value) else Rejected(Unappliable))
      else
        var seqNo := if e.app.Some? then NextSequence(s, e.app.value) else 0;
        var row := Row(e.id, now, e.app, seqNo, e.creator, e.body);
        var log := s.log[s.nextOrdinal := row];
        if e.app.None? then
          (Space(s.tables, log, s.nextOrdinal + 1), Stored(row))
        else
          var t := ExecBody(s.tables, e.app.value, e.body, now);
          if t.Err? then (s.(nextOrdinal := s.nextOrdinal + 1), Rejected(t.error))
          else (Space(RaiseMark(t.value, e.app.value, seqNo), log, s.nextOrdinal + 1), Stored(row))
  }

  /** What AcceptEvent decides before it touches anything, reading `s` without a lock. */
  datatype Decision = Known(row: Row) | Refused | Proceed

  ghost function PreAccept(s: Space, e: Event, now: int): Decision {
    var stored := RowOf(s.log, e.id);
    if !ValidEvent(e) then Refused
    else if stored.Some? && IsRetryOf(stored.value, e) then Known(stored.value)
    else if e.app.Some? && !Authorized(s.tables, e.app.value, e.creator, e.body, now) then Refused
    else Proceed
  }

  // ----- what one event can and cannot do -----

  /** The key has a member row in the application that has not run out. */
  predicate Belongs(t: Tables, app: string, key: string, now: int) {
    var k := MemberKey(app, key);
    k in t.members && (t.members[k].expiresAt.Some? ==> now < t.members[k].expiresAt.value)
  }

  ghost predicate MembersSame(app: string, m: map<MemberKey, Member>, m': map<MemberKey, Member>) {
    forall k: MemberKey :: k.app != app ==> (k in m <==> k in m') && (k in m ==> m'[k] == m[k])
  }

  ghost predicate AppsSame(app: string, a: map<string, App>, a': map<string, App>) {
    forall b :: b != app ==> (b in a <==> b in a') && (b in a ==> a'[b] == a[b])
  }

  ghost predicate LogSame(app: string, l: Log, l': Log) {
    forall o :: (o in l && l[o].app != Some(app)) || (o in l' && l'[o].app != Some(app)) ==> o in l && o in l' && l'[o] == l[o]
  }

  /** Nothing recorded about any application but `app` differs. */
  ghost predicate Isolated(app: string, s: Space, s': Space) {
    && OthersSame(app, s.tables.rows, s'.tables.rows)
    && MembersSame(app, s.tables.members, s'.tables.members)
    && AppsSame(app, s.tables.apps, s'.tables.apps)
    && LogSame(app, s.log, s'.log)
  }

  lemma ExecBodyIsolated(t: Tables, app: string, b: Body, now: int)
    requires app in t.apps && Closed(t.rows)
    requires ExecBody(t, app, b, now).Ok?
    ensures
      var t' := ExecBody(t, app, b, now).value;
      && app in t'.apps
      && Closed(t'.rows) && OthersSame(app, t.rows, t'.rows)
      && MembersSame(app, t.members, t'.members)
      && AppsSame(app, t.apps, t'.apps)
  {
    match b {
      case EditModeChanged(changes) => ExecAllIsolated(t.rows, app, changes);
      case ComponentEdited(id, _) =>
        PutComponentIsolated(t.rows, app, id, ExecBody(t, app, b, now).value.rows.components[id]);
      case _ =>
    }
  }

  /** A handler fails only for a role change of nobody, a renaming of a deleted application, and changes that do not apply. */
  lemma HandlerSucceedsIff(t: Tables, app: string, b: Body, now: int)
    requires app in t.apps
    ensures ExecBody(t, app, b, now).Ok? <==>
            && (b.MemberRoleChanged? ==> Belongs(t, app, b.key, now))
            && (b.ApplicationDataChanged? ==> !t.apps[app].deleted)
            && (b.ComponentEdited? ==> b.componentId != "" && b.changedFields.Some? && ComponentInApp(t.rows, app, b.componentId))
            && (b.EditModeChanged? ==> ExecAll(t.rows, app, b.changes).Ok?)
  {
  }

  /** A component's own event sets the fields it names in that component and touches nothing else, or is refused. */
  lemma EditSetsFields(t: Tables, app: string, id: string, delta: Option<map<string, FieldChange>>, now: int)
    requires app in t.apps
    ensures
      var res := ExecBody(t, app, ComponentEdited(id, delta), now);
      && (res.Ok? <==> id != "" && delta.Some? && id in t.rows.components && t.rows.components[id].appId == app)
      && (res.Ok? ==> Patched(t.rows, res.value.rows, id, delta.value) && res.value == t.(rows := res.value.rows))
  {
  }

  ghost predicate WellFormed(s: Space) {
    UniqueIds(s.log) && forall o :: o in s.log ==> o < s.nextOrdinal
  }

  lemma PersistKeepsWellFormed(s: Space, e: Event, now: int)
    requires WellFormed(s)
    ensures WellFormed(Persist(s, e, now).0)
  {
  }

  /** An event of one application leaves every other application alone, and the tables closed. */
  lemma PersistIsolated(s: Space, e: Event, now: int)
    requires WellFormed(s) && Closed(s.tables.rows)
    ensures WellFormed(Persist(s, e, now).0) && Closed(Persist(s, e, now).0.tables.rows)
    ensures e.app.Some? ==> Isolated(e.app.value, s, Persist(s, e, now).0)
    ensures e.app.None? ==> Persist(s, e, now).0.tables == s.tables
  {
    if e.app.Some? && Persist(s, e, now).1.Stored? {
      ExecBodyIsolated(s.tables, e.app.value, e.body, now);
    }
  }

  /** A user-scoped event always finds its log; an application's only while it is there, and once deleted only for its move. */
  predicate Open(s: Space, e: Event) {
    e.app.Some? ==> e.app.value in s.tables.apps && (s.tables.apps[e.app.value].deleted ==> e.body.ApplicationMoved?)
  }

  /**
    An event is stored exactly when the log is open to it, its id is new, and its
    handler succeeds; it gets back a stored row of its id, author, application and type
    instead; and it is refused otherwise.
  */
  lemma PersistDecides(s: Space, e: Event, now: int)
    requires UniqueIds(s.log)
    ensures
      var out := Persist(s, e, now).1;
      && (out.Stored? <==>
          Open(s, e) && (forall o :: o in s.log ==> s.log[o].id != e.id)
          && (e.app.Some? ==> ExecBody(s.tables, e.app.value, e.body, now).Ok?))
      && (out.Stored? ==>
          && out.row.id == e.id && out.row.createdAt == now && out.row.app == e.app && out.row.creator == e.creator && out.row.body == e.body
          && out.row.seqNo == if e.app.Some? then NextSequence(s, e.app.value) else 0)
      && (out.Duplicate? <==> Open(s, e) && exists o :: o in s.log && s.log[o].id == e.id && Resubmits(s.log[o], e))
      && (out.Duplicate? ==> out.row in s.log.Values && out.row.id == e.id)
  {
    hide ExecBody, TypeOf;
    var stored := RowOf(s.log, e.id);
    if stored.Some? {
      var o :| o in s.log && s.log[o].id == e.id && stored == Some(s.log[o]);
      ResubmitsIsRetry(stored.value, e);
    } else {
      assert !HasId(s.log, e.id);
    }
  }

  predicate Resubmits(r: Row, e: Event) {
    r.app == e.app && r.creator == e.creator && TypeOf(r.body) == TypeOf(e.body)
  }

  lemma ResubmitsIsRetry(r: Row, e: Event)
    ensures Resubmits(r, e) <==> IsRetryOf(r, e)
  {
  }

  /** Types tell the kinds of data apart. */
  lemma TypesDiffer(a: Body, b: Body)
    requires !a.Passive? && !b.Passive?
    ensures TypeOf(a) == TypeOf(b) <==>
            || (a.MemberAdded? && b.MemberAdded?)
            || (a.MemberRemoved? && b.MemberRemoved?)
            || (a.MemberRoleChanged? && b.MemberRoleChanged?)
            || (a.MemberDetailsChanged? && b.MemberDetailsChanged?)
            || (a.ApplicationDataChanged? && b.ApplicationDataChanged?)
            || (a.ApplicationDeleted? && b.ApplicationDeleted?)
            || (a.ApplicationMoved? && b.ApplicationMoved?)
            || (a.ComponentEdited? && b.ComponentEdited?)
            || (a.EditModeChanged? && b.EditModeChanged?)
            || (a.TemplateChanged? && b.TemplateChanged?)
  {
    KindAtStart(a);
    KindAtStart(b);
  }

  /** Length, and the letter at which types of one length part ways. */
  lemma KindAtStart(b: Body)
    requires !b.Passive?
    ensures
      match b
      case MemberAdded(_, _, _, _) => |TypeOf(b)| == 12
      case MemberRemoved(_) => |TypeOf(b)| == 14
      case MemberRoleChanged(_, _, _) => |TypeOf(b)| == 19 && TypeOf(b)[0] == 'm'
      case MemberDetailsChanged(_) => |TypeOf(b)| == 22 && TypeOf(b)[0] == 'm'
      case ApplicationDataChanged(_) => |TypeOf(b)| == 24
      case ApplicationDeleted => |TypeOf(b)| == 19 && TypeOf(b)[0] == 'a'
      case ApplicationMoved => |TypeOf(b)| == 17
      case ComponentEdited(_, _) => |TypeOf(b)| == 22 && TypeOf(b)[0] == 'c'
      case EditModeChanged(_) => |TypeOf(b)| == 35
      case TemplateChanged(_, _) => |TypeOf(b)| == 16
  {
  }

  /** Unless it is stored, an event leaves the log and the tables as they were. */
  lemma AllOrNothing(s: Space, e: Event, now: int)
    requires WellFormed(s)
    ensures
      var (s', out) := Persist(s, e, now);
      && (out.Stored? ==> !HasId(s.log, e.id) && HasId(s'.log, e.id) && s'.log == s.log[s.nextOrdinal := out.row])
      && (!out.Stored? ==> s'.log == s.log && s'.tables == s.tables)
  {
    var (s', out) := Persist(s, e, now);
    if out.Stored? {
      assert s'.log[s.nextOrdinal].id == e.id;
    }
  }
}
