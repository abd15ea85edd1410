/**
  Who may do what to an application (internal/event/event_authorizer.go), told from
  the stored rows alone, and what that gives over runs in which events are authorized
  on one snapshot and applied to a later one.
*/
module Authority {
  import opened Common
  import opened Structure
  import opened Events
  import opened EventStore
  import opened OwnerRuns

  predicate BelongsAs(t: Tables, app: string, key: string, now: int, roles: set<Role>) {
    Belongs(t, app, key, now) && t.members[MemberKey(app, key)].role in roles
  }

  predicate Manages(t: Tables, app: string, key: string, now: int) {
    BelongsAs(t, app, key, now, {Owner, Admin})
  }

  /** The event is complete, its application is there, and it is not one that was stored before. */
  ghost predicate NewFor(s: Space, e: Event, app: string) {
    && e.id != "" && e.creator != "" && e.app == Some(app)
    && app in s.tables.apps && !s.tables.apps[app].deleted
    && !exists o :: o in s.log && s.log[o].id == e.id && s.log[o].app == e.app && s.log[o].creator == e.creator
                    && TypeOf(s.log[o].body) == TypeOf(e.body)
  }

  lemma ProceedsIff(s: Space, e: Event, app: string, now: int)
    requires UniqueIds(s.log) && e.app == Some(app)
    ensures PreAccept(s, e, now) == Proceed <==>
            NewFor(s, e, app) && ValidEvent(e) && Authorized(s.tables, app, e.creator, e.body, now)
  {
    hide Authorized;
    var stored := RowOf(s.log, e.id);
    if stored.Some? && IsRetryOf(stored.value, e) {
      var o :| o in s.log && s.log[o].id == e.id && stored == Some(s.log[o]);
      assert !NewFor(s, e, app);
    }
    if Authorized(s.tables, app, e.creator, e.body, now) {
      AuthorizedOnLiveApps(s.tables, app, e.creator, e.body, now);
    }
  }

  lemma AuthorizedOnLiveApps(t: Tables, app: string, submitter: string, b: Body, now: int)
    requires Authorized(t, app, submitter, b, now)
    ensures app in t.apps && !t.apps[app].deleted
  {
  }

  /** A role is changed by a manager, for somebody else who is a member but not the owner, and who has the role the event says. */
  lemma RoleChangeProceedsIff(s: Space, e: Event, app: string, now: int)
    requires UniqueIds(s.log) && e.app == Some(app) && e.body.MemberRoleChanged?
    ensures
      PreAccept(s, e, now) == Proceed <==>
      && NewFor(s, e, app) && Manages(s.tables, app, e.creator, now)
      && e.body.key !in {"", e.creator} && Belongs(s.tables, app, e.body.key, now)
      && s.tables.members[MemberKey(app, e.body.key)].role == e.body.oldRole
      && e.body.oldRole !in {Owner, OtherRole("")} && e.body.newRole in {Admin, Regular, Viewer}
  {
    hide PreAccept, NewFor;
    ProceedsIff(s, e, app, now);
    assert NewFor(s, e, app) ==> e.id != "" && e.creator != "" && app in s.tables.apps && !s.tables.apps[app].deleted by {
      NewForIsComplete(s, e, app);
    }
  }

  lemma NewForIsComplete(s: Space, e: Event, app: string)
    ensures NewFor(s, e, app) ==> e.id != "" && e.creator != "" && app in s.tables.apps && !s.tables.apps[app].deleted
  {
  }

  /** A member is removed by itself or by a manager; the owner by nobody. */
  lemma RemovalProceedsIff(s: Space, e: Event, app: string, now: int)
    requires UniqueIds(s.log) && e.app == Some(app) && e.body.MemberRemoved?
    ensures
      PreAccept(s, e, now) == Proceed <==>
      && NewFor(s, e, app) && e.body.key != "" && Belongs(s.tables, app, e.body.key, now)
      && s.tables.members[MemberKey(app, e.body.key)].role != Owner
      && (e.creator == e.body.key || Manages(s.tables, app, e.creator, now))
  {
    hide PreAccept, NewFor;
    ProceedsIff(s, e, app, now);
    NewForIsComplete(s, e, app);
  }

  /** An application is deleted by its owner only; an invite is revoked by a manager. */
  lemma DeletionAndRevocationProceedIff(s: Space, e: Event, app: string, now: int)
    requires UniqueIds(s.log) && e.app == Some(app)
    ensures e.body.ApplicationDeleted? ==>
              (PreAccept(s, e, now) == Proceed <==> NewFor(s, e, app) && BelongsAs(s.tables, app, e.creator, now, {Owner}))
    ensures e.body == Passive("invite_revoked") ==>
              (PreAccept(s, e, now) == Proceed <==> NewFor(s, e, app) && Manages(s.tables, app, e.creator, now))
  {
    hide PreAccept, NewFor;
    ProceedsIff(s, e, app, now);
    NewForIsComplete(s, e, app);
  }

  /** Open to every member: the application's name, its structure and data, reminders, and one's own details. */
  predicate ForMembers(e: Event) {
    match e.body
    case ApplicationDataChanged(name) => name != ""
    case ComponentEdited(_, _) => true
    case EditModeChanged(changes) => ValidChanges(changes)
    case MemberDetailsChanged(key) => key == e.creator
    case Passive(kind) => kind == "reminder_changed"
    case _ => false
  }

  predicate Restricted(b: Body) {
    b.MemberRoleChanged? || b.MemberRemoved? || b.ApplicationDeleted? || b == Passive("invite_revoked")
  }

  /** Every other event proceeds exactly if it is one that is open to members and a member submits it. */
  lemma OtherEventsProceedIff(s: Space, e: Event, app: string, now: int)
    requires UniqueIds(s.log) && e.app == Some(app) && !Restricted(e.body)
    ensures PreAccept(s, e, now) == Proceed <==> NewFor(s, e, app) && ForMembers(e) && Belongs(s.tables, app, e.creator, now)
  {
    hide PreAccept, NewFor;
    ProceedsIff(s, e, app, now);
    NewForIsComplete(s, e, app);
  }

  /** Of user-scoped events these are checked for completeness alone before they are stored: templates, and those whose handler changes no row. */
  lemma UserScopedProceedsIff(s: Space, e: Event, now: int)
    requires UniqueIds(s.log) && e.app == None && (e.body.TemplateChanged? || e.body.Passive?)
    ensures
      PreAccept(s, e, now) == Proceed <==>
      && e.id != "" && e.creator != "" && (e.body.TemplateChanged? ==> e.body.templateId != "")
      && !exists o :: o in s.log && s.log[o].id == e.id && s.log[o].app == e.app && s.log[o].creator == e.creator
                      && TypeOf(s.log[o].body) == TypeOf(e.body)
  {
    hide TypeOf;
    var stored := RowOf(s.log, e.id);
    if stored.Some? {
      var o :| o in s.log && s.log[o].id == e.id && stored == Some(s.log[o]);
      assert forall p :: p in s.log && s.log[p].id == e.id ==> p == o;
    } else {
      assert !HasId(s.log, e.id);
    }
  }

  // ----- over runs -----

  /** The event is about the member's row. */
  predicate Aims(e: Event, app: string, key: string) {
    e.app == Some(app) &&
    match e.body
    case MemberAdded(k, _, _, _) => k == key
    case MemberRemoved(k) => k == key
    case MemberRoleChanged(k, _, _) => k == key
    case _ => false
  }

  /** Here somebody who manages the application at this moment, or the member who wants to leave, has an event about the row authorized. */
  predicate EntitledMove(t: Traffic, m: Move, app: string, key: string) {
    && m.Authorize? && Aims(m.event, app, key)
    && (Manages(t.space.tables, app, m.event.creator, m.now) || (m.event.body.MemberRemoved? && m.event.creator == key))
  }

  ghost predicate SomeEntitled(t: Traffic, moves: seq<Move>, app: string, key: string)
    decreases |moves|
  {
    moves != [] && (EntitledMove(t, moves[0], app, key) || SomeEntitled(Step(t, moves[0]), moves[1..], app, key))
  }

  /** Nobody joins under the key at a time when the row has run out. */
  ghost predicate JoinsInTime(moves: seq<Move>, app: string, key: string, row: Member) {
    forall now :: SeeNoMember(MemberKey(app, key), now) in moves && row.expiresAt.Some? ==> now < row.expiresAt.value
  }

  /** The row is there, and nothing that concerns it is on the way. */
  ghost predicate Settled(t: Traffic, app: string, key: string, row: Member) {
    && MemberKey(app, key) in t.space.tables.members && t.space.tables.members[MemberKey(app, key)] == row
    && (forall e :: e in t.authorized ==> !Aims(e, app, key))
    && MemberKey(app, key) !in t.joining
  }

  lemma AimedNeedsEntitled(s: Space, e: Event, app: string, key: string, now: int)
    requires e.app.Some? && PreAccept(s, e, now) == Proceed && Aims(e, app, key)
    ensures Manages(s.tables, app, e.creator, now) || (e.body.MemberRemoved? && e.creator == key)
  {
    AuthorizedIfProceeds(s, e, now);
  }

  lemma PersistSparesRow(s: Space, e: Event, now: int, app: string, key: string)
    requires !Aims(e, app, key) && MemberKey(app, key) in s.tables.members
    ensures
      var members := Persist(s, e, now).0.tables.members;
      MemberKey(app, key) in members && members[MemberKey(app, key)] == s.tables.members[MemberKey(app, key)]
  {
    hide ExecBody;
    if e.app.Some? && Persist(s, e, now).1.Stored? {
      ExecSparesRow(s.tables, e, now, app, key);
    }
  }

  lemma ExecSparesRow(t: Tables, e: Event, now: int, app: string, key: string)
    requires !Aims(e, app, key) && MemberKey(app, key) in t.members
    requires e.app.Some? && e.app.value in t.apps && ExecBody(t, e.app.value, e.body, now).Ok?
    ensures
      var members := ExecBody(t, e.app.value, e.body, now).value.members;
      MemberKey(app, key) in members && members[MemberKey(app, key)] == t.members[MemberKey(app, key)]
  {
  }

  lemma StepSettled(t: Traffic, m: Move, app: string, key: string, row: Member)
    requires Settled(t, app, key, row) && !EntitledMove(t, m, app, key)
    requires m.SeeNoMember? && m.who == MemberKey(app, key) && row.expiresAt.Some? ==> m.now < row.expiresAt.value
    ensures Settled(Step(t, m), app, key, row)
  {
    hide Persist, PreAccept, Pruned;
    match m
    case Authorize(e, now) =>
      if e.app.Some? && PreAccept(t.space, e, now) == Proceed && Aims(e, app, key) {
        AimedNeedsEntitled(t.space, e, app, key, now);
      }
    case Apply(e, now) =>
      if e in t.authorized {
        PersistSparesRow(t.space, e, now, app, key);
      }
    case SeeNoMember(_, _) =>
    case AddMember(id, who, role, expiresAt, displayName, now) =>
      if who in t.joining {
        PersistSparesRow(t.space, Event(id, Some(who.app), who.key, MemberAdded(who.key, role, expiresAt, displayName)), now, app, key);
      }
    case Produce(e, now) =>
      if SpaceProduced(e.body) {
        PersistSparesRow(t.space, e, now, app, key);
      }
    case Discard(_) =>
    case MoveAway(_) =>
  }

  lemma {:induction false} StaysSettled(t: Traffic, moves: seq<Move>, app: string, key: string, row: Member)
    requires Settled(t, app, key, row) && JoinsInTime(moves, app, key, row)
    ensures Settled(Run(t, moves), app, key, row) || SomeEntitled(t, moves, app, key)
    decreases |moves|
  {
    hide Step, EntitledMove, Settled;
    if moves != [] && !EntitledMove(t, moves[0], app, key) {
      var m := moves[0];
      assert m in moves && (m.SeeNoMember? ==> m == SeeNoMember(m.who, m.now));
      StepSettled(t, m, app, key, row);
      assert JoinsInTime(moves[1..], app, key, row);
      StaysSettled(Step(t, m), moves[1..], app, key, row);
    }
  }

  /**
    However stale the authorizations and however events and joins interleave: a
    member's row, as long as it has not run out, changes or goes only if in the run
    somebody has an event about it authorized who is owner or admin at that moment, or
    the member asks to leave.
  */
  lemma RowChangesOnlyByManagers(s: Space, moves: seq<Move>, app: string, key: string)
    requires MemberKey(app, key) in s.tables.members
    requires JoinsInTime(moves, app, key, s.tables.members[MemberKey(app, key)])
    ensures
      var before, after := s.tables.members, Run(Traffic(s, {}, {}), moves).space.tables.members;
      var k := MemberKey(app, key);
      k !in after || after[k] != before[k] ==> SomeEntitled(Traffic(s, {}, {}), moves, app, key)
  {
    StaysSettled(Traffic(s, {}, {}), moves, app, key, s.tables.members[MemberKey(app, key)]);
  }
}
