/**
  The owner of an application under stale authorization (internal/event,
  internal/invitation): a client's event is authorized on one snapshot and applied
  to a later one, and a join looks for a member on one snapshot and adds one later.
  Any number of each may be on the way at once.
*/
module OwnerRuns {
  import opened Common
  import opened Structure
  import opened Events
  import opened EventStore
  import opened EventRuns

  /**
    `authorized` holds events once found in order, `joining` the keys a join once saw no
    active member for. Neither is used up: two requests with the same event, or two
    joins of one key, may both have looked before either writes.
  */
  datatype Traffic = Traffic(space: Space, authorized: set<Event>, joining: set<MemberKey>)

  datatype Move =
    | Authorize(event: Event, now: int)
    | Apply(event: Event, now: int)
    | SeeNoMember(who: MemberKey, now: int)
    | AddMember(id: string, who: MemberKey, role: Role, expiresAt: Option<int>, displayName: string, now: int)
    | Produce(event: Event, now: int)
    | Discard(cutoff: int)
    | MoveAway(app: string)

  /** The events a space produces by itself, besides the ones of a join: fired reminders, files, profiles, a completed move. */
  predicate SpaceProduced(b: Body) {
    b.Passive? || b.ApplicationMoved?
  }

  ghost function Step(t: Traffic, m: Move): Traffic {
    match m
    case Authorize(e, now) =>
      if e.app.Some? && PreAccept(t.space, e, now) == Proceed then t.(authorized := t.authorized + {e}) else t
    case Apply(e, now) =>
      if e in t.authorized then t.(space := Persist(t.space, e, now).0) else t
    case SeeNoMember(who, now) =>
      if FindMember(t.space.tables, who.app, who.key, now).None? then t.(joining := t.joining + {who}) else t
    case AddMember(id, who, role, expiresAt, displayName, now) =>
      var e := Event(id, Some(who.app), who.key, MemberAdded(who.key, role, expiresAt, displayName));
      if who in t.joining && ValidEvent(e) then t.(space := Persist(t.space, e, now).0) else t
    case Produce(e, now) =>
      if SpaceProduced(e.body) && ValidEvent(e) then t.(space := Persist(t.space, e, now).0) else t
    case Discard(cutoff) =>
      t.(space := t.space.(log := Pruned(t.space.log, cutoff)))
    case MoveAway(app) =>
      if CanMove(t.space, app) then t.(space := Moved(t.space, app)) else t
  }

  ghost function Run(t: Traffic, moves: seq<Move>): Traffic
    decreases |moves|
  {
    if moves == [] then t else Run(Step(t, moves[0]), moves[1..])
  }

  /** `owner` holds the application's only owner row, and it does not expire. */
  ghost predicate OwnedBy(t: Tables, app: string, owner: string) {
    && MemberKey(app, owner) in t.members
    && t.members[MemberKey(app, owner)] == Member(Owner, None)
    && forall k :: k in t.members && k.app == app && t.members[k].role == Owner ==> k.key == owner
  }

  /** An event that may be applied at any later time without touching the owner. */
  predicate SparesOwner(e: Event, app: string, owner: string) {
    e.app == Some(app) ==>
      match e.body
      case MemberAdded(key, role, _, _) => key != owner && role != Owner
      case MemberRemoved(key) => key != owner
      case MemberRoleChanged(key, _, newRole) => key != owner && newRole != Owner
      case _ => true
  }

  ghost predicate Guarded(t: Traffic, app: string, owner: string) {
    && OwnedBy(t.space.tables, app, owner)
    && (forall e :: e in t.authorized ==> SparesOwner(e, app, owner))
    && MemberKey(app, owner) !in t.joining
  }

  /** Authorization refuses every event aimed at the owner while the owner's row stands. */
  lemma AuthorizedSparesOwner(s: Space, e: Event, now: int, app: string, owner: string)
    requires OwnedBy(s.tables, app, owner)
    requires e.app.Some? && PreAccept(s, e, now) == Proceed
    ensures SparesOwner(e, app, owner)
  {
    hide PreAccept, Persist;
    AuthorizedIfProceeds(s, e, now);
    if e.app == Some(app) {
      assert FindMember(s.tables, app, owner, now) == Some(Member(Owner, None));
    }
  }

  lemma AuthorizedIfProceeds(s: Space, e: Event, now: int)
    requires e.app.Some? && PreAccept(s, e, now) == Proceed
    ensures ValidEvent(e) && Authorized(s.tables, e.app.value, e.creator, e.body, now)
  {
  }

  lemma ExecSparesOwner(t: Tables, b: Body, now: int, e: Event, app: string, owner: string)
    requires e.app.Some? && e.app.value in t.apps && e.body == b
    requires OwnedBy(t, app, owner) && SparesOwner(e, app, owner)
    requires ExecBody(t, e.app.value, b, now).Ok?
    ensures OwnedBy(ExecBody(t, e.app.value, b, now).value, app, owner)
  {
    match b {
      case MemberAdded(_, _, _, _) =>
      case MemberRemoved(_) =>
      case MemberRoleChanged(_, _, _) =>
      case _ =>
        assert ExecBody(t, e.app.value, b, now).value.members == t.members;
    }
  }

  lemma PersistSparesOwner(s: Space, e: Event, now: int, app: string, owner: string)
    requires OwnedBy(s.tables, app, owner) && SparesOwner(e, app, owner)
    ensures OwnedBy(Persist(s, e, now).0.tables, app, owner)
  {
    hide ExecBody, SparesOwner;
    if e.app.Some? && Persist(s, e, now).1.Stored? {
      ExecSparesOwner(s.tables, e.body, now, e, app, owner);
    }
  }

  lemma StepGuarded(t: Traffic, m: Move, app: string, owner: string)
    requires Guarded(t, app, owner)
    ensures Guarded(Step(t, m), app, owner)
  {
    hide Persist, PreAccept, Pruned;
    match m
    case Authorize(e, now) =>
      if e.app.Some? && PreAccept(t.space, e, now) == Proceed {
        AuthorizedSparesOwner(t.space, e, now, app, owner);
      }
    case Apply(e, now) =>
      if e in t.authorized {
        PersistSparesOwner(t.space, e, now, app, owner);
      }
    case SeeNoMember(_, _) =>
    case AddMember(id, who, role, expiresAt, displayName, now) =>
      var e := Event(id, Some(who.app), who.key, MemberAdded(who.key, role, expiresAt, displayName));
      if who in t.joining && ValidEvent(e) {
        assert who != MemberKey(app, owner);
        PersistSparesOwner(t.space, e, now, app, owner);
      }
    case Produce(e, now) =>
      if SpaceProduced(e.body) && ValidEvent(e) {
        PersistSparesOwner(t.space, e, now, app, owner);
      }
    case Discard(_) =>
    case MoveAway(_) =>
  }

  /**
    Owner stability: however stale the authorizations and however the events and
    joins interleave, the owner keeps the owner's row and nobody else gets one.
  */
  lemma {:induction false} OwnerStays(t: Traffic, moves: seq<Move>, app: string, owner: string)
    requires Guarded(t, app, owner)
    ensures Guarded(Run(t, moves), app, owner)
    decreases |moves|
  {
    if moves != [] {
      StepGuarded(t, moves[0], app, owner);
      OwnerStays(Step(t, moves[0]), moves[1..], app, owner);
    }
  }

  /** With nothing on the way, that the owner's row does not expire is exactly what is needed. */
  lemma OwnerStaysIffPermanent(s: Space, app: string, owner: string, expiresAt: Option<int>)
    requires WellFormed(s) && app in s.tables.apps && !s.tables.apps[app].deleted && owner != ""
    requires MemberKey(app, owner) in s.tables.members && s.tables.members[MemberKey(app, owner)] == Member(Owner, expiresAt)
    requires forall k :: k in s.tables.members && k.app == app && s.tables.members[k].role == Owner ==> k.key == owner
    ensures
      expiresAt.None? <==>
      forall moves :: KeepsOwner(Traffic(s, {}, {}), moves, app, owner)
  {
    var t := Traffic(s, {}, {});
    if expiresAt.None? {
      forall moves ensures KeepsOwner(t, moves, app, owner) {
        OwnerStays(t, moves, app, owner);
      }
    } else {
      var moves := ExpiredOwnerIsReplaced(s, app, owner);
      assert !KeepsOwner(t, moves, app, owner);
    }
  }

  /** After the moves the owner's row is what it was, and still the application's only owner row. */
  ghost predicate KeepsOwner(t: Traffic, moves: seq<Move>, app: string, owner: string)
    requires MemberKey(app, owner) in t.space.tables.members
  {
    var before, after := t.space.tables.members, Run(t, moves).space.tables.members;
    && MemberKey(app, owner) in after && after[MemberKey(app, owner)] == before[MemberKey(app, owner)]
    && forall k :: k in after && k.app == app && after[k].role == Owner ==> k.key == owner
  }

  /** A string of a's, longer than every id of the log, is not the id of a row. */
  lemma UnusedId(log: Log) returns (id: string)
    ensures !HasId(log, id) && id != ""
  {
    var ids := set o | o in log :: log[o].id;
    var n := LongerThanAll(ids);
    id := seq(n + 1, _ => 'a');
    forall o | o in log ensures log[o].id != id {
      assert log[o].id in ids;
    }
  }

  lemma LongerThanAll(ids: set<string>) returns (n: nat)
    ensures forall id :: id in ids ==> |id| <= n
  {
    n := 0;
    if ids != {} {
      var x :| x in ids;
      var m := LongerThanAll(ids - {x});
      n := if m < |x| then |x| else m;
    }
  }

  lemma TwoSteps(t: Traffic, first: Move, second: Move)
    ensures Run(t, [first, second]) == Step(Step(t, first), second)
  {
    hide Step;
    assert [first, second][1..] == [second] && [second][1..] == [];
    assert Run(Step(t, first), [second]) == Run(Step(Step(t, first), second), []);
  }

  /** A join that runs once the owner's membership has lapsed overwrites the owner's row. */
  lemma ExpiredOwnerIsReplaced(s: Space, app: string, owner: string) returns (moves: seq<Move>)
    requires app in s.tables.apps && !s.tables.apps[app].deleted && owner != ""
    requires MemberKey(app, owner) in s.tables.members && s.tables.members[MemberKey(app, owner)].expiresAt.Some?
    requires s.tables.members[MemberKey(app, owner)].role == Owner
    ensures !KeepsOwner(Traffic(s, {}, {}), moves, app, owner)
  {
    var now := s.tables.members[MemberKey(app, owner)].expiresAt.value;
    var id := UnusedId(s.log);
    var who := MemberKey(app, owner);
    var see, add := SeeNoMember(who, now), AddMember(id, who, Viewer, None, "x", now);
    moves := [see, add];
    var t := Traffic(s, {}, {});
    TwoSteps(t, see, add);
  }
}
