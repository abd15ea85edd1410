/**
  Runs of the event log: events submitted (by clients or by the space itself),
  pruning, applications created, deleted, revived and moved away, in any order.

  One action is one transaction; ordinals are taken to follow commit order.
  Besides the real state, a world remembers what was ever stored (`history`), what
  would be stored had nothing been pruned (`unpruned`), and how often each event id
  was executed and removed.
*/
module EventRuns {
  import opened Common
  import opened Structure
  import opened Events
  import opened EventStore
  import opened Registration

  datatype Action =
    | Submit(event: Event, now: int)
    | Prune(cutoff: int)
    | Register(app: string, name: string, groups: seq<GroupIn>)
    | Move(app: string)

  datatype World = World(
    space: Space,
    unpruned: Log,
    history: Log,
    executed: multiset<string>,
    removed: multiset<string>)

  ghost const START := World(Space(Tables(map[], map[], Rows(map[], map[])), map[], 1), map[], map[], multiset{}, multiset{})

  /** RegisterApplication: the application's row, new or brought back with its mark, and its structure; or nothing. */
  function Registered(t: Tables, app: string, name: string, groups: seq<GroupIn>): Tables {
    var rows := RegisterRows(t.rows, app, groups);
    if app == "" || name == "" || '\0' in app || '\0' in name || rows.Err? then t
    else
      var row := if app in t.apps then t.apps[app].(name := name, deleted := false) else App(name, 0, false);
      t.(apps := t.apps[app := row], rows := rows.value)
  }

  function WithoutApp(log: Log, app: string): Log {
    map o | o in log && log[o].app != Some(app) :: log[o]
  }

  /** CompleteMove: the application's events and structure go, with what the cascade takes; its row stays, deleted, with its mark. */
  function Moved(s: Space, app: string): Space
    requires app in s.tables.apps
  {
    var r := s.tables.rows;
    var rows := Rows(map g | g in r.groups && r.groups[g].appId != app :: r.groups[g],
                     map c | c in r.components && r.components[c].appId != app && !GroupInApp(r, app, r.components[c].groupId) :: r.components[c]);
    Space(s.tables.(apps := s.tables.apps[app := s.tables.apps[app].(deleted := true)], rows := rows),
          WithoutApp(s.log, app), s.nextOrdinal)
  }

  ghost function IdsLost(before: Log, after: Log): multiset<string> {
    multiset(set o | o in before && o !in after :: before[o].id)
  }

  predicate CanMove(s: Space, app: string) {
    app in s.tables.apps && !s.tables.apps[app].deleted
  }

  ghost function Step(w: World, a: Action): World {
    match a
    case Submit(e, now) =>
      if !ValidEvent(e) then w
      else
        var (s', out) := Persist(w.space, e, now);
        if out.Stored? then
          World(s', w.unpruned[w.space.nextOrdinal := out.row], w.history[w.space.nextOrdinal := out.row],
                w.executed + multiset{e.id}, w.removed)
        else w.(space := s')
    case Prune(cutoff) =>
      var log := Pruned(w.space.log, cutoff);
      w.(space := w.space.(log := log), removed := w.removed + IdsLost(w.space.log, log))
    case Register(app, name, groups) =>
      w.(space := w.space.(tables := Registered(w.space.tables, app, name, groups)))
    case Move(app) =>
      if !CanMove(w.space, app) then w
      else
        var s' := Moved(w.space, app);
        w.(space := s', unpruned := WithoutApp(w.unpruned, app), removed := w.removed + IdsLost(w.space.log, s'.log))
  }

  ghost function Run(w: World, actions: seq<Action>): World
    decreases |actions|
  {
    if actions == [] then w else Run(Step(w, actions[0]), actions[1..])
  }

  // ----- what every run keeps -----

  ghost predicate Within(a: Log, b: Log) {
    forall o :: o in a ==> o in b && b[o] == a[o]
  }

  ghost predicate Sound(w: World) {
    && WellFormed(w.space)
    && Within(w.space.log, w.unpruned)
    && Within(w.unpruned, w.history)
    && (forall o :: o in w.history ==> o < w.space.nextOrdinal)
  }

  lemma StepSound(w: World, a: Action)
    requires Sound(w)
    ensures Sound(Step(w, a))
  {
    match a
    case Submit(e, now) =>
      PersistKeepsWellFormed(w.space, e, now);
      AllOrNothing(w.space, e, now);
    case Prune(_) =>
    case Register(_, _, _) =>
    case Move(_) =>
  }

  // ----- one application's actions leave the others alone -----

  predicate Names(a: Action, app: string) {
    match a
    case Submit(e, _) => e.app == Some(app)
    case Prune(_) => false
    case Register(b, _, _) => b == app
    case Move(b) => b == app
  }

  /** No registration of the run names a group or component that is another application's at the time. */
  ghost predicate RegistersOwn(w: World, actions: seq<Action>)
    decreases |actions|
  {
    actions == [] ||
    (&& (actions[0].Register? ==> OwnIds(w.space.tables.rows, actions[0].app, actions[0].groups))
     && RegistersOwn(Step(w, actions[0]), actions[1..]))
  }

  /** What the tables hold of an application. */
  ghost predicate SameTables(app: string, t: Tables, t': Tables) {
    && GroupsOf(t'.rows, app) == GroupsOf(t.rows, app) && ComponentsOf(t'.rows, app) == ComponentsOf(t.rows, app)
    && (app in t.apps <==> app in t'.apps) && (app in t.apps ==> t'.apps[app] == t.apps[app])
    && forall k: MemberKey :: k.app == app ==> (k in t.members <==> k in t'.members) && (k in t.members ==> t'.members[k] == t.members[k])
  }

  lemma MoveIsolated(s: Space, app: string)
    requires CanMove(s, app) && Closed(s.tables.rows)
    ensures Closed(Moved(s, app).tables.rows) && OthersSame(app, s.tables.rows, Moved(s, app).tables.rows)
  {
    var r, r' := s.tables.rows, Moved(s, app).tables.rows;
    forall b | b != app ensures GroupsOf(r', b) == GroupsOf(r, b) && ComponentsOf(r', b) == ComponentsOf(r, b) {
      assert GroupsOf(r', b).Keys == GroupsOf(r, b).Keys;
      assert ComponentsOf(r', b).Keys == ComponentsOf(r, b).Keys;
    }
  }

  lemma SubmitIsolated(w: World, e: Event, now: int, app: string)
    requires Sound(w) && Closed(w.space.tables.rows)
    ensures Closed(Step(w, Submit(e, now)).space.tables.rows)
    ensures e.app != Some(app) ==> SameTables(app, w.space.tables, Step(w, Submit(e, now)).space.tables)
  {
    hide Persist, Closed, GroupsOf, ComponentsOf;
    PersistIsolated(w.space, e, now);
  }

  lemma RegisterIsolated(t: Tables, b: string, name: string, groups: seq<GroupIn>, app: string)
    requires Closed(t.rows) && OwnIds(t.rows, b, groups)
    ensures Closed(Registered(t, b, name, groups).rows)
    ensures b != app ==> SameTables(app, t, Registered(t, b, name, groups))
  {
    hide Closed, OwnIds, GroupsOf, ComponentsOf;
    if RegisterRows(t.rows, b, groups).Ok? {
      OwnIdsIsolated(t.rows, b, groups);
    }
  }

  lemma StepIsolated(w: World, a: Action, app: string)
    requires Sound(w) && Closed(w.space.tables.rows)
    requires a.Register? ==> OwnIds(w.space.tables.rows, a.app, a.groups)
    ensures Closed(Step(w, a).space.tables.rows)
    ensures !Names(a, app) ==> SameTables(app, w.space.tables, Step(w, a).space.tables)
  {
    hide Persist, Registered, Closed, OwnIds, GroupsOf, ComponentsOf;
    match a
    case Submit(e, now) => SubmitIsolated(w, e, now, app);
    case Prune(_) =>
    case Register(b, name, groups) => RegisterIsolated(w.space.tables, b, name, groups, app);
    case Move(b) =>
      if CanMove(w.space, b) {
        MoveIsolated(w.space, b);
      }
  }

  /**
    Over every run whose registrations name no other application's rows, components
    stay in groups of their own application, and an application that no action
    names keeps its row, members, groups and components whatever happens to the others.
  */
  lemma {:induction false} ApplicationsAreIsolated(w: World, actions: seq<Action>, app: string)
    requires Sound(w) && Closed(w.space.tables.rows) && RegistersOwn(w, actions)
    ensures Closed(Run(w, actions).space.tables.rows)
    ensures (forall a :: a in actions ==> !Names(a, app)) ==> SameTables(app, w.space.tables, Run(w, actions).space.tables)
    decreases |actions|
  {
    hide Step, Names, Closed, OwnIds;
    if actions != [] {
      StepSound(w, actions[0]);
      StepIsolated(w, actions[0], app);
      ApplicationsAreIsolated(Step(w, actions[0]), actions[1..], app);
      if forall a :: a in actions ==> !Names(a, app) {
        assert actions[0] in actions && forall a :: a in actions[1..] ==> !Names(a, app);
      }
    }
  }

  // ----- an event is executed once while its row is there -----

  /** Conservation: an id was executed as often as it was removed, plus once if its row is there now. */
  ghost predicate Conserved(w: World) {
    forall id :: w.executed[id] == w.removed[id] + if HasId(w.space.log, id) then 1 else 0
  }

  lemma LossCounts(before: Log, after: Log, id: string)
    requires UniqueIds(before) && Within(after, before)
    ensures (if HasId(before, id) then 1 else 0) == IdsLost(before, after)[id] + if HasId(after, id) then 1 else 0
  {
    var lost := set o | o in before && o !in after :: before[o].id;
    if HasId(before, id) {
      var o :| o in before && before[o].id == id;
      if o in after {
        assert after[o].id == id;
        assert id !in lost;
      } else {
        assert id in lost;
        assert !HasId(after, id);
      }
    }
  }

  lemma StepConserves(w: World, a: Action)
    requires Sound(w) && Conserved(w)
    ensures Conserved(Step(w, a))
  {
    var w' := Step(w, a);
    match a
    case Submit(e, now) =>
      AllOrNothing(w.space, e, now);
      var (s', out) := Persist(w.space, e, now);
      if ValidEvent(e) && out.Stored? {
        forall id ensures HasId(s'.log, id) <==> HasId(w.space.log, id) || id == e.id {
          if HasId(w.space.log, id) {
            var o :| o in w.space.log && w.space.log[o].id == id;
            assert s'.log[o].id == id;
          }
        }
      }
    case Prune(cutoff) =>
      forall id {
        LossCounts(w.space.log, w'.space.log, id);
      }
    case Register(_, _, _) =>
    case Move(app) =>
      if CanMove(w.space, app) {
        forall id {
          LossCounts(w.space.log, w'.space.log, id);
        }
      }
  }

  lemma {:induction false} RunConserves(w: World, actions: seq<Action>)
    requires Sound(w) && Conserved(w)
    ensures Sound(Run(w, actions)) && Conserved(Run(w, actions))
    decreases |actions|
  {
    if actions != [] {
      StepSound(w, actions[0]);
      StepConserves(w, actions[0]);
      RunConserves(Step(w, actions[0]), actions[1..]);
    }
  }

  lemma {:induction false} CountsGrow(w: World, actions: seq<Action>)
    ensures w.removed <= Run(w, actions).removed && w.executed <= Run(w, actions).executed
    decreases |actions|
  {
    if actions != [] {
      CountsGrow(Step(w, actions[0]), actions[1..]);
    }
  }

  /**
    Idempotence over a run: from any reachable world, however often the id is
    resubmitted between other actions, it is executed again only after its row was
    removed; while the row stays it is never executed a second time.
  */
  lemma ExecutedOnce(before: seq<Action>, between: seq<Action>, id: string)
    ensures
      var w := Run(START, before);
      var w' := Run(w, between);
      && w'.executed[id] <= w'.removed[id] + 1
      && (HasId(w.space.log, id) && w'.removed[id] == w.removed[id] ==>
            w'.executed[id] == w.executed[id] && HasId(w'.space.log, id))
  {
    RunConserves(START, before);
    RunConserves(Run(START, before), between);
    CountsGrow(Run(START, before), between);
    var w, w' := Run(START, before), Run(Run(START, before), between);
    assert w.removed[id] <= w'.removed[id] && w.executed[id] <= w'.executed[id];
  }

  /** A retry through AcceptEvent gets the stored row back, even if its author may no longer submit it. */
  lemma RetryReturnsStored(before: seq<Action>, e: Event, now: int, row: Row)
    requires ValidEvent(e)
    requires row in Run(START, before).space.log.Values && row.id == e.id && IsRetryOf(row, e)
    ensures PreAccept(Run(START, before).space, e, now) == Known(row)
    ensures Step(Run(START, before), Submit(e, now)) == Run(START, before)
  {
    RunConserves(START, before);
    var log := Run(START, before).space.log;
    var o :| o in log && log[o] == row;
    assert HasId(log, e.id);
  }

  // ----- sequence numbers -----

  ghost function Ordinals(log: Log, app: string): set<nat> {
    set o | o in log && log[o].app == Some(app)
  }

  /** The application's rows are numbered 1, 2, 3, … in the order they were stored, without gap or repeat. */
  ghost predicate Numbered(history: Log, app: string) {
    var all := Ordinals(history, app);
    && (forall o, p :: o in all && p in all && o < p ==> history[o].seqNo < history[p].seqNo)
    && (forall o :: o in all ==> 1 <= history[o].seqNo <= |all|)
    && (forall k :: 1 <= k <= |all| ==> HasNumber(history, app, k))
  }

  ghost predicate HasNumber(history: Log, app: string, k: int) {
    exists o :: o in Ordinals(history, app) && history[o].seqNo == k
  }

  function Mark(s: Space, app: string): nat {
    if app in s.tables.apps then s.tables.apps[app].lastSequence else 0
  }

  /** The last number handed out survives in the mark or in the newest row. */
  ghost predicate Anchored(w: World, app: string) {
    var n := |Ordinals(w.history, app)|;
    && Mark(w.space, app) <= n
    && (n > 0 ==>
          app in w.space.tables.apps &&
          (Mark(w.space, app) == n || exists o :: o in w.space.log && w.space.log[o].app == Some(app) && w.space.log[o].seqNo == n))
  }

  lemma NextIsCountPlusOne(w: World, app: string)
    requires Sound(w) && Numbered(w.history, app) && Anchored(w, app)
    ensures NextSequence(w.space, app) == |Ordinals(w.history, app)| + 1
  {
    var n := |Ordinals(w.history, app)|;
    var all := Numbers(w.space.log, app) + {Mark(w.space, app)};
    forall x | x in all ensures x <= n {
      if x in Numbers(w.space.log, app) {
        var o :| o in w.space.log && w.space.log[o].app == Some(app) && w.space.log[o].seqNo == x;
        assert o in Ordinals(w.history, app);
      }
    }
    if n > 0 {
      assert n in all;
    }
  }

  lemma AppendKeepsNumber(history: Log, app: string, ordinal: nat, row: Row, k: int)
    requires ordinal !in history && HasNumber(history, app, k)
    ensures HasNumber(history[ordinal := row], app, k)
  {
    var o :| o in Ordinals(history, app) && history[o].seqNo == k;
    assert o in Ordinals(history[ordinal := row], app);
  }

  lemma AppendOrdinals(history: Log, app: string, ordinal: nat, row: Row)
    requires forall o :: o in history ==> o < ordinal
    requires row.app == Some(app)
    ensures Ordinals(history[ordinal := row], app) == Ordinals(history, app) + {ordinal}
    ensures |Ordinals(history[ordinal := row], app)| == |Ordinals(history, app)| + 1
  {
    assert Ordinals(history[ordinal := row], app) == Ordinals(history, app) + {ordinal};
  }

  lemma AppendHasNumber(history: Log, app: string, ordinal: nat, row: Row, k: nat)
    requires Numbered(history, app) && 1 <= k <= |Ordinals(history, app)| + 1
    requires forall o :: o in history ==> o < ordinal
    requires row.app == Some(app) && row.seqNo == |Ordinals(history, app)| + 1
    ensures HasNumber(history[ordinal := row], app, k)
  {
    if k <= |Ordinals(history, app)| {
      AppendKeepsNumber(history, app, ordinal, row, k);
    } else {
      assert history[ordinal := row][ordinal].seqNo == k;
    }
  }

  lemma AppendNumbers(history: Log, app: string, ordinal: nat, row: Row)
    requires Numbered(history, app)
    requires forall o :: o in history ==> o < ordinal
    requires row.app == Some(app) && row.seqNo == |Ordinals(history, app)| + 1
    ensures Numbered(history[ordinal := row], app)
    ensures |Ordinals(history[ordinal := row], app)| == |Ordinals(history, app)| + 1
  {
    hide HasNumber, Ordinals;
    var h' := history[ordinal := row];
    AppendOrdinals(history, app, ordinal, row);
    forall k | 1 <= k <= |Ordinals(history, app)| + 1 ensures HasNumber(h', app, k) {
      AppendHasNumber(history, app, ordinal, row, k);
    }
    forall o | o in Ordinals(history, app) ensures o in history && o < ordinal {
      OrdinalsLogged(history, app, o);
    }
  }

  lemma OrdinalsLogged(history: Log, app: string, o: nat)
    requires o in Ordinals(history, app)
    ensures o in history
  {
  }

  lemma AppendElsewhere(history: Log, app: string, ordinal: nat, row: Row)
    requires forall o :: o in history ==> o < ordinal
    requires row.app != Some(app)
    requires Numbered(history, app)
    ensures Ordinals(history[ordinal := row], app) == Ordinals(history, app)
    ensures Numbered(history[ordinal := row], app)
  {
    var h' := history[ordinal := row];
    assert Ordinals(h', app) == Ordinals(history, app);
    forall k | 1 <= k <= |Ordinals(h', app)| ensures HasNumber(h', app, k) {
      AppendKeepsNumber(history, app, ordinal, row, k);
    }
  }

  /** What storing an event does to the marks. */
  lemma StoredMarks(s: Space, e: Event, now: int)
    requires WellFormed(s) && Persist(s, e, now).1.Stored?
    ensures
      var (s', out) := Persist(s, e, now);
      && out.row.app == e.app
      && (forall app :: e.app != Some(app) ==> Mark(s', app) == Mark(s, app) && (app in s.tables.apps ==> app in s'.tables.apps))
      && (e.app.Some? ==>
            && out.row.seqNo == NextSequence(s, e.app.value)
            && e.app.value in s'.tables.apps
            && (Mark(s', e.app.value) == Mark(s, e.app.value) || Mark(s', e.app.value) == out.row.seqNo))
  {
    if e.app.Some? {
      ExecKeepsMark(s.tables, e.app.value, e.body, now);
    }
  }

  lemma SubmitNumbers(w: World, e: Event, now: int, app: string)
    requires Sound(w) && Numbered(w.history, app) && Anchored(w, app)
    ensures Numbered(Step(w, Submit(e, now)).history, app) && Anchored(Step(w, Submit(e, now)), app)
  {
    hide Persist, Numbered;
    var w' := Step(w, Submit(e, now));
    var (s', out) := Persist(w.space, e, now);
    AllOrNothing(w.space, e, now);
    if ValidEvent(e) && out.Stored? {
      StoredMarks(w.space, e, now);
      var o, n := w.space.nextOrdinal, |Ordinals(w.history, app)|;
      if e.app == Some(app) {
        NextIsCountPlusOne(w, app);
        AppendNumbers(w.history, app, o, out.row);
        assert w'.space.log[o] == out.row;
      } else {
        AppendElsewhere(w.history, app, o, out.row);
        if n > 0 && Mark(w.space, app) != n {
          var p :| p in w.space.log && w.space.log[p].app == Some(app) && w.space.log[p].seqNo == n;
          assert w'.space.log[p] == w.space.log[p];
        }
      }
    }
  }

  lemma ExecKeepsMark(t: Tables, app: string, b: Body, now: int)
    requires app in t.apps
    ensures ExecBody(t, app, b, now).Ok? ==>
              && AppsSame(app, t.apps, ExecBody(t, app, b, now).value.apps)
              && app in ExecBody(t, app, b, now).value.apps
              && ExecBody(t, app, b, now).value.apps[app].lastSequence == t.apps[app].lastSequence
  {
  }

  /** Pruning never takes the newest row of an application. */
  lemma PruneKeepsLast(w: World, cutoff: int, app: string, o: nat)
    requires Sound(w) && Numbered(w.history, app)
    requires o in w.space.log && w.space.log[o].app == Some(app) && w.space.log[o].seqNo == |Ordinals(w.history, app)|
    ensures o in Pruned(w.space.log, cutoff)
  {
    forall p | p in w.space.log && w.space.log[p].app == Some(app) ensures p <= o {
      assert p in Ordinals(w.history, app) && o in Ordinals(w.history, app);
    }
    assert Anchor(w.space.log, o);
  }

  /** No row of the application in the log is numbered above its mark; `CompleteMove` could look. */
  predicate MarkIsTop(s: Space, app: string) {
    forall o :: o in s.log && s.log[o].app == Some(app) ==> s.log[o].seqNo <= Mark(s, app)
  }

  /** Although rows were pruned, the log and the mark show whether the mark is at the last number ever handed out. */
  lemma MarkIsTopIffLast(w: World, app: string)
    requires Sound(w) && Numbered(w.history, app) && Anchored(w, app)
    ensures MarkIsTop(w.space, app) <==> Mark(w.space, app) == |Ordinals(w.history, app)|
  {
    if Mark(w.space, app) == |Ordinals(w.history, app)| {
      forall o | o in w.space.log && w.space.log[o].app == Some(app) ensures w.space.log[o].seqNo <= Mark(w.space, app) {
        assert o in Ordinals(w.history, app);
      }
    }
  }

  /** The move's hypothesis. */
  predicate MoveIsGuarded(w: World, a: Action) {
    a.Move? && CanMove(w.space, a.app) ==> MarkIsTop(w.space, a.app)
  }

  lemma StepNumbers(w: World, a: Action, app: string)
    requires Sound(w) && Numbered(w.history, app) && Anchored(w, app)
    requires MoveIsGuarded(w, a)
    ensures Numbered(Step(w, a).history, app) && Anchored(Step(w, a), app)
  {
    var n := |Ordinals(w.history, app)|;
    match a
    case Submit(e, now) =>
      SubmitNumbers(w, e, now, app);
    case Prune(cutoff) =>
      if n > 0 && Mark(w.space, app) != n {
        var o :| o in w.space.log && w.space.log[o].app == Some(app) && w.space.log[o].seqNo == n;
        PruneKeepsLast(w, cutoff, app, o);
        assert Step(w, a).space.log[o] == w.space.log[o];
      }
    case Register(_, _, _) =>
    case Move(b) =>
      MarkIsTopIffLast(w, app);
      if CanMove(w.space, b) && n > 0 && Mark(w.space, app) != n {
        var o :| o in w.space.log && w.space.log[o].app == Some(app) && w.space.log[o].seqNo == n;
        assert Step(w, a).space.log[o] == w.space.log[o];
      }
  }

  ghost predicate MovesGuarded(w: World, actions: seq<Action>)
    decreases |actions|
  {
    actions == [] || (MoveIsGuarded(w, actions[0]) && MovesGuarded(Step(w, actions[0]), actions[1..]))
  }

  /**
    Over every run whose moves are guarded, each application hands out 1, 2, 3, …
    although pruning removes rows and the mark is not raised on a deleted
    application; the next number is always one above all the earlier ones.
  */
  lemma {:induction false} RunNumbers(w: World, actions: seq<Action>, app: string)
    requires Sound(w) && Numbered(w.history, app) && Anchored(w, app)
    requires MovesGuarded(w, actions)
    ensures
      var w' := Run(w, actions);
      && Sound(w') && Numbered(w'.history, app) && Anchored(w', app)
      && NextSequence(w'.space, app) == |Ordinals(w'.history, app)| + 1
    decreases |actions|
  {
    if actions == [] {
      NextIsCountPlusOne(w, app);
    } else {
      StepSound(w, actions[0]);
      StepNumbers(w, actions[0], app);
      RunNumbers(Step(w, actions[0]), actions[1..], app);
    }
  }

  lemma SequenceNumbers(actions: seq<Action>, app: string)
    requires MovesGuarded(START, actions)
    ensures Numbered(Run(START, actions).history, app)
    ensures NextSequence(Run(START, actions).space, app) == |Ordinals(Run(START, actions).history, app)| + 1
  {
    RunNumbers(START, actions, app);
  }

  /** A move takes an application's rows and leaves it deleted; a deleted one is not moved, so nothing is moved twice. */
  lemma MoveIsFinal(w: World, app: string)
    ensures
      var w' := Step(w, Move(app));
      && Step(w', Move(app)) == w'
      && (app in w.space.tables.apps && w.space.tables.apps[app].deleted ==> w' == w)
      && (app in w.space.tables.apps && !w.space.tables.apps[app].deleted ==>
            && app in w'.space.tables.apps && w'.space.tables.apps[app] == w.space.tables.apps[app].(deleted := true)
            && (forall o :: o in w'.space.log <==> o in w.space.log && w.space.log[o].app != Some(app))
            && GroupsOf(w'.space.tables.rows, app) == map[] && ComponentsOf(w'.space.tables.rows, app) == map[])
  {
  }

  /** The guard is exact: a move keeps the count going if and only if no logged row is above the mark. */
  lemma MoveKeepsCountingIffMarked(w: World, app: string)
    requires Sound(w) && Numbered(w.history, app) && Anchored(w, app) && CanMove(w.space, app)
    ensures NextSequence(Step(w, Move(app)).space, app) == |Ordinals(w.history, app)| + 1 <==> MarkIsTop(w.space, app)
  {
    MarkIsTopIffLast(w, app);
    var s' := Step(w, Move(app)).space;
    assert Numbers(s'.log, app) == {};
    assert Numbers(s'.log, app) + {Mark(w.space, app)} == {Mark(w.space, app)};
  }

  /** The actions neither delete the application nor move it away. */
  ghost predicate KeepsLive(actions: seq<Action>, app: string) {
    forall a :: a in actions ==> !(a.Submit? && a.event.app == Some(app) && a.event.body.ApplicationDeleted?) && a != Move(app)
  }

  ghost predicate LiveAndMarked(w: World, app: string) {
    MarkIsTop(w.space, app) && (app in w.space.tables.apps ==> !w.space.tables.apps[app].deleted)
  }

  lemma SubmitKeepsMarked(w: World, e: Event, now: int, app: string)
    requires Sound(w) && LiveAndMarked(w, app)
    requires !(e.app == Some(app) && e.body.ApplicationDeleted?)
    ensures LiveAndMarked(Step(w, Submit(e, now)), app)
  {
    hide Numbers;
    var (s', out) := Persist(w.space, e, now);
    AllOrNothing(w.space, e, now);
    if out.Stored? {
      StoredMarks(w.space, e, now);
      if e.app == Some(app) {
        LiveMarkIsRaised(w.space, e, now, app);
        forall o | o in w.space.log && w.space.log[o].app == Some(app) ensures w.space.log[o].seqNo < out.row.seqNo {
          NextIsAbove(w.space, app, o);
        }
      } else if e.app.Some? {
        ExecKeepsMark(w.space.tables, e.app.value, e.body, now);
      }
    }
  }

  lemma NextIsAbove(s: Space, app: string, o: nat)
    requires o in s.log && s.log[o].app == Some(app)
    ensures s.log[o].seqNo < NextSequence(s, app)
  {
    assert s.log[o].seqNo in Numbers(s.log, app);
  }

  /** Storing an event of a live application raises its mark to the event's number. */
  lemma LiveMarkIsRaised(s: Space, e: Event, now: int, app: string)
    requires e.app == Some(app) && Persist(s, e, now).1.Stored? && app in s.tables.apps && !s.tables.apps[app].deleted
    requires !e.body.ApplicationDeleted?
    ensures
      var (s', out) := Persist(s, e, now);
      app in s'.tables.apps && s'.tables.apps[app].lastSequence == out.row.seqNo && !s'.tables.apps[app].deleted
  {
    hide Numbers;
    var mark := s.tables.apps[app].lastSequence;
    assert mark in Numbers(s.log, app) + {mark};
  }

  /** So an application that was never deleted nor moved can be moved without reuse of a number. */
  lemma {:induction false} LiveApplicationIsMarked(w: World, actions: seq<Action>, app: string)
    requires Sound(w) && LiveAndMarked(w, app) && KeepsLive(actions, app)
    ensures Sound(Run(w, actions)) && LiveAndMarked(Run(w, actions), app)
    decreases |actions|
  {
    hide Step, LiveAndMarked, Sound;
    if actions != [] {
      var a := actions[0];
      assert a in actions;
      StepSound(w, a);
      if a.Submit? {
        SubmitKeepsMarked(w, a.event, a.now, app);
      } else {
        OtherKeepsMarked(w, a, app);
      }
      assert KeepsLive(actions[1..], app);
      LiveApplicationIsMarked(Step(w, a), actions[1..], app);
    }
  }

  lemma OtherKeepsMarked(w: World, a: Action, app: string)
    requires LiveAndMarked(w, app) && !a.Submit? && a != Move(app)
    ensures LiveAndMarked(Step(w, a), app)
  {
  }

  /**
    The guard can fail: delete an application, bring it back, move it away. The
    event that deleted it had number 1, and so has the first event after the move.
  */
  lemma MoveCanReuseANumber()
    ensures
      var del := Event("e1", Some("a"), "k", ApplicationDeleted);
      var moved := Event("e2", Some("a"), "k", ApplicationMoved);
      var w := Run(START, [Register("a", "A", []), Submit(del, 0), Register("a", "A", []), Move("a"), Submit(moved, 0)]);
      exists o, p :: o != p && o in w.history && p in w.history
                     && w.history[o].app == w.history[p].app == Some("a") && w.history[o].seqNo == w.history[p].seqNo
  {
    var del := Event("e1", Some("a"), "k", ApplicationDeleted);
    var moved := Event("e2", Some("a"), "k", ApplicationMoved);
    var a := [Register("a", "A", []), Submit(del, 0), Register("a", "A", []), Move("a"), Submit(moved, 0)];
    var w1 := Step(START, a[0]);
    assert w1.space.log == map[];
    assert Numbers(w1.space.log, "a") + {0} == {0};
    var w2 := Step(w1, a[1]);
    var row1 := Row("e1", 0, Some("a"), 1, "k", ApplicationDeleted);
    assert w2.history == map[1 := row1];
    var w3 := Step(w2, a[2]);
    var w4 := Step(w3, a[3]);
    assert w4.space.log == map[];
    assert Numbers(w4.space.log, "a") + {0} == {0};
    var w5 := Step(w4, a[4]);
    assert w5.history == map[1 := row1, 2 := Row("e2", 0, Some("a"), 1, "k", ApplicationMoved)];
    FiveSteps(START, a);
    assert w5.history[1].seqNo == w5.history[2].seqNo;
  }

  lemma FiveSteps(w: World, a: seq<Action>)
    requires |a| == 5
    ensures Run(w, a) == Step(Step(Step(Step(Step(w, a[0]), a[1]), a[2]), a[3]), a[4])
  {
    hide Step;
    assert a[1..][1..] == a[2..] && a[2..][1..] == a[3..] && a[3..][1..] == a[4..] && a[4..][1..] == [];
    var w2 := Step(Step(w, a[0]), a[1]);
    var w3 := Step(w2, a[2]);
    assert Run(w, a) == Run(w2, a[2..]);
    assert Run(w2, a[2..]) == Run(w3, a[3..]);
    assert Run(w3, a[3..]) == Run(Step(Step(w3, a[3]), a[4]), []);
  }

  // ----- pruning keeps what matters -----

  /** A row is a top revision of its template in the log exactly when it is one among all rows ever stored. */
  ghost predicate TemplatesKept(w: World) {
    forall o :: (o in w.history && TopRevision(w.history, o)) <==> (o in w.space.log && TopRevision(w.space.log, o))
  }

  /** Every stored template row has a top revision at or above it. */
  lemma TopExists(log: Log, q: nat) returns (m: nat)
    requires q in log && SameTemplate(log[q], log[q])
    ensures m in log && SameTemplate(log[m], log[q]) && TopRevision(log, m) && log[q].body.rev <= log[m].body.rev
  {
    var revs := set o | o in log && SameTemplate(log[o], log[q]) :: log[o].body.rev;
    assert log[q].body.rev in revs;
    var top := MaxOf(revs);
    m :| m in log && SameTemplate(log[m], log[q]) && log[m].body.rev == top;
    forall p | p in log && SameTemplate(log[p], log[m]) ensures log[p].body.rev <= top {
      assert log[p].body.rev in revs;
    }
  }

  lemma AppendKeepsTemplates(log: Log, history: Log, ordinal: nat, row: Row)
    requires Within(log, history) && ordinal !in history
    requires forall o :: (o in history && TopRevision(history, o)) <==> (o in log && TopRevision(log, o))
    ensures
      var log', history' := log[ordinal := row], history[ordinal := row];
      forall o :: (o in history' && TopRevision(history', o)) <==> (o in log' && TopRevision(log', o))
  {
    var log', history' := log[ordinal := row], history[ordinal := row];
    forall o | o != ordinal
      ensures (o in history' && TopRevision(history', o)) <==> (o in log' && TopRevision(log', o))
    {
      AppendTop(history, ordinal, row, o);
      AppendTop(log, ordinal, row, o);
    }
    if SameTemplate(row, row) {
      if TopRevision(log', ordinal) {
        forall q | q in history && SameTemplate(history[q], row) ensures history[q].body.rev <= row.body.rev {
          var m := TopExists(history, q);
          assert log'[m] == history[m];
        }
        assert TopRevision(history', ordinal);
      }
      if TopRevision(history', ordinal) {
        forall q | q in log' && SameTemplate(log'[q], row) ensures log'[q].body.rev <= row.body.rev {
          assert history'[q] == log'[q];
        }
      }
    }
  }

  lemma AppendTop(log: Log, ordinal: nat, row: Row, o: nat)
    requires ordinal !in log && o != ordinal
    ensures (o in log[ordinal := row] && TopRevision(log[ordinal := row], o)) <==>
            (o in log && TopRevision(log, o) && (SameTemplate(row, log[o]) ==> row.body.rev <= log[o].body.rev))
  {
    var log' := log[ordinal := row];
    if o in log && TopRevision(log', o) {
      forall p | p in log && SameTemplate(log[p], log[o]) ensures log[p].body.rev <= log[o].body.rev {
        assert log'[p] == log[p];
      }
      assert log'[ordinal] == row;
    }
  }

  /** Pruning neither loses a top revision nor promotes another row to one. */
  lemma PruneKeepsTops(log: Log, cutoff: int, o: nat)
    ensures (o in log && TopRevision(log, o)) <==> (o in Pruned(log, cutoff) && TopRevision(Pruned(log, cutoff), o))
  {
    var log' := Pruned(log, cutoff);
    if o in log' && TopRevision(log', o) {
      var m := TopExists(log, o);
      assert Anchor(log, m);
      assert m in log' && log'[m] == log[m];
    }
  }

  lemma StepKeepsTemplates(w: World, a: Action)
    requires Sound(w) && TemplatesKept(w)
    ensures TemplatesKept(Step(w, a))
  {
    match a
    case Submit(e, now) =>
      AllOrNothing(w.space, e, now);
      if ValidEvent(e) && Persist(w.space, e, now).1.Stored? {
        AppendKeepsTemplates(w.space.log, w.history, w.space.nextOrdinal, Persist(w.space, e, now).1.row);
      }
    case Prune(cutoff) =>
      forall o {
        PruneKeepsTops(w.space.log, cutoff, o);
      }
    case Register(_, _, _) =>
    case Move(app) =>
      if CanMove(w.space, app) {
        forall o ensures (o in w.space.log && TopRevision(w.space.log, o)) <==>
                         (o in WithoutApp(w.space.log, app) && TopRevision(WithoutApp(w.space.log, app), o)) {
          MoveKeepsTops(w.space.log, app, o);
        }
      }
  }

  lemma MoveKeepsTops(log: Log, app: string, o: nat)
    ensures (o in log && TopRevision(log, o)) <==> (o in WithoutApp(log, app) && TopRevision(WithoutApp(log, app), o))
  {
    var log' := WithoutApp(log, app);
    if o in log' && TopRevision(log', o) {
      forall p | p in log && SameTemplate(log[p], log[o]) ensures log[p].body.rev <= log[o].body.rev {
        assert p in log' && log'[p] == log[p];
      }
    }
  }

  ghost predicate NewestOfApp(log: Log, o: nat, app: string) {
    o in log && log[o].app == Some(app) && forall p :: p in log && log[p].app == Some(app) ==> p <= o
  }

  ghost predicate NewestOfCreator(log: Log, o: nat, creator: string) {
    && o in log && log[o].app.None? && log[o].creator == creator
    && forall p :: p in log && log[p].app.None? && log[p].creator == creator ==> p <= o
  }

  /** The newest row of every application, and of every user-scoped creator, is still in the log. */
  ghost predicate NewestKept(w: World) {
    && (forall o, app :: NewestOfApp(w.unpruned, o, app) ==> o in w.space.log)
    && (forall o, creator :: NewestOfCreator(w.unpruned, o, creator) ==> o in w.space.log)
  }

  lemma NewestOfAppStays(w: World, a: Action, o: nat, app: string)
    requires Sound(w) && NewestKept(w) && NewestOfApp(Step(w, a).unpruned, o, app)
    ensures o in Step(w, a).space.log
  {
    var w' := Step(w, a);
    match a
    case Submit(e, now) =>
      AllOrNothing(w.space, e, now);
      if ValidEvent(e) && Persist(w.space, e, now).1.Stored? && o != w.space.nextOrdinal {
        forall p | p in w.unpruned && w.unpruned[p].app == Some(app) ensures p <= o {
          assert w'.unpruned[p] == w.unpruned[p];
        }
        assert NewestOfApp(w.unpruned, o, app);
      }
    case Prune(_) =>
      assert Anchor(w.space.log, o);
    case Register(_, _, _) =>
    case Move(b) =>
      if CanMove(w.space, b) {
        forall p | p in w.unpruned && w.unpruned[p].app == Some(app) ensures p <= o {
          assert w'.unpruned[p] == w.unpruned[p];
        }
        assert NewestOfApp(w.unpruned, o, app);
      }
  }

  lemma NewestOfCreatorStays(w: World, a: Action, o: nat, creator: string)
    requires Sound(w) && NewestKept(w) && NewestOfCreator(Step(w, a).unpruned, o, creator)
    ensures o in Step(w, a).space.log
  {
    var w' := Step(w, a);
    match a
    case Submit(e, now) =>
      AllOrNothing(w.space, e, now);
      if ValidEvent(e) && Persist(w.space, e, now).1.Stored? && o != w.space.nextOrdinal {
        forall p | p in w.unpruned && w.unpruned[p].app.None? && w.unpruned[p].creator == creator ensures p <= o {
          assert w'.unpruned[p] == w.unpruned[p];
        }
        assert NewestOfCreator(w.unpruned, o, creator);
      }
    case Prune(_) =>
      assert Anchor(w.space.log, o);
    case Register(_, _, _) =>
    case Move(b) =>
      if CanMove(w.space, b) {
        forall p | p in w.unpruned && w.unpruned[p].app.None? && w.unpruned[p].creator == creator ensures p <= o {
          assert w'.unpruned[p] == w.unpruned[p];
        }
        assert NewestOfCreator(w.unpruned, o, creator);
      }
  }

  lemma {:induction false} RunKeeps(w: World, actions: seq<Action>)
    requires Sound(w) && TemplatesKept(w) && NewestKept(w)
    ensures Sound(Run(w, actions)) && TemplatesKept(Run(w, actions)) && NewestKept(Run(w, actions))
    decreases |actions|
  {
    if actions != [] {
      var a, w' := actions[0], Step(w, actions[0]);
      StepSound(w, a);
      StepKeepsTemplates(w, a);
      forall o, app | NewestOfApp(w'.unpruned, o, app) ensures o in w'.space.log {
        NewestOfAppStays(w, a, o, app);
      }
      forall o, creator | NewestOfCreator(w'.unpruned, o, creator) ensures o in w'.space.log {
        NewestOfCreatorStays(w, a, o, creator);
      }
      RunKeeps(w', actions[1..]);
    }
  }

  /**
    Pruning preserves meaning, over every run: the top revisions of every template
    are those of the log that was never pruned, and the newest row of every
    application and of every user-scoped creator is still there.
  */
  lemma PruningPreservesMeaning(actions: seq<Action>)
    ensures TemplatesKept(Run(START, actions)) && NewestKept(Run(START, actions))
  {
    RunKeeps(START, actions);
  }
}
