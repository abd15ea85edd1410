/**
  Rule updates arriving in any order, as often as they like, while the scheduler
  selects, fires and advances rows (internal/reminder). A fire's event is stored
  outside the row's transaction, so a transaction may be lost after it fired.
*/
module ReminderRuns {
  import opened Common
  import opened Numerals
  import opened Offsets
  import opened Reminders

  /** `committed`: the row's transaction was, too. */
  datatype Fire = Fire(key: RowKey, rev: int, occurrenceAt: int, committed: bool)

  datatype RuleRev = RuleRev(rule: string, rev: int)

  /**
    Besides the rows and the components there are: the keys selected and not processed
    yet, once for each worker that holds one, every fire, the update each rule's rows
    come from, every update that was not stale, and every update that landed, stale or
    not: one the table would take.
  */
  datatype World = World(
    components: set<string>,
    rows: Rows,
    selected: multiset<RowKey>,
    fires: seq<Fire>,
    latest: map<string, Update>,
    accepted: map<RuleRev, Update>,
    seen: set<Update>)

  const START := World({}, map[], multiset{}, [], map[], map[], {})

  datatype Action =
    | AddComponent(component: string)
    | Apply(update: Update)
    | Select(keys: set<RowKey>, now: int)
    | Process(key: RowKey, now: int, produced: Produced, commits: bool)

  ghost function Step(cal: Calendar, w: World, a: Action): World {
    match a
    case AddComponent(c) => w.(components := w.components + {c})
    case Apply(u) =>
      if !ValidUpdate(u) || Applied(w.rows, w.components, u).Err? then w
      else if Stale(w.rows, u) then (if Insertable(w.components, u) then w.(seen := w.seen + {u}) else w)
      else
        w.(rows := Applied(w.rows, w.components, u).value, latest := w.latest[u.rule := u],
           accepted := w.accepted[RuleRev(u.rule, u.rev) := u], seen := w.seen + {u})
    case Select(keys, now) => w.(selected := w.selected + multiset(keys * Due(w.rows, now)))
    case Process(k, now, produced, commits) =>
      if k !in w.selected then w
      else if k !in w.rows then w.(selected := w.selected - multiset{k})
      else
        var (row, fired) := Processed(cal, w.rows[k], now, produced);
        w.(selected := w.selected - multiset{k},
           rows := if commits then w.rows[k := row] else w.rows,
           fires := if fired then w.fires + [Fire(k, w.rows[k].rev, w.rows[k].dueAt, commits)] else w.fires)
  }

  ghost function Run(cal: Calendar, w: World, actions: seq<Action>): World
    decreases |actions|
  {
    if actions == [] then w else Run(cal, Step(cal, w, actions[0]), actions[1..])
  }

  // ----- convergence -----

  /** Apart from how far it has come, the row is the one the update asks for at this offset. */
  predicate ComesFrom(row: Row, u: Update, i: int) {
    && 0 <= i < |u.offsets|
    && row == NewRow(u, u.offsets[i], row.fireAt, row.state).(dueAt := row.dueAt)
    && row.state != Cancelled
  }

  /** The rule's rows are exactly those of the update. */
  ghost predicate Describes(rows: Rows, u: Update) {
    forall k: RowKey :: k.rule == u.rule ==>
      if u.cancelled then
        (k in rows <==> k.index == TOMBSTONE) && (k in rows ==> rows[k] == NewRow(u, "PT0S", u.dueAt, Cancelled))
      else
        (k in rows <==> 0 <= k.index < |u.offsets|) && (k in rows ==> ComesFrom(rows[k], u, k.index))
  }

  ghost predicate RowsKnown(rows: Rows, latest: map<string, Update>) {
    forall k :: k in rows ==> k.rule in latest
  }

  ghost predicate LatestDescribed(rows: Rows, latest: map<string, Update>) {
    forall r :: r in latest ==> latest[r].rule == r && Describes(rows, latest[r])
  }

  /** The update in force is one that was seen, and none that was seen exceeds it. */
  ghost predicate LatestIsGreatest(latest: map<string, Update>, seen: set<Update>) {
    && (forall r :: r in latest ==> latest[r].rule == r && latest[r] in seen)
    && (forall u :: u in seen ==> ValidUpdate(u) && NotNewer(u, latest))
  }

  predicate NotNewer(u: Update, latest: map<string, Update>) {
    u.rule in latest && u.rev <= latest[u.rule].rev
  }

  ghost predicate UpToDate(w: World) {
    RowsKnown(w.rows, w.latest) && LatestDescribed(w.rows, w.latest) && LatestIsGreatest(w.latest, w.seen)
  }

  lemma ValidParses(u: Update)
    requires ValidUpdate(u)
    ensures OffsetsParse(u)
  {
    forall i | 0 <= i < |u.offsets| ensures Parses(u, i) {
      ParserAcceptsWhatValidatorDoes(u.offsets[i]);
    }
  }

  /** An update is stale exactly when one of at least its rev is in force. */
  lemma StaleIffOutdated(w: World, u: Update)
    requires UpToDate(w)
    ensures Stale(w.rows, u) <==> u.rule in w.latest && u.rev <= w.latest[u.rule].rev
  {
    hide ValidUpdate;
    if u.rule in w.latest {
      var v := w.latest[u.rule];
      assert v in w.seen && Describes(w.rows, v) && v.rule == u.rule;
      var k := RowKey(u.rule, if v.cancelled then TOMBSTONE else 0);
      assert k in w.rows && w.rows[k].rev == v.rev by {
        HasOffsets(v);
      }
    }
  }

  lemma HasOffsets(u: Update)
    ensures ValidUpdate(u) ==> |u.offsets| > 0
  {
  }

  lemma FreshDescribes(rows: Rows, u: Update)
    requires ValidUpdate(u) && (u.cancelled || OffsetsParse(u))
    ensures Describes(Without(rows, u.rule) + Fresh(u), u)
  {
    hide ValidUpdate;
    var rows' := Without(rows, u.rule) + Fresh(u);
    if !u.cancelled {
      forall k: RowKey | k.rule == u.rule
        ensures (k in rows' <==> 0 <= k.index < |u.offsets|) && (k in rows' ==> ComesFrom(rows'[k], u, k.index))
      {
        FirstRowAt(u, |u.offsets|, k);
      }
    }
  }

  lemma FreshIsOfRule(u: Update)
    requires u.cancelled || OffsetsParse(u)
    ensures forall k :: k in Fresh(u) ==> k.rule == u.rule
  {
    if !u.cancelled {
      forall k | k in Fresh(u) ensures k.rule == u.rule {
        FirstRowAt(u, |u.offsets|, k);
      }
    }
  }

  lemma ApplyStep(cal: Calendar, w: World, u: Update)
    requires ValidUpdate(u) && OffsetsParse(u) && !Stale(w.rows, u) && Insertable(w.components, u)
    ensures
      Step(cal, w, Apply(u)) ==
      w.(rows := Without(w.rows, u.rule) + Fresh(u), latest := w.latest[u.rule := u],
         accepted := w.accepted[RuleRev(u.rule, u.rev) := u], seen := w.seen + {u})
  {
    hide ValidUpdate, OffsetsParse, Stale, Without, Fresh, Insertable;
  }

  /** An update that the table refuses changes nothing. */
  lemma RefusedChangesNothing(cal: Calendar, w: World, u: Update)
    requires !(ValidUpdate(u) && Insertable(w.components, u))
    ensures Step(cal, w, Apply(u)) == w
  {
    HasOffsets(u);
    hide ValidUpdate, Insertable, Stale;
  }

  lemma FreshLatestDescribed(rows: Rows, latest: map<string, Update>, u: Update)
    requires LatestDescribed(rows, latest) && ValidUpdate(u) && OffsetsParse(u)
    ensures LatestDescribed(Without(rows, u.rule) + Fresh(u), latest[u.rule := u])
  {
    hide ValidUpdate, OffsetsParse, Fresh;
    FreshDescribes(rows, u);
    FreshIsOfRule(u);
    forall r | r in latest && r != u.rule ensures Describes(Without(rows, u.rule) + Fresh(u), latest[r]) {
      assert Describes(rows, latest[r]);
      OthersDescribed(rows, Without(rows, u.rule) + Fresh(u), latest[r]);
    }
  }

  lemma ApplyKeepsUpToDate(cal: Calendar, w: World, u: Update)
    requires UpToDate(w)
    ensures UpToDate(Step(cal, w, Apply(u)))
  {
    hide ValidUpdate, OffsetsParse, Fresh, Stale, LatestDescribed, Insertable;
    if ValidUpdate(u) && Insertable(w.components, u) {
      ValidParses(u);
      StaleIffOutdated(w, u);
      if Stale(w.rows, u) {
        assert Step(cal, w, Apply(u)) == w.(seen := w.seen + {u});
      } else {
        ApplyStep(cal, w, u);
        FreshLatestDescribed(w.rows, w.latest, u);
        FreshIsOfRule(u);
      }
    } else {
      RefusedChangesNothing(cal, w, u);
    }
  }

  lemma OthersDescribed(rows: Rows, rows': Rows, u: Update)
    requires Describes(rows, u)
    requires forall k: RowKey :: k.rule == u.rule ==> (k in rows <==> k in rows') && (k in rows ==> rows'[k] == rows[k])
    ensures Describes(rows', u)
  {
  }

  /** Processing moves a pending row along its own series and touches nothing else of it. */
  lemma ProcessedComesFrom(cal: Calendar, row: Row, now: int, produced: Produced, u: Update, i: int)
    requires ComesFrom(row, u, i)
    ensures ComesFrom(Processed(cal, row, now, produced).0, u, i)
  {
    hide FireAt, Scan;
  }

  lemma ProcessKeepsUpToDate(cal: Calendar, w: World, a: Action)
    requires UpToDate(w) && a.Process?
    ensures UpToDate(Step(cal, w, a))
  {
    hide LatestIsGreatest, Processed;
    var w' := Step(cal, w, a);
    if a.key in w.rows && w'.rows != w.rows {
      RowLatestDescribed(cal, w, a.key, a.now, a.produced);
    }
  }

  lemma RowLatestDescribed(cal: Calendar, w: World, k: RowKey, now: int, produced: Produced)
    requires RowsKnown(w.rows, w.latest) && LatestDescribed(w.rows, w.latest) && k in w.rows
    ensures LatestDescribed(w.rows[k := Processed(cal, w.rows[k], now, produced).0], w.latest)
  {
    hide Processed, ComesFrom;
    var u, row := w.latest[k.rule], w.rows[k];
    assert Describes(w.rows, u);
    if u.cancelled {
      CancelledStays(cal, row, now, produced);
      assert w.rows[k := row] == w.rows;
    } else {
      ProcessedComesFrom(cal, row, now, produced, u, k.index);
      forall r | r in w.latest ensures Describes(w.rows[k := Processed(cal, row, now, produced).0], w.latest[r]) {
        assert Describes(w.rows, w.latest[r]);
      }
    }
  }

  lemma CancelledStays(cal: Calendar, row: Row, now: int, produced: Produced)
    requires row.state != Pending
    ensures Processed(cal, row, now, produced) == (row, false)
  {
  }

  lemma StepKeepsUpToDate(cal: Calendar, w: World, a: Action)
    requires UpToDate(w)
    ensures UpToDate(Step(cal, w, a))
  {
    match a
    case AddComponent(_) =>
    case Apply(u) => ApplyKeepsUpToDate(cal, w, u);
    case Select(_, _) =>
    case Process(_, _, _, _) => ProcessKeepsUpToDate(cal, w, a);
  }

  lemma {:induction false} RunKeepsUpToDate(cal: Calendar, w: World, actions: seq<Action>)
    requires UpToDate(w)
    ensures UpToDate(Run(cal, w, actions))
    decreases |actions|
  {
    hide Step, UpToDate;
    if actions != [] {
      StepKeepsUpToDate(cal, w, actions[0]);
      RunKeepsUpToDate(cal, Step(cal, w, actions[0]), actions[1..]);
    }
  }

  /** Some action brings the update when the table takes it. */
  ghost predicate Landed(cal: Calendar, w: World, actions: seq<Action>, u: Update)
    decreases |actions|
  {
    actions != [] &&
    ((actions[0] == Apply(u) && ValidUpdate(u) && Insertable(w.components, u)) || Landed(cal, Step(cal, w, actions[0]), actions[1..], u))
  }

  lemma StepSees(cal: Calendar, w: World, a: Action, u: Update)
    ensures u in Step(cal, w, a).seen <==> u in w.seen || (a == Apply(u) && ValidUpdate(u) && Insertable(w.components, u))
  {
    hide ValidUpdate, Processed, Stale, Insertable, Fresh;
    if a.Apply? {
      if ValidUpdate(a.update) && Insertable(w.components, a.update) {
        ValidParses(a.update);
      } else {
        RefusedChangesNothing(cal, w, a.update);
      }
    }
  }

  lemma {:induction false} SeenHaveLanded(cal: Calendar, w: World, actions: seq<Action>, u: Update)
    ensures u in Run(cal, w, actions).seen <==> u in w.seen || Landed(cal, w, actions, u)
    decreases |actions|
  {
    hide Step, ValidUpdate, Insertable;
    if actions != [] {
      StepSees(cal, w, actions[0], u);
      SeenHaveLanded(cal, Step(cal, w, actions[0]), actions[1..], u);
    }
  }

  /**
    Convergence: whatever the order, the repeats and the scheduler's doings, the rows
    of a rule are those of an update that landed and that no other landed update of the
    rule exceeds in rev; a rule none of whose updates landed has no rows.
  */
  lemma Convergence(cal: Calendar, actions: seq<Action>, rule: string)
    ensures
      var w := Run(cal, START, actions);
      if rule in w.latest then
        var u := w.latest[rule];
        && u.rule == rule && Landed(cal, START, actions, u) && Describes(w.rows, u)
        && forall v :: Landed(cal, START, actions, v) && v.rule == rule ==> v.rev <= u.rev
      else
        (forall v :: Landed(cal, START, actions, v) ==> v.rule != rule) && (forall k :: k in w.rows ==> k.rule != rule)
  {
    RunKeepsUpToDate(cal, START, actions);
    forall v {
      SeenHaveLanded(cal, START, actions, v);
    }
  }

  /** Two runs in which the same updates land, of distinct revs, end with rows of the same update. */
  lemma OrderIsIrrelevant(cal: Calendar, a: seq<Action>, b: seq<Action>, rule: string)
    requires forall u :: Landed(cal, START, a, u) <==> Landed(cal, START, b, u)
    requires forall u, v :: Landed(cal, START, a, u) && Landed(cal, START, a, v) && u.rule == v.rule && u.rev == v.rev ==> u == v
    ensures
      var la, lb := Run(cal, START, a).latest, Run(cal, START, b).latest;
      (rule in la <==> rule in lb) && (rule in la ==> la[rule] == lb[rule])
  {
    hide Describes, Landed;
    Convergence(cal, a, rule);
    Convergence(cal, b, rule);
  }

  // ----- cancelling is final -----

  /** No update in the actions exceeds this rev of the rule. */
  ghost predicate NothingNewer(actions: seq<Action>, rule: string, rev: int) {
    forall u :: Apply(u) in actions && u.rule == rule ==> u.rev <= rev
  }

  ghost predicate FiresOf(w: World, rule: string, n: nat) {
    n <= |w.fires| && forall i :: n <= i < |w.fires| ==> w.fires[i].key.rule != rule
  }

  lemma StepKeepsCancelled(cal: Calendar, w: World, a: Action, rule: string, n: nat)
    requires UpToDate(w) && rule in w.latest && w.latest[rule].cancelled && FiresOf(w, rule, n)
    requires a.Apply? && a.update.rule == rule ==> a.update.rev <= w.latest[rule].rev
    ensures
      var w' := Step(cal, w, a);
      rule in w'.latest && w'.latest[rule] == w.latest[rule] && FiresOf(w', rule, n)
  {
    hide ValidUpdate, Applied, Processed;
    match a
    case AddComponent(_) =>
    case Apply(u) =>
      StaleIffOutdated(w, u);
    case Select(_, _) =>
    case Process(k, now, produced, _) =>
      if k.rule == rule && k in w.rows {
        assert Describes(w.rows, w.latest[rule]);
        CancelledStays(cal, w.rows[k], now, produced);
      }
  }

  /** Once a rule is cancelled, without a newer update it stays cancelled and never fires, though its rows were selected before. */
  lemma {:induction false} CancelIsFinal(cal: Calendar, w: World, actions: seq<Action>, rule: string, n: nat)
    requires UpToDate(w) && rule in w.latest && w.latest[rule].cancelled && FiresOf(w, rule, n)
    requires NothingNewer(actions, rule, w.latest[rule].rev)
    ensures
      var w' := Run(cal, w, actions);
      && rule in w'.latest && w'.latest[rule] == w.latest[rule]
      && Describes(w'.rows, w.latest[rule])
      && FiresOf(w', rule, n)
    decreases |actions|
  {
    hide Step, Describes, ValidUpdate;
    if actions != [] {
      StepKeepsCancelled(cal, w, actions[0], rule, n);
      StepKeepsUpToDate(cal, w, actions[0]);
      CancelIsFinal(cal, Step(cal, w, actions[0]), actions[1..], rule, n);
    }
  }

  // ----- when rows fire -----

  ghost predicate OnSchedule(rows: Rows) {
    forall k :: k in rows ==> FireAt(rows[k].dueAt, rows[k].offset) == Some(rows[k].fireAt)
  }

  lemma NoOffsetIsZero(at: int)
    ensures FireAt(at, "PT0S") == Some(at)
  {
    var zero := Time(false, "", "", "0");
    assert Render(zero) == "PT0S" by {
      assert Part("0", 'S') == "0S" && Part("", 'M') + "0S" == "0S" && Part("", 'H') + "0S" == "0S";
      assert "" + ("PT" + "0S") == "PT0S";
    }
    ScanOfRender(zero);
    assert Value("0") == 0 by {
      assert "0"[..0] == "";
      assert Value("") == 0;
    }
  }

  lemma ApplyKeepsSchedule(rows: Rows, u: Update)
    requires OnSchedule(rows) && (u.cancelled || OffsetsParse(u))
    ensures OnSchedule(Without(rows, u.rule) + Fresh(u))
  {
    hide FireAt;
    NoOffsetIsZero(u.dueAt);
    if !u.cancelled {
      forall k | k in Fresh(u) ensures FireAt(Fresh(u)[k].dueAt, Fresh(u)[k].offset) == Some(Fresh(u)[k].fireAt) {
        FirstRowAt(u, |u.offsets|, k);
        assert Parses(u, k.index);
      }
    }
  }

  /** At every moment of every run a row's fire time is its due time plus its offset. */
  lemma {:induction false} RunKeepsSchedule(cal: Calendar, w: World, actions: seq<Action>)
    requires OnSchedule(w.rows)
    ensures OnSchedule(Run(cal, w, actions).rows)
    decreases |actions|
  {
    hide FireAt, ValidUpdate, Stale, Fresh, Scan, Insertable;
    if actions != [] {
      if actions[0].Apply? && Applied(w.rows, w.components, actions[0].update).Ok? && !Stale(w.rows, actions[0].update) {
        ApplyKeepsSchedule(w.rows, actions[0].update);
      }
      RunKeepsSchedule(cal, Step(cal, w, actions[0]), actions[1..]);
    }
  }

  /**
    At every moment of every run each row has a written offset, and its fire time is
    that many seconds before or after its due time (if they fit 64 bits of nanoseconds).
  */
  lemma RowsFireOnTheirOffset(cal: Calendar, actions: seq<Action>, k: RowKey, negative: bool, length: nat)
    ensures
      var rows := Run(cal, START, actions).rows;
      k in rows ==>
        && (exists before: bool, l: nat :: Spells(rows[k].offset, before, l))
        && (Spells(rows[k].offset, negative, length) ==>
              (rows[k].fireAt == (if negative then rows[k].dueAt - length else rows[k].dueAt + length) <==> length <= MAX_LENGTH))
  {
    hide FireAt, Spells, Run, Scan;
    RunKeepsSchedule(cal, START, actions);
    var rows := Run(cal, START, actions).rows;
    if k in rows {
      assert FireAt(rows[k].dueAt, rows[k].offset).Some?;
      var before, l := OffsetsSpell(rows[k].offset);
      if Spells(rows[k].offset, negative, length) {
        FireAtIsOff(rows[k].dueAt, rows[k].offset, negative, length);
      }
    }
  }

  // ----- what becomes of a row -----

  /** A row that fired goes on to the occurrence after, as far from its due time as before, or is done. */
  predicate GoesOn(cal: Calendar, row: Row, row': Row) {
    var next := if row.rrule == "" then None else cal.next(row.rrule, row.tz, row.anchorAt, row.dueAt);
    if next.None? then row' == row.(state := State.Done)
    else row' == row.(dueAt := next.value, fireAt := next.value + (row.fireAt - row.dueAt))
  }

  /**
    What processing does in every reachable state. A pending row no more than a day
    late fires and goes on if its event is stored; is skipped if the event is refused
    for good, or it is later than that; and stays as it is if the event fails for now,
    as does every row that is not pending. A lost transaction leaves the row.
  */
  lemma ProcessingIs(cal: Calendar, actions: seq<Action>, k: RowKey, now: int, produced: Produced, commits: bool)
    ensures
      var w := Run(cal, START, actions);
      k in w.selected && k in w.rows ==>
        var w', row := Step(cal, w, Process(k, now, produced, commits)), w.rows[k];
        && k in w'.rows
        && var row', inTime := w'.rows[k], row.state == Pending && now - row.fireAt <= 86400;
           && w'.fires == (if inTime && produced == Stored then w.fires + [Fire(k, row.rev, row.dueAt, commits)] else w.fires)
           && (!commits ==> row' == row)
           && (commits && inTime && produced == Stored ==> GoesOn(cal, row, row'))
           && (commits && ((inTime && produced == Unappliable) || (row.state == Pending && !inTime)) ==> row' == row.(state := Skipped))
           && ((inTime && produced == Failed) || row.state != Pending ==> row' == row)
  {
    hide FireAt, Scan, Run;
    RunKeepsSchedule(cal, START, actions);
    var w := Run(cal, START, actions);
    if k in w.selected && k in w.rows {
      var row := w.rows[k];
      assert FireAt(row.dueAt, row.offset) == Some(row.fireAt);
      var next := NextOccurrence(cal, row);
      if next.Some? {
        FireAtShifts(row.dueAt, next.value, row.offset);
      }
    }
  }

  lemma StartIsUpToDate()
    ensures UpToDate(START)
  {
  }

  /** Every row carries what the update in force says, column by column. */
  lemma RowsCarryUpdate(cal: Calendar, actions: seq<Action>, k: RowKey)
    ensures
      var w := Run(cal, START, actions);
      k in w.rows ==>
        && k.rule in w.latest
        && var row, u := w.rows[k], w.latest[k.rule];
           && row.app == u.app && row.component == u.component && row.targetKey == u.targetKey && row.title == u.title
           && row.tz == u.tz && row.rrule == u.rrule && row.recipients == u.recipients && row.rev == u.rev && row.anchorAt == u.dueAt
           && (row.state == Cancelled <==> u.cancelled)
           && if u.cancelled then k.index == -1 else 0 <= k.index < |u.offsets| && row.offset == u.offsets[k.index]
  {
    hide Run, LatestIsGreatest;
    RunKeepsUpToDate(cal, START, actions) by {
      StartIsUpToDate();
    }
    var w := Run(cal, START, actions);
    if k in w.rows {
      assert Describes(w.rows, w.latest[k.rule]);
    }
  }

  ghost predicate SeenInsertable(w: World) {
    forall u :: u in w.seen ==> Insertable(w.components, u)
  }

  lemma MoreComponents(components: set<string>, components': set<string>, u: Update)
    requires Insertable(components, u) && components <= components'
    ensures Insertable(components', u)
  {
  }

  lemma {:induction false} RunKeepsInsertable(cal: Calendar, w: World, actions: seq<Action>)
    requires SeenInsertable(w)
    ensures SeenInsertable(Run(cal, w, actions))
    decreases |actions|
  {
    hide Step, Insertable, ValidUpdate;
    if actions != [] {
      var w' := Step(cal, w, actions[0]);
      ComponentsStay(cal, w, actions[0]);
      forall u | u in w'.seen ensures Insertable(w'.components, u) {
        StepSees(cal, w, actions[0], u);
        MoreComponents(w.components, w'.components, u);
      }
      RunKeepsInsertable(cal, w', actions[1..]);
    }
  }

  lemma ComponentsStay(cal: Calendar, w: World, a: Action)
    ensures w.components <= Step(cal, w, a).components
  {
    hide Processed, Applied, ValidUpdate, Stale, Insertable;
  }

  /** No row ever names a component that is not there, holds a NUL, or lacks what validation asks for. */
  lemma RowsAreValid(cal: Calendar, actions: seq<Action>, k: RowKey)
    ensures
      var w := Run(cal, START, actions);
      k in w.rows ==>
        var row := w.rows[k];
        && row.component in w.components && row.component != "" && row.targetKey != "" && row.tz != "" && k.rule != ""
        && row.anchorAt > 0 && row.rev >= 0
        && '\0' !in k.rule && '\0' !in row.app && '\0' !in row.component && '\0' !in row.targetKey && '\0' !in row.title
        && '\0' !in row.tz && '\0' !in row.rrule && '\0' !in row.offset
        && forall i :: 0 <= i < |row.recipients| ==> '\0' !in row.recipients[i]
  {
    hide Run;
    RunKeepsUpToDate(cal, START, actions);
    RunKeepsInsertable(cal, START, actions);
    RowsCarryUpdate(cal, actions, k);
    var w := Run(cal, START, actions);
    if k in w.rows {
      var u := w.latest[k.rule];
      assert u in w.seen && Insertable(w.components, u) && ValidUpdate(u);
      if u.cancelled {
        assert Describes(w.rows, u);
      }
    }
  }

  // ----- which occurrences fire -----

  function NextOf(cal: Calendar, u: Update, current: int): Option<int> {
    if u.rrule == "" then None else cal.next(u.rrule, u.tz, u.dueAt, current)
  }

  /** The beginning of the update's series: its due time, then occurrence by occurrence. */
  predicate Series(cal: Calendar, u: Update, s: seq<int>) {
    && (s != [] ==> s[0] == u.dueAt)
    && forall i :: 0 <= i < |s| - 1 ==> NextOf(cal, u, s[i]) == Some(s[i + 1])
  }

  /** The occurrences a row of this rev fired and advanced past, in order. */
  function Fired(fires: seq<Fire>, k: RowKey, rev: int): seq<int>
    decreases |fires|
  {
    if fires == [] then []
    else
      var f := fires[|fires| - 1];
      Fired(fires[..|fires| - 1], k, rev) + if f.key == k && f.rev == rev && f.committed then [f.occurrenceAt] else []
  }

  lemma FiredSnoc(fires: seq<Fire>, f: Fire, k: RowKey, rev: int)
    ensures Fired(fires + [f], k, rev) ==
            Fired(fires, k, rev) + if f.key == k && f.rev == rev && f.committed then [f.occurrenceAt] else []
  {
    assert (fires + [f])[..|fires|] == fires;
  }

  /** A pending or skipped row is due for the occurrence after those it fired, a done row fired the last one. */
  ghost predicate Progressed(cal: Calendar, row: Row, u: Update, fired: seq<int>) {
    match row.state
    case Pending => Series(cal, u, fired + [row.dueAt])
    case Skipped => Series(cal, u, fired + [row.dueAt])
    case Done => Series(cal, u, fired) && fired != [] && NextOf(cal, u, fired[|fired| - 1]).None?
    case Cancelled => fired == []
  }

  ghost predicate RowsProgress(cal: Calendar, w: World) {
    forall k :: k in w.rows ==>
      && k.rule in w.latest && w.rows[k].rev == w.latest[k.rule].rev
      && Progressed(cal, w.rows[k], w.latest[k.rule], Fired(w.fires, k, w.rows[k].rev))
  }

  ghost predicate FiredInOrder(cal: Calendar, w: World, k: RowKey, rev: int) {
    Fired(w.fires, k, rev) != [] ==>
      RuleRev(k.rule, rev) in w.accepted && Series(cal, w.accepted[RuleRev(k.rule, rev)], Fired(w.fires, k, rev))
  }

  ghost predicate AcceptedFit(latest: map<string, Update>, accepted: map<RuleRev, Update>) {
    && (forall r :: r in latest ==> RuleRev(r, latest[r].rev) in accepted && accepted[RuleRev(r, latest[r].rev)] == latest[r])
    && (forall x :: x in accepted ==> x.rule in latest && x.rev <= latest[x.rule].rev)
  }

  ghost predicate Orderly(cal: Calendar, w: World) {
    && AcceptedFit(w.latest, w.accepted)
    && RowsProgress(cal, w)
    && (forall k, rev :: FiredInOrder(cal, w, k, rev))
  }

  lemma ProcessedProgresses(cal: Calendar, row: Row, now: int, produced: Produced, u: Update, i: int, fired: seq<int>)
    requires ComesFrom(row, u, i) && Scan(row.offset).Some?
    requires Progressed(cal, row, u, fired)
    ensures
      var (row', fires) := Processed(cal, row, now, produced);
      && row'.rev == row.rev
      && Progressed(cal, row', u, if fires then fired + [row.dueAt] else fired)
      && (fires ==> Series(cal, u, fired + [row.dueAt]))
  {
    hide FireAt, Scan;
    var (row', fires) := Processed(cal, row, now, produced);
    if fires {
      assert NextOccurrence(cal, row) == NextOf(cal, u, row.dueAt);
      if row'.state.Pending? {
        SeriesSnoc(cal, u, fired + [row.dueAt], row'.dueAt);
      }
    }
  }

  lemma SeriesSnoc(cal: Calendar, u: Update, s: seq<int>, next: int)
    requires Series(cal, u, s) && s != [] && NextOf(cal, u, s[|s| - 1]) == Some(next)
    ensures Series(cal, u, s + [next])
  {
  }

  /** `occ` is what a step adds to the fired occurrences of row `k`, if anything. */
  ghost predicate FiresMore(w: World, w': World, k: RowKey, occ: seq<int>)
    requires k in w.rows
  {
    forall j, rev :: Fired(w'.fires, j, rev) == if j == k && rev == w.rows[k].rev then Fired(w.fires, j, rev) + occ else Fired(w.fires, j, rev)
  }

  lemma RowMoves(cal: Calendar, w: World, w': World, k: RowKey, row': Row, occ: seq<int>)
    requires Orderly(cal, w) && k in w.rows && FiresMore(w, w', k, occ)
    requires w'.rows == w.rows[k := row'] && w'.latest == w.latest && w'.accepted == w.accepted && row'.rev == w.rows[k].rev
    requires k.rule in w.latest && Progressed(cal, row', w.latest[k.rule], Fired(w.fires, k, row'.rev) + occ)
    requires occ == [] || Series(cal, w.latest[k.rule], Fired(w.fires, k, row'.rev) + occ)
    ensures Orderly(cal, w')
  {
    hide Progressed, Series, Fired;
    assert RowsProgress(cal, w');
    forall j, rev ensures FiredInOrder(cal, w', j, rev) {
      assert FiredInOrder(cal, w, j, rev);
      assert occ == [] ==> Fired(w.fires, j, rev) + occ == Fired(w.fires, j, rev);
    }
  }

  lemma ProcessFiresMore(cal: Calendar, w: World, a: Action)
    requires a.Process? && a.key in w.selected && a.key in w.rows
    ensures FiresMore(w, Step(cal, w, a), a.key,
                      if a.commits && Processed(cal, w.rows[a.key], a.now, a.produced).1 then [w.rows[a.key].dueAt] else [])
  {
    hide Processed;
    var w', k, row := Step(cal, w, a), a.key, w.rows[a.key];
    forall j, rev ensures
      Fired(w'.fires, j, rev) == Fired(w.fires, j, rev)
        + if j == k && rev == row.rev && a.commits && Processed(cal, row, a.now, a.produced).1 then [row.dueAt] else []
    {
      FiredSnoc(w.fires, Fire(k, row.rev, row.dueAt, a.commits), j, rev);
      assert Fired(w.fires, j, rev) + [] == Fired(w.fires, j, rev);
    }
  }

  lemma ProcessKeepsOrder(cal: Calendar, w: World, a: Action)
    requires UpToDate(w) && OnSchedule(w.rows) && Orderly(cal, w)
    requires a.Process? && a.key in w.selected && a.key in w.rows && w.rows[a.key].state == Pending
    ensures Orderly(cal, Step(cal, w, a))
  {
    hide Processed, Progressed, FireAt, ValidUpdate, ComesFrom, Series, Fired;
    var w', k := Step(cal, w, a), a.key;
    var row, u := w.rows[k], w.latest[k.rule];
    var fired := Fired(w.fires, k, row.rev);
    assert Describes(w.rows, u) && !u.cancelled && ComesFrom(row, u, k.index);
    ProcessedProgresses(cal, row, a.now, a.produced, u, k.index, fired);
    ProcessFiresMore(cal, w, a);
    var (row', fires) := Processed(cal, row, a.now, a.produced);
    assert fired + [] == fired;
    if a.commits {
      RowMoves(cal, w, w', k, row', if fires then [row.dueAt] else []);
    } else {
      assert w.rows == w.rows[k := row];
      RowMoves(cal, w, w', k, row, []);
    }
  }

  lemma FreshProgresses(cal: Calendar, u: Update, k: RowKey)
    requires u.cancelled || OffsetsParse(u)
    requires k in Fresh(u)
    ensures Fresh(u)[k].rev == u.rev && Progressed(cal, Fresh(u)[k], u, [])
  {
    FreshRow(u, k);
    assert [] + [u.dueAt] == [u.dueAt];
  }

  lemma ApplyRowsProgress(cal: Calendar, w: World, u: Update)
    requires UpToDate(w) && Orderly(cal, w)
    requires ValidUpdate(u) && OffsetsParse(u) && !Stale(w.rows, u) && Insertable(w.components, u)
    ensures RowsProgress(cal, Step(cal, w, Apply(u)))
  {
    hide FireAt, ValidUpdate, Describes, Fresh, Stale, OffsetsParse, Progressed, Series, Fired, Insertable, Step;
    var w' := Step(cal, w, Apply(u));
    StaleIffOutdated(w, u);
    ApplyStep(cal, w, u);
    FreshIsOfRule(u);
    forall k | k in w'.rows
      ensures k.rule in w'.latest && w'.rows[k].rev == w'.latest[k.rule].rev
      ensures Progressed(cal, w'.rows[k], w'.latest[k.rule], Fired(w'.fires, k, w'.rows[k].rev))
    {
      if k.rule == u.rule {
        FreshProgresses(cal, u, k);
        assert FiredInOrder(cal, w, k, u.rev);
      } else {
        assert k in w.rows && w'.rows[k] == w.rows[k];
      }
    }
  }

  lemma AcceptedStaysFit(latest: map<string, Update>, accepted: map<RuleRev, Update>, u: Update)
    requires AcceptedFit(latest, accepted)
    requires u.rule in latest ==> latest[u.rule].rev < u.rev
    ensures RuleRev(u.rule, u.rev) !in accepted
    ensures AcceptedFit(latest[u.rule := u], accepted[RuleRev(u.rule, u.rev) := u])
  {
  }

  lemma ApplyKeepsOrder(cal: Calendar, w: World, u: Update)
    requires UpToDate(w) && Orderly(cal, w)
    requires ValidUpdate(u) && OffsetsParse(u) && !Stale(w.rows, u) && Insertable(w.components, u)
    ensures Orderly(cal, Step(cal, w, Apply(u)))
  {
    hide FireAt, ValidUpdate, Fresh, Stale, OffsetsParse, Series, Fired, RowsProgress, AcceptedFit, UpToDate, Insertable, Step;
    var w' := Step(cal, w, Apply(u));
    StaleIffOutdated(w, u);
    ApplyRowsProgress(cal, w, u);
    ApplyStep(cal, w, u);
    AcceptedStaysFit(w.latest, w.accepted, u);
    forall k, rev ensures FiredInOrder(cal, w', k, rev) {
      assert FiredInOrder(cal, w, k, rev);
    }
  }

  lemma FreshRow(u: Update, k: RowKey)
    requires u.cancelled || OffsetsParse(u)
    requires k in Fresh(u)
    ensures
      var row := Fresh(u)[k];
      row.rev == u.rev && row.dueAt == u.dueAt && (row.state == Pending || row.state == Cancelled)
  {
    if !u.cancelled {
      FirstRowAt(u, |u.offsets|, k);
    }
  }

  lemma StepKeepsOrder(cal: Calendar, w: World, a: Action)
    requires UpToDate(w) && OnSchedule(w.rows) && Orderly(cal, w)
    ensures Orderly(cal, Step(cal, w, a))
  {
    hide Orderly, UpToDate, OnSchedule, ValidUpdate, Applied, Stale, Insertable, Processed;
    match a
    case AddComponent(_) => SameRowsKeepOrder(cal, w, Step(cal, w, a));
    case Apply(u) => StepApplyKeepsOrder(cal, w, u);
    case Select(_, _) =>
      SameRowsKeepOrder(cal, w, Step(cal, w, a));
    case Process(k, now, produced, commits) =>
      if k in w.selected && k in w.rows && w.rows[k].state == Pending {
        ProcessKeepsOrder(cal, w, a);
      } else {
        if k in w.rows && w.rows[k].state != Pending {
          CancelledStays(cal, w.rows[k], now, produced);
          assert w.rows[k := w.rows[k]] == w.rows;
        }
        SameRowsKeepOrder(cal, w, Step(cal, w, a));
      }
  }

  lemma StepApplyKeepsOrder(cal: Calendar, w: World, u: Update)
    requires UpToDate(w) && Orderly(cal, w)
    ensures Orderly(cal, Step(cal, w, Apply(u)))
  {
    hide ValidUpdate, OffsetsParse, UpToDate, Orderly, Insertable;
    if ValidUpdate(u) && Insertable(w.components, u) {
      ValidParses(u);
      if Stale(w.rows, u) {
        SameRowsKeepOrder(cal, w, Step(cal, w, Apply(u)));
      } else {
        ApplyKeepsOrder(cal, w, u);
      }
    } else {
      RefusedChangesNothing(cal, w, u);
    }
  }

  lemma SameRowsKeepOrder(cal: Calendar, w: World, w': World)
    requires Orderly(cal, w)
    requires w'.rows == w.rows && w'.fires == w.fires && w'.latest == w.latest && w'.accepted == w.accepted
    ensures Orderly(cal, w')
  {
    hide Progressed, Series, Fired;
    forall k, rev ensures FiredInOrder(cal, w', k, rev) {
      assert FiredInOrder(cal, w, k, rev);
    }
  }

  ghost predicate Inv(cal: Calendar, w: World) {
    UpToDate(w) && OnSchedule(w.rows) && Orderly(cal, w)
  }

  lemma {:induction false} RunKeepsInv(cal: Calendar, w: World, actions: seq<Action>)
    requires Inv(cal, w)
    ensures Inv(cal, Run(cal, w, actions))
    decreases |actions|
  {
    hide Step, UpToDate, OnSchedule, Orderly;
    if actions != [] {
      var w' := Step(cal, w, actions[0]);
      StepKeepsUpToDate(cal, w, actions[0]);
      StepKeepsOrder(cal, w, actions[0]);
      RunKeepsSchedule(cal, w, [actions[0]]);
      OneStep(cal, w, actions[0]);
      RunKeepsInv(cal, w', actions[1..]);
    }
  }

  lemma OneStep(cal: Calendar, w: World, a: Action)
    ensures Run(cal, w, [a]) == Step(cal, w, a)
  {
    hide Step;
    assert Run(cal, Step(cal, w, a), [a][1..]) == Step(cal, w, a);
  }

  /**
    Over every run, what a row of a given rev fired and advanced past is the beginning
    of its rule's series as that update set it; a pending row's due time continues it,
    and a row is done only at the series' end.
  */
  lemma FiresAreSeries(cal: Calendar, actions: seq<Action>, k: RowKey, rev: int)
    ensures
      var w := Run(cal, START, actions);
      && FiredInOrder(cal, w, k, rev)
      && (k in w.rows ==> k.rule in w.latest && Progressed(cal, w.rows[k], w.latest[k.rule], Fired(w.fires, k, w.rows[k].rev)))
  {
    hide UpToDate, OnSchedule, FireAt;
    StartIsFine(cal);
    RunKeepsInv(cal, START, actions);
  }

  lemma StartIsFine(cal: Calendar)
    ensures Inv(cal, START)
  {
  }

  /** A fire whose transaction is lost is of the occurrence that comes next, which the row will fire again. */
  lemma LostFireIsNext(cal: Calendar, actions: seq<Action>, k: RowKey, now: int, produced: Produced)
    ensures
      var w := Run(cal, START, actions);
      var w' := Step(cal, w, Process(k, now, produced, false));
      w'.fires != w.fires ==>
        && k in w.rows && w'.rows == w.rows && k.rule in w.latest
        && w'.fires == w.fires + [Fire(k, w.rows[k].rev, w.rows[k].dueAt, false)]
        && Series(cal, w.latest[k.rule], Fired(w.fires, k, w.rows[k].rev) + [w.rows[k].dueAt])
  {
    hide UpToDate, OnSchedule, FireAt;
    StartIsFine(cal);
    RunKeepsInv(cal, START, actions);
  }

  // ----- a series is what RFC 5545 asks for -----

  /** The recurrence library: `occurs` says when a rule anchored at a time recurs, `next` is the first such time after another. */
  ghost predicate Lawful(cal: Calendar, occurs: (string, string, int, int) -> bool) {
    forall rrule, tz, anchor, current :: IsNext(occurs, rrule, tz, anchor, current, cal.next(rrule, tz, anchor, current))
  }

  ghost predicate IsNext(occurs: (string, string, int, int) -> bool, rrule: string, tz: string, anchor: int, current: int, next: Option<int>) {
    if next.None? then forall t :: t > current ==> !occurs(rrule, tz, anchor, t)
    else next.value > current && occurs(rrule, tz, anchor, next.value) && forall t :: current < t < next.value ==> !occurs(rrule, tz, anchor, t)
  }

  /** A series is in order, without repeats, and from its start to its end misses no occurrence. */
  lemma {:induction false} SeriesIsExact(cal: Calendar, occurs: (string, string, int, int) -> bool, u: Update, s: seq<int>)
    requires Lawful(cal, occurs) && u.rrule != "" && s != [] && Series(cal, u, s)
    ensures s[0] == u.dueAt && forall i, j :: 0 <= i < j < |s| ==> s[i] < s[j]
    ensures forall i :: 0 < i < |s| ==> occurs(u.rrule, u.tz, u.dueAt, s[i])
    ensures forall t :: u.dueAt < t <= s[|s| - 1] && occurs(u.rrule, u.tz, u.dueAt, t) ==> t in s
    decreases |s|
  {
    if |s| > 1 {
      var front, last := s[..|s| - 1], s[|s| - 2];
      SeriesIsExact(cal, occurs, u, front);
      assert IsNext(occurs, u.rrule, u.tz, u.dueAt, last, cal.next(u.rrule, u.tz, u.dueAt, last));
      NextIsNext(cal, occurs, u, last, s[|s| - 1]);
      assert s == front + [s[|s| - 1]];
      forall t | u.dueAt < t <= s[|s| - 1] && occurs(u.rrule, u.tz, u.dueAt, t) ensures t in s {
        assert t <= last ==> t in front;
      }
    }
  }

  lemma NextIsNext(cal: Calendar, occurs: (string, string, int, int) -> bool, u: Update, current: int, next: int)
    requires IsNext(occurs, u.rrule, u.tz, u.dueAt, current, cal.next(u.rrule, u.tz, u.dueAt, current))
    requires u.rrule != "" && NextOf(cal, u, current) == Some(next)
    ensures next > current && occurs(u.rrule, u.tz, u.dueAt, next)
    ensures forall t :: current < t < next ==> !occurs(u.rrule, u.tz, u.dueAt, t)
  {
  }

  // ----- done and skipped rows rest -----

  ghost predicate Rests(w: World, k: RowKey, row: Row, n: nat) {
    && k in w.rows && w.rows[k] == row
    && n <= |w.fires| && forall i :: n <= i < |w.fires| ==> w.fires[i].key != k
  }

  /** A row that is done or skipped stays so, and does not fire, until its rule is replaced. */
  lemma {:induction false} RestingRowsStay(cal: Calendar, w: World, actions: seq<Action>, k: RowKey, row: Row, n: nat)
    requires Rests(w, k, row, n) && row.state != Pending
    requires NothingNewer(actions, k.rule, row.rev)
    ensures Rests(Run(cal, w, actions), k, row, n)
    decreases |actions|
  {
    hide ValidUpdate, FireAt, Scan;
    if actions != [] {
      StepRests(cal, w, actions[0], k, row, n);
      RestingRowsStay(cal, Step(cal, w, actions[0]), actions[1..], k, row, n);
    }
  }

  lemma StepRests(cal: Calendar, w: World, a: Action, k: RowKey, row: Row, n: nat)
    requires Rests(w, k, row, n) && row.state != Pending
    requires a.Apply? && a.update.rule == k.rule ==> a.update.rev <= row.rev
    ensures Rests(Step(cal, w, a), k, row, n)
  {
    hide ValidUpdate, Processed;
    match a
    case AddComponent(_) =>
    case Apply(u) =>
      if u.rule == k.rule {
        assert Stale(w.rows, u);
      } else if u.cancelled || OffsetsParse(u) {
        FreshIsOfRule(u);
      }
    case Select(_, _) =>
    case Process(j, now, produced, _) =>
      if j == k {
        CancelledStays(cal, row, now, produced);
      }
  }

  // ----- on time, or early -----

  /** A worker that holds the key and processes it now fires an occurrence whose time has not come. */
  ghost predicate FiresEarly(cal: Calendar, w: World, k: RowKey, now: int) {
    && k in w.selected && k in w.rows && w.rows[k].fireAt > now
    && Step(cal, w, Process(k, now, Stored, true)).fires != w.fires
  }

  /** `lockRow` asks only whether the row is pending, and a row ahead of its time is within grace. */
  lemma EarlyIfPendingAhead(cal: Calendar, w: World, k: RowKey, now: int)
    requires OnSchedule(w.rows) && k in w.selected
    ensures FiresEarly(cal, w, k, now) <==> k in w.rows && w.rows[k].state == Pending && w.rows[k].fireAt > now
  {
    hide FireAt, Scan;
    if k in w.rows {
      assert FireAt(w.rows[k].dueAt, w.rows[k].offset).Some?;
    }
  }

  ghost predicate NotProcessed(actions: seq<Action>, k: RowKey) {
    forall now, produced, commits :: Process(k, now, produced, commits) !in actions
  }

  /**
    A row nobody processes is as it was, under the same update, or as a newer update
    inserted it, if that has such an offset.
  */
  ghost predicate KeptOrFresh(before: World, after: World, k: RowKey)
    requires k in before.rows && k.rule in before.latest
  {
    && k.rule in after.latest
    && var u, v := before.latest[k.rule], after.latest[k.rule];
       if v.rev <= u.rev then v == u && k in after.rows && after.rows[k] == before.rows[k]
       else
         && ValidUpdate(v) && OffsetsParse(v)
         && (k in after.rows <==> k in Fresh(v)) && (k in after.rows ==> after.rows[k] == Fresh(v)[k])
  }

  lemma ApplyKeepsOrRefreshes(cal: Calendar, before: World, w: World, v: Update, k: RowKey)
    requires UpToDate(w) && k in before.rows && k.rule in before.latest && KeptOrFresh(before, w, k)
    ensures KeptOrFresh(before, Step(cal, w, Apply(v)), k)
  {
    hide ValidUpdate, OffsetsParse, Insertable, Stale, Fresh, UpToDate, Step;
    if ValidUpdate(v) && Insertable(w.components, v) {
      ValidParses(v);
      StaleIffOutdated(w, v);
      if Stale(w.rows, v) {
        StaleStep(cal, w, v);
      } else {
        ApplyStep(cal, w, v);
        FreshIsOfRule(v);
      }
    } else {
      RefusedChangesNothing(cal, w, v);
    }
  }

  lemma StaleStep(cal: Calendar, w: World, u: Update)
    requires ValidUpdate(u) && Stale(w.rows, u) && Insertable(w.components, u)
    ensures Step(cal, w, Apply(u)) == w.(seen := w.seen + {u})
  {
    hide ValidUpdate, Stale, Insertable;
  }

  lemma StepKeepsOrRefreshes(cal: Calendar, before: World, w: World, a: Action, k: RowKey)
    requires UpToDate(w) && k in before.rows && k.rule in before.latest && KeptOrFresh(before, w, k)
    requires a.Process? ==> a.key != k
    ensures KeptOrFresh(before, Step(cal, w, a), k)
  {
    hide ValidUpdate, OffsetsParse, Fresh, Processed, UpToDate, Applied;
    if a.Apply? {
      ApplyKeepsOrRefreshes(cal, before, w, a.update, k);
    }
  }

  lemma {:induction false} RunKeepsOrRefreshes(cal: Calendar, before: World, w: World, actions: seq<Action>, k: RowKey)
    requires UpToDate(w) && k in before.rows && k.rule in before.latest && KeptOrFresh(before, w, k)
    requires NotProcessed(actions, k)
    ensures UpToDate(Run(cal, w, actions)) && KeptOrFresh(before, Run(cal, w, actions), k)
    ensures w.selected[k] <= Run(cal, w, actions).selected[k]
    decreases |actions|
  {
    hide UpToDate, KeptOrFresh;
    if actions != [] {
      var a := actions[0];
      assert a in actions;
      assert a.Process? ==> a == Process(a.key, a.now, a.produced, a.commits);
      StepKeepsOrRefreshes(cal, before, w, a, k);
      StepKeepsUpToDate(cal, w, a);
      StepKeepsSelected(cal, w, a, k);
      assert NotProcessed(actions[1..], k);
      hide Step;
      RunKeepsOrRefreshes(cal, before, Step(cal, w, a), actions[1..], k);
    }
  }

  lemma StepKeepsSelected(cal: Calendar, w: World, a: Action, k: RowKey)
    requires a.Process? ==> a.key != k
    ensures w.selected[k] <= Step(cal, w, a).selected[k]
  {
    hide ValidUpdate, Processed, Applied, Stale;
  }

  /** What a newer update leaves of a row: pending and ahead, exactly when it has such an offset and puts it ahead. */
  lemma FreshIsAhead(v: Update, k: RowKey, now: int)
    requires OffsetsParse(v) && k.rule == v.rule
    ensures
      k in Fresh(v) && Fresh(v)[k].state == Pending && Fresh(v)[k].fireAt > now <==>
      !v.cancelled && Parses(v, k.index) && FireAt(v.dueAt, v.offsets[k.index]).value > now
  {
    hide FireAt;
    if !v.cancelled {
      FirstRowAt(v, |v.offsets|, k);
    }
  }

  /**
    A row that was due when selected, and that nobody else processes, fires early if
    and only if its rule was replaced in between by an update that still has this
    offset and puts it ahead.
  */
  lemma FiresEarlyIffMovedAhead(cal: Calendar, w: World, k: RowKey, selectedAt: int, between: seq<Action>, now: int)
    requires UpToDate(w) && OnSchedule(w.rows)
    requires k in Due(w.rows, selectedAt) && selectedAt <= now && NotProcessed(between, k)
    ensures
      var w' := Run(cal, Step(cal, w, Select({k}, selectedAt)), between);
      && k.rule in w.latest && k.rule in w'.latest
      && var v := w'.latest[k.rule];
         FiresEarly(cal, w', k, now) <==>
         v.rev > w.latest[k.rule].rev && !v.cancelled && Parses(v, k.index) && FireAt(v.dueAt, v.offsets[k.index]).value > now
  {
    hide FireAt, ValidUpdate, OffsetsParse, Describes, FiresEarly, Fresh;
    var w1 := Step(cal, w, Select({k}, selectedAt));
    var w' := Run(cal, w1, between);
    assert k in {k} * Due(w.rows, selectedAt);
    assert KeptOrFresh(w, w1, k);
    RunKeepsOrRefreshes(cal, w, w1, between, k);
    RunKeepsSchedule(cal, w1, between);
    EarlyIfPendingAhead(cal, w', k, now);
    var v := w'.latest[k.rule];
    if v.rev > w.latest[k.rule].rev {
      FreshIsAhead(v, k, now);
    }
  }

  /**
    With two workers holding the key, the second fires early if and only if the first
    fired, committed, and the next occurrence is ahead.
  */
  lemma SecondWorkerFiresEarlyIffAdvanced(cal: Calendar, w: World, k: RowKey, first: int, produced: Produced, commits: bool, now: int)
    requires OnSchedule(w.rows) && w.selected[k] >= 2
    requires k in w.rows && w.rows[k].state == Pending && w.rows[k].fireAt <= now
    ensures
      var w', row := Step(cal, w, Process(k, first, produced, commits)), w.rows[k];
      var next := NextOccurrence(cal, row);
      FiresEarly(cal, w', k, now) <==>
      && commits && produced.Stored? && WithinGrace(first, row.fireAt)
      && next.Some? && FireAt(next.value, row.offset).Some? && FireAt(next.value, row.offset).value > now
  {
    hide FireAt, Scan, FiresEarly;
    var w' := Step(cal, w, Process(k, first, produced, commits));
    assert FireAt(w.rows[k].dueAt, w.rows[k].offset).Some?;
    RunKeepsSchedule(cal, w, [Process(k, first, produced, commits)]);
    OneStep(cal, w, Process(k, first, produced, commits));
    EarlyIfPendingAhead(cal, w', k, now);
  }

  /**
    It does happen: a rule due at 10 is moved to 1000 after its row was selected, and
    fires at 10 for the occurrence at 1000.
  */
  lemma ReplacedRowCanFireEarly(cal: Calendar, u: Update)
    requires ValidUpdate(u) && u.offsets == ["PT0S"] && u.rrule == "" && !u.cancelled && u.dueAt == 10 && u.rev == 1
    requires Insertable({u.component}, u)
    ensures
      var k, v := RowKey(u.rule, 0), u.(dueAt := 1000, rev := 2);
      Run(cal, START, [AddComponent(u.component), Apply(u), Select({k}, 10), Apply(v), Process(k, 10, Stored, true)]).fires
      == [Fire(k, 2, 1000, true)]
  {
    hide Step, Insertable;
    var k, v := RowKey(u.rule, 0), u.(dueAt := 1000, rev := 2);
    SelectedOnce(cal, u);
    ReplacedAndFired(cal, u, v);
    FiveSteps(cal, START, [AddComponent(u.component), Apply(u), Select({k}, 10), Apply(v), Process(k, 10, Stored, true)]);
  }

  /** The rule's only row is in the worklist. */
  function OneSelected(u: Update): World {
    var k := RowKey(u.rule, 0);
    World({u.component}, map[k := NewRow(u, "PT0S", u.dueAt, Pending)], multiset{k}, [],
          map[u.rule := u], map[RuleRev(u.rule, u.rev) := u], {u})
  }

  lemma SelectedOnce(cal: Calendar, u: Update)
    requires ValidUpdate(u) && u.offsets == ["PT0S"] && !u.cancelled && u.dueAt == 10 && Insertable({u.component}, u)
    ensures Step(cal, Step(cal, Step(cal, START, AddComponent(u.component)), Apply(u)), Select({RowKey(u.rule, 0)}, 10)) == OneSelected(u)
  {
    hide FireAt, ValidUpdate, Applied, Insertable;
    OneOffset(START.rows, {u.component}, u);
    assert Without(START.rows, u.rule) == map[];
    assert {} + {u.component} == {u.component};
    var w := Step(cal, Step(cal, START, AddComponent(u.component)), Apply(u));
    assert {RowKey(u.rule, 0)} * Due(w.rows, 10) == {RowKey(u.rule, 0)};
  }

  lemma ReplacedAndFired(cal: Calendar, u: Update, v: Update)
    requires ValidUpdate(u) && v == u.(dueAt := 1000, rev := 2) && Insertable({u.component}, u)
    requires u.offsets == ["PT0S"] && u.rrule == "" && !u.cancelled && u.rev == 1
    ensures
      var k := RowKey(u.rule, 0);
      Step(cal, Step(cal, OneSelected(u), Apply(v)), Process(k, 10, Stored, true)).fires == [Fire(k, 2, 1000, true)]
  {
    hide FireAt, Applied;
    var k := RowKey(u.rule, 0);
    var w := Step(cal, OneSelected(u), Apply(v));
    OneOffset(OneSelected(u).rows, {u.component}, v);
    assert w.rows == map[k := NewRow(v, "PT0S", 1000, Pending)];
    NoOffsetIsZero(1000);
    FiresNow(cal, w.rows[k]);
  }

  /** A pending one-shot row whose fire time is ahead fires and is done. */
  lemma FiresNow(cal: Calendar, row: Row)
    requires row.state == Pending && row.fireAt == 1000 && row.rrule == "" && Scan(row.offset).Some?
    ensures Processed(cal, row, 10, Stored) == (row.(state := State.Done), true)
  {
  }

  lemma OneOffset(rows: Rows, components: set<string>, u: Update)
    requires ValidUpdate(u) && u.offsets == ["PT0S"] && !u.cancelled && !Stale(rows, u) && Insertable(components, u)
    ensures Applied(rows, components, u) == Ok(Without(rows, u.rule)[RowKey(u.rule, 0) := NewRow(u, "PT0S", u.dueAt, Pending)])
  {
    hide FireAt, ValidUpdate, Stale, Insertable;
    NoOffsetIsZero(u.dueAt);
    ValidParses(u);
    assert Parses(u, 0);
    assert FirstRows(u, 0) == map[];
    assert FirstRows(u, 1) == map[RowKey(u.rule, 0) := OffsetRow(u, 0)];
    assert Without(rows, u.rule) + FirstRows(u, 1) == Without(rows, u.rule)[RowKey(u.rule, 0) := OffsetRow(u, 0)];
  }

  lemma FiveSteps(cal: Calendar, w: World, a: seq<Action>)
    requires |a| == 5
    ensures Run(cal, w, a) == Step(cal, Step(cal, Step(cal, Step(cal, Step(cal, w, a[0]), a[1]), a[2]), a[3]), a[4])
  {
    hide Step;
    assert a[1..][1..] == a[2..] && a[2..][1..] == a[3..] && a[3..][1..] == a[4..] && a[4..][1..] == [];
    var w2 := Step(cal, Step(cal, w, a[0]), a[1]);
    var w4 := Step(cal, Step(cal, w2, a[2]), a[3]);
    assert Run(cal, w, a) == Run(cal, w2, a[2..]);
    assert Run(cal, w2, a[2..]) == Run(cal, w4, a[4..]);
    assert Run(cal, w4, a[4..]) == Run(cal, Step(cal, w4, a[4]), []);
  }
}
