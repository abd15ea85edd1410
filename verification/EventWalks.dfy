/**
  Paging while the log runs on: snapshots taken along any run of the event log
  evolve as `EventPages` asks, and the sequence numbers a client sees count what
  it missed.
*/
module EventWalks {
  import opened Common
  import opened Events
  import opened EventStore
  import opened EventRuns
  import opened EventPages

  lemma StepEvolves(w: World, a: Action)
    requires Sound(w)
    ensures Evolves(w.space, Step(w, a).space)
  {
    match a
    case Submit(e, now) =>
      AllOrNothing(w.space, e, now);
    case Prune(_) =>
    case Register(_, _, _) =>
    case Move(_) =>
  }

  lemma {:induction false} RunEvolves(w: World, actions: seq<Action>)
    requires Sound(w)
    ensures Sound(Run(w, actions)) && Evolves(w.space, Run(w, actions).space)
    decreases |actions|
  {
    if actions != [] {
      StepSound(w, actions[0]);
      StepEvolves(w, actions[0]);
      RunEvolves(Step(w, actions[0]), actions[1..]);
    }
  }

  lemma {:induction false} RunConcat(w: World, a: seq<Action>, b: seq<Action>)
    ensures Run(w, a + b) == Run(Run(w, a), b)
    decreases |a|
  {
    if a == [] {
      assert a + b == b;
    } else {
      assert (a + b)[1..] == a[1..] + b;
      RunConcat(Step(w, a[0]), a[1..], b);
    }
  }

  /** The i-th page is read `at[i]` actions into the run. */
  ghost predicate TakenFrom(snaps: seq<Snapshot>, actions: seq<Action>, at: seq<nat>) {
    && |at| == |snaps|
    && (forall i :: 0 <= i < |at| ==> at[i] <= |actions| && snaps[i].space == Run(START, actions[..at[i]]).space)
    && (forall i, j :: 0 <= i <= j < |at| ==> at[i] <= at[j])
  }

  lemma SnapshotsEvolve(snaps: seq<Snapshot>, actions: seq<Action>, at: seq<nat>)
    requires TakenFrom(snaps, actions, at)
    ensures Evolving(snaps)
  {
    forall i | 0 <= i < |snaps| ensures WellFormed(snaps[i].space) {
      RunEvolves(START, actions[..at[i]]);
    }
    forall i, j | 0 <= i <= j < |snaps| ensures Evolves(snaps[i].space, snaps[j].space) {
      var a, b := actions[..at[i]], actions[at[i]..at[j]];
      assert a + b == actions[..at[j]];
      RunEvolves(START, a);
      RunConcat(START, a, b);
      RunEvolves(Run(START, a), b);
    }
  }

  /**
    Whatever happens between the pages, a walk that ends delivers in order, without
    repeats, and misses no row that the last page's log still has and the user could
    see all along.
  */
  lemma WalkThroughRun(snaps: seq<Snapshot>, actions: seq<Action>, at: seq<nat>, user: string, c: nat, limit: int, o: nat)
    requires TakenFrom(snaps, actions, at)
    requires WalkOver(snaps, user, c, limit).Finished?
    ensures
      var walk := WalkOver(snaps, user, c, limit);
      && Increasing(walk.delivered, c)
      && 1 <= walk.pages <= |snaps|
      && (c < o && o in snaps[walk.pages - 1].space.log && AlwaysVisible(snaps, user, o) ==> o in walk.delivered)
  {
    hide WalkOver, TakenFrom, Evolving, AlwaysVisible;
    SnapshotsEvolve(snaps, actions, at);
    WalkIsOrdered(snaps, user, c, limit);
    WalkIsComplete(snaps, user, c, limit, o);
  }

  // ----- gaps -----

  ghost function Between(history: Log, app: string, o: nat, p: nat): set<nat> {
    set q | q in Ordinals(history, app) && o < q < p
  }

  lemma {:induction false} NumbersCountRows(history: Log, app: string, o: nat, p: nat)
    requires Numbered(history, app)
    requires o in Ordinals(history, app) && p in Ordinals(history, app) && o < p
    ensures history[p].seqNo == history[o].seqNo + |Between(history, app, o, p)| + 1
    decreases p - o
  {
    var k := history[p].seqNo - 1;
    if k == history[o].seqNo {
      assert Between(history, app, o, p) == {};
    } else {
      assert HasNumber(history, app, k);
      var q :| q in Ordinals(history, app) && history[q].seqNo == k;
      NumbersCountRows(history, app, o, q);
      assert Between(history, app, o, p) == Between(history, app, o, q) + {q};
    }
  }

  /**
    Two rows of an application delivered next to each other (other applications'
    rows may come between) differ in number by the rows missed, plus one.
  */
  lemma GapCountsMissedRows(actions: seq<Action>, app: string, delivered: seq<nat>, i: nat, j: nat)
    requires MovesGuarded(START, actions)
    requires Increasing(delivered, 0)
    requires i < j < |delivered|
    requires
      var all := Ordinals(Run(START, actions).history, app);
      delivered[i] in all && delivered[j] in all && forall k :: i < k < j ==> delivered[k] !in all
    ensures
      var history := Run(START, actions).history;
      var missed := set o | o in Ordinals(history, app) && o !in delivered && delivered[i] < o < delivered[j];
      history[delivered[j]].seqNo == history[delivered[i]].seqNo + |missed| + 1
  {
    SequenceNumbers(actions, app);
    var history := Run(START, actions).history;
    var missed := set o | o in Ordinals(history, app) && o !in delivered && delivered[i] < o < delivered[j];
    NumbersCountRows(history, app, delivered[i], delivered[j]);
    assert missed == Between(history, app, delivered[i], delivered[j]);
  }
}
