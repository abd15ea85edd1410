/**
  Any number of joins on one invitation at once (`Join` in
  internal/invitation/invitation_service.go): every claim of a use, every release and
  everything else a join waits for is a step of its own, and any of it may fail.
*/
module InviteRuns {
  import opened Common
  import opened Invites

  /**
    Where a join stands. `Creating`: a new account's claim is taken. `Admitting(held)`:
    the account is there, `held` is the variable heldClaim. `Leaving` and `Returning`:
    a held claim is about to be released, on an error or because the account is a
    member already. `AtHome`: it is a member, promotion is left. The uses of
    `Producing`, `Welcoming` and `Promoting` are spent.
  */
  datatype Stage =
    | Fresh
    | Creating
    | Admitting(held: bool)
    | Leaving
    | Returning
    | AtHome
    | Producing
    | Welcoming
    | Promoting
    | Done

  type Joins = map<nat, Stage>

  /** `spent` and `lost` count uses gone for good; `added` and `promoted` what came of the spent ones. */
  datatype World = World(row: Option<Invite>, joins: Joins, spent: nat, lost: nat, added: nat, promoted: nat)

  function Start(invite: Invite): World {
    World(Some(invite), map[], 0, 0, 0, 0)
  }

  datatype Action =
    | Enter(t: nat)
    | ClaimForNew(t: nat)
    | CreateAccount(t: nat)
    | KnownAccount(t: nat)
    | Fail(t: nat)
    | SeeMember(t: nat)
    | SeeNoMember(t: nat)
    | Release(t: nat, ok: bool)
    | ClaimForPromotion(t: nat)
    | FinishPromotion(t: nat, ok: bool)
    | Produce(t: nat, ok: bool)
    | Welcome(t: nat, promote: bool)
    | Crash(t: nat)
    | Delete

  function Go(w: World, t: nat, s: Stage): World {
    w.(joins := w.joins[t := s])
  }

  /** `IncrementUseCount`, and then to `next` if it succeeded. */
  function Claim(w: World, t: nat, next: Stage): World {
    if Claimable(w.row) then Go(w, t, next).(row := Claimed(w.row)) else Go(w, t, Done)
  }

  predicate At(w: World, t: nat, s: Stage) {
    t in w.joins && w.joins[t] == s
  }

  predicate Holding(s: Stage) {
    s == Creating || s == Admitting(true) || s == Leaving || s == Returning
  }

  function Step(w: World, a: Action): World {
    match a
    case Enter(t) => if t in w.joins || !Claimable(w.row) then w else Go(w, t, Fresh)
    case ClaimForNew(t) => if At(w, t, Fresh) then Claim(w, t, Creating) else w
    case CreateAccount(t) => if At(w, t, Creating) then Go(w, t, Admitting(true)) else w
    case KnownAccount(t) => if At(w, t, Fresh) then Go(w, t, Admitting(false)) else w
    case Fail(t) =>
      if At(w, t, Creating) || At(w, t, Admitting(true)) then Go(w, t, Leaving)
      else if At(w, t, Fresh) || At(w, t, Admitting(false)) || At(w, t, AtHome) then Go(w, t, Done)
      else w
    case SeeMember(t) =>
      if At(w, t, Admitting(true)) then Go(w, t, Returning)
      else if At(w, t, Admitting(false)) then Go(w, t, AtHome)
      else w
    case SeeNoMember(t) =>
      if At(w, t, Admitting(true)) then Go(w, t, Producing).(spent := w.spent + 1)
      else if At(w, t, Admitting(false)) then
        var w' := Claim(w, t, Producing);
        if Claimable(w.row) then w'.(spent := w.spent + 1) else w'
      else w
    case Release(t, ok) =>
      if At(w, t, Leaving) || At(w, t, Returning) then
        var w' := Go(w, t, if w.joins[t] == Leaving then Done else AtHome);
        if ok then w'.(row := Released(w.row)) else w'.(lost := w.lost + 1)
      else w
    case ClaimForPromotion(t) =>
      if At(w, t, AtHome) then
        var w' := Claim(w, t, Promoting);
        if Claimable(w.row) then w'.(spent := w.spent + 1) else w'
      else w
    case FinishPromotion(t, ok) =>
      if At(w, t, Promoting) then Go(w, t, Done).(promoted := w.promoted + if ok then 1 else 0) else w
    case Produce(t, ok) =>
      if !At(w, t, Producing) then w
      else if ok then Go(w, t, Welcoming).(added := w.added + 1)
      else Go(w, t, Done)
    case Welcome(t, promote) =>
      if At(w, t, Welcoming) then Go(w, t, Done).(promoted := w.promoted + if promote then 1 else 0) else w
    case Crash(t) =>
      if t !in w.joins then w
      else if Holding(w.joins[t]) then Go(w, t, Done).(lost := w.lost + 1)
      else Go(w, t, Done)
    case Delete => w.(row := None)
  }

  function Run(w: World, actions: seq<Action>): World
    decreases |actions|
  {
    if actions == [] then w else Run(Step(w, actions[0]), actions[1..])
  }

  // ----- accounting -----

  ghost function Those(joins: Joins, p: Stage -> bool): set<nat> {
    set t | t in joins && p(joins[t])
  }

  lemma WithOrWithout(s: set<nat>, t: nat)
    ensures |s| == |s - {t}| + if t in s then 1 else 0
  {
    if t in s {
      assert s == (s - {t}) + {t};
    } else {
      assert s == s - {t};
    }
  }

  lemma GoCounts(joins: Joins, t: nat, s: Stage, p: Stage -> bool)
    ensures |Those(joins[t := s], p)| ==
            |Those(joins, p)| - (if t in joins && p(joins[t]) then 1 else 0) + (if p(s) then 1 else 0)
  {
    var before, after := Those(joins, p), Those(joins[t := s], p);
    assert after - {t} == before - {t};
    WithOrWithout(before, t);
    WithOrWithout(after, t);
  }

  ghost function Held(joins: Joins): nat {
    |Those(joins, Holding)|
  }

  /** Spent uses that may still add a member, and that may still promote one. */
  predicate MayAdd(s: Stage) {
    s == Producing
  }

  predicate MayPromote(s: Stage) {
    s == Producing || s == Welcoming || s == Promoting
  }

  /** Uses held, spent and lost add up, to the counter while the invite exists, and never exceed the limit it was created with. */
  ghost predicate Balanced(w: World, maxUses: Option<int>) {
    var n := Held(w.joins) + w.spent + w.lost;
    && (w.row.Some? ==> w.row.value.usedCount == n && w.row.value.maxUses == maxUses)
    && (maxUses.Some? ==> n <= maxUses.value)
    && w.added + |Those(w.joins, MayAdd)| <= w.spent
    && w.promoted + |Those(w.joins, MayPromote)| <= w.spent
  }

  /** How many uses are held, and how many may still add or promote, after join `t` goes to `s`. */
  lemma GoShifts(w: World, w': World, t: nat, s: Stage)
    requires w'.joins == w.joins[t := s]
    ensures
      var before := if t in w.joins then w.joins[t] else Done;
      && Held(w'.joins) == Held(w.joins) - (if Holding(before) then 1 else 0) + (if Holding(s) then 1 else 0)
      && |Those(w'.joins, MayAdd)| == |Those(w.joins, MayAdd)| - (if MayAdd(before) then 1 else 0) + (if MayAdd(s) then 1 else 0)
      && |Those(w'.joins, MayPromote)| ==
         |Those(w.joins, MayPromote)| - (if MayPromote(before) then 1 else 0) + (if MayPromote(s) then 1 else 0)
  {
    GoCounts(w.joins, t, s, Holding);
    GoCounts(w.joins, t, s, MayAdd);
    GoCounts(w.joins, t, s, MayPromote);
  }

  /** A step that leaves the row and the spent and lost uses alone, and takes or gives no claim. */
  lemma PlainStepBalanced(w: World, a: Action, maxUses: Option<int>)
    requires Balanced(w, maxUses)
    requires !a.ClaimForNew? && !a.SeeNoMember? && !a.ClaimForPromotion? && !a.Release? && !a.Crash?
    ensures Balanced(Step(w, a), maxUses)
  {
    hide Those, Held;
    var w' := Step(w, a);
    if w'.joins != w.joins {
      GoShifts(w, w', a.t, w'.joins[a.t]);
    }
  }

  lemma StepBalanced(w: World, a: Action, maxUses: Option<int>)
    requires Balanced(w, maxUses)
    ensures Balanced(Step(w, a), maxUses)
  {
    hide Those, Held;
    if a.ClaimForNew? || a.SeeNoMember? || a.ClaimForPromotion? || a.Release? || a.Crash? {
      var w' := Step(w, a);
      if w'.joins != w.joins {
        GoShifts(w, w', a.t, w'.joins[a.t]);
      }
    } else {
      PlainStepBalanced(w, a, maxUses);
    }
  }

  lemma {:induction false} RunBalanced(w: World, actions: seq<Action>, maxUses: Option<int>)
    requires Balanced(w, maxUses)
    ensures Balanced(Run(w, actions), maxUses)
    decreases |actions|
  {
    if actions != [] {
      StepBalanced(w, actions[0], maxUses);
      RunBalanced(Step(w, actions[0]), actions[1..], maxUses);
    }
  }

  /**
    Over every interleaving of joins, failures, crashes and a deletion: the counter is
    the uses held plus those spent and lost, it stays within the limit, and no more
    members are added, or guests promoted, than uses were spent.
  */
  lemma UsesAddUp(invite: Invite, actions: seq<Action>)
    requires invite.usedCount == 0 && (invite.maxUses.Some? ==> invite.maxUses.value >= 0)
    ensures
      var w := Run(Start(invite), actions);
      && (w.row.Some? ==> w.row.value.usedCount == Held(w.joins) + w.spent + w.lost)
      && w.added <= w.spent && w.promoted <= w.spent
      && (invite.maxUses.Some? ==> Held(w.joins) + w.spent + w.lost <= invite.maxUses.value)
  {
    var w := Start(invite);
    assert Those(w.joins, Holding) == {} && Those(w.joins, MayAdd) == {} && Those(w.joins, MayPromote) == {};
    RunBalanced(w, actions, invite.maxUses);
  }

  /** An invite created to mint accounts or promote guests adds, and promotes, no more than its limit. */
  lemma PowersAreSpentOnce(spaceOwner: bool, o: Options, actions: seq<Action>)
    requires Create(spaceOwner, o).Ok?
    requires Create(spaceOwner, o).value.grantsIdentity || Create(spaceOwner, o).value.grantsSpaceUse
    ensures
      var invite := Create(spaceOwner, o).value;
      var w := Run(Start(invite), actions);
      invite.maxUses.Some? && w.added <= invite.maxUses.value && w.promoted <= invite.maxUses.value
  {
    PowersAreLimited(spaceOwner, o);
    UsesAddUp(Create(spaceOwner, o).value, actions);
  }

  /**
    A release is always of a claim this join holds, gives back exactly one use, and
    leaves the join without one, so no claim is released twice; one that fails loses it.
  */
  lemma ReleaseGivesBackOne(invite: Invite, actions: seq<Action>, t: nat, ok: bool)
    requires invite.usedCount == 0 && (invite.maxUses.Some? ==> invite.maxUses.value >= 0)
    ensures
      var w := Run(Start(invite), actions);
      var w' := Step(w, Release(t, ok));
      w' != w ==>
        && t in w.joins && Holding(w.joins[t]) && t in w'.joins && !Holding(w'.joins[t])
        && Held(w'.joins) == Held(w.joins) - 1
        && (ok && w.row.Some? ==> w'.row == Some(w.row.value.(usedCount := w.row.value.usedCount - 1)) && w.row.value.usedCount > 0)
        && (!ok ==> w'.row == w.row && w'.lost == w.lost + 1)
  {
    UsesAddUp(invite, actions);
    var w := Run(Start(invite), actions);
    if At(w, t, Leaving) || At(w, t, Returning) {
      GoCounts(w.joins, t, if w.joins[t] == Leaving then Done else AtHome, Holding);
      assert t in Those(w.joins, Holding);
    }
  }

  // ----- one join alone -----

  /** The steps of a join that meets this luck; a step that does not apply where the join stands does nothing. */
  function Script(t: nat, luck: Luck): seq<Action> {
    [Enter(t),
     if luck.isNew then ClaimForNew(t) else KnownAccount(t),
     if luck.isNew && !luck.created then Fail(t) else CreateAccount(t),
     if !luck.admitted then Fail(t) else if luck.isMember then SeeMember(t) else SeeNoMember(t),
     Release(t, true),
     if luck.mayPromote then ClaimForPromotion(t) else Fail(t),
     FinishPromotion(t, luck.promoted),
     Produce(t, luck.produced),
     Welcome(t, false)]
  }

  /** The join as far as the membership lookup. */
  function Looked(w: World, t: nat, luck: Luck): World {
    var a := Script(t, luck);
    Step(Step(Step(Step(w, a[0]), a[1]), a[2]), a[3])
  }

  /** A member's join: a claim it does not need goes back, a promotion claims its own. */
  function Settled(w: World, t: nat, luck: Luck): World {
    var a := Script(t, luck);
    Step(Step(Step(w, a[4]), a[5]), a[6])
  }

  /** A new member's join. */
  function Concluded(w: World, t: nat, luck: Luck): World {
    var a := Script(t, luck);
    Step(Step(w, a[7]), a[8])
  }

  lemma ScriptRuns(w: World, t: nat, luck: Luck)
    ensures Run(w, Script(t, luck)) == Concluded(Settled(Looked(w, t, luck), t, luck), t, luck)
  {
    hide Step;
    var a := Script(t, luck);
    assert a[1..][1..] == a[2..] && a[2..][1..] == a[3..] && a[3..][1..] == a[4..] && a[4..][1..] == a[5..];
    assert a[5..][1..] == a[6..] && a[6..][1..] == a[7..] && a[7..][1..] == a[8..] && a[8..][1..] == [];
    var w2 := Step(Step(w, a[0]), a[1]);
    var w4 := Step(Step(w2, a[2]), a[3]);
    var w6 := Step(Step(w4, a[4]), a[5]);
    var w8 := Step(Step(w6, a[6]), a[7]);
    assert Run(w, a) == Run(w2, a[2..]);
    assert Run(w2, a[2..]) == Run(w4, a[4..]);
    assert Run(w4, a[4..]) == Run(w6, a[6..]);
    assert Run(w6, a[6..]) == Run(w8, a[8..]);
    assert Run(w8, a[8..]) == Run(Step(w8, a[8]), []);
  }

  /** Where a join stands after the membership lookup, and what it has done to the row. */
  function StageLooked(luck: Luck): Stage {
    if luck.isNew && !luck.created then Leaving
    else if !luck.admitted then (if luck.isNew then Leaving else Done)
    else if luck.isMember then (if luck.isNew then Returning else AtHome)
    else Producing
  }

  lemma LooksUp(w: World, t: nat, luck: Luck)
    requires t !in w.joins && Claimable(w.row)
    ensures
      var w', s := Looked(w, t, luck), StageLooked(luck);
      && At(w', t, s)
      && w'.row == (if Holding(s) || s == Producing then Claimed(w.row) else w.row)
      && w'.added == w.added && w'.promoted == w.promoted
  {
  }

  lemma Settles(w: World, t: nat, luck: Luck)
    requires At(w, t, StageLooked(luck)) && w.row.Some?
    requires StageLooked(luck) == AtHome ==> Claimable(w.row)
    requires Holding(StageLooked(luck)) ==> w.row.value.usedCount > 0 && Claimable(Released(w.row))
    ensures
      var w', s := Settled(w, t, luck), StageLooked(luck);
      var row := if Holding(s) then Released(w.row) else w.row;
      var tries := (s == Returning || s == AtHome) && luck.mayPromote;
      && At(w', t, if s == Producing then Producing else Done)
      && w'.row == (if tries then Claimed(row) else row)
      && w'.added == w.added && w'.promoted == w.promoted + if tries && luck.promoted then 1 else 0
  {
  }

  lemma Concludes(w: World, t: nat, luck: Luck)
    requires At(w, t, Producing) || At(w, t, Done)
    ensures
      var w' := Concluded(w, t, luck);
      && w'.row == w.row && w'.promoted == w.promoted
      && w'.added == w.added + if At(w, t, Producing) && luck.produced then 1 else 0
  {
  }

  /** A join that is alone does what `Joined` says; interleaved joins take the same steps. */
  lemma JoinAlone(w: World, t: nat, luck: Luck)
    requires t !in w.joins && (w.row.Some? ==> w.row.value.usedCount >= 0)
    ensures
      var w' := Run(w, Script(t, luck));
      var (row, out) := Joined(w.row, luck);
      && w'.row == row
      && w'.added == w.added + (if out == Added then 1 else 0)
      && w'.promoted == w.promoted + (if out == AlreadyMember(true) then 1 else 0)
  {
    hide Step, Looked, Settled, Concluded;
    ScriptRuns(w, t, luck);
    if Claimable(w.row) {
      LooksUp(w, t, luck);
      Settles(Looked(w, t, luck), t, luck);
      Concludes(Settled(Looked(w, t, luck), t, luck), t, luck);
    } else {
      NobodyEnters(w, t, luck);
    }
  }

  lemma AbsentRests(w: World, a: Action)
    requires !a.Delete? && a.t !in w.joins && (a.Enter? ==> !Claimable(w.row))
    ensures Step(w, a) == w
  {
  }

  lemma NobodyEnters(w: World, t: nat, luck: Luck)
    requires t !in w.joins && !Claimable(w.row)
    ensures Concluded(Settled(Looked(w, t, luck), t, luck), t, luck) == w
  {
    hide Step;
    forall a | a in Script(t, luck) ensures Step(w, a) == w {
      AbsentRests(w, a);
    }
  }
}
