/**
  Consent requests (internal/oauth/oauth.go, `Approve` and `Deny` of
  oauth_service.go): any interleaving of requests arriving, being opened, approved
  and denied by any accounts, and being swept.
*/
module ConsentRuns {
  import opened Common
  import opened OAuthStore

  /** `account` is who decided. */
  datatype Decision = Decision(id: string, request: Request, approved: bool, account: string)

  /**
    Besides the store: every request ever added, the ids that went because their time
    was over, and the decisions made, in order.
  */
  datatype World = World(
    pending: Pending,
    added: Pending,
    expired: set<string>,
    decisions: seq<Decision>)

  const START := World(map[], map[], {}, [])

  /**
    `Add` names the request evicted to make room, if any: when several expire first,
    which one goes depends on the iteration order of a Go map. `Open` is also the
    first half of an approval, `Take` the second half or a denial.
  */
  datatype Action =
    | Add(id: string, request: Request, evict: Option<string>, now: int)
    | Open(id: string, user: string, now: int)
    | Take(id: string, user: string, approve: bool, now: int)
    | Sweep(now: int)

  function Late(pending: Pending, now: int): set<string> {
    set id | id in pending && now > pending[id].expiresAt
  }

  function Swept(w: World, now: int): World {
    w.(pending := SweptPending(w.pending, now), expired := w.expired + Late(w.pending, now))
  }

  /** What `evictOldestOfClientIP` leaves when it picks `evict`, and whether there is room. */
  function Roomy(pending: Pending, request: Request, evict: Option<string>): (Pending, bool) {
    if |OfClientIp(pending, request.clientId, request.sourceIp)| < MAX_PENDING_PER_CLIENT_IP then (pending, true)
    else if evict.Some? && Evictable(pending, evict.value, request.clientId, request.sourceIp) then (pending - {evict.value}, true)
    else (pending, false)
  }

  function Step(w: World, a: Action): World {
    match a
    case Add(id, request, evict, now) =>
      if id in w.added then w  // ids are 32 random bytes, taken to be never drawn twice
      else
        var swept := Swept(w, now);
        var (pending, room) := Roomy(swept.pending, request, evict);
        if !room || |pending| >= MAX_PENDING then swept.(pending := pending)
        else
          var p := request.(user := "", expiresAt := now + PENDING_TTL);
          swept.(pending := pending[id := p], added := w.added[id := p])
    case Open(id, user, now) =>
      w.(pending := Looked(w.pending, id, user, now).0, expired := w.expired + (Late(w.pending, now) * {id}))
    case Take(id, user, approve, now) =>
      var (pending, r) := Looked(w.pending, id, user, now);
      if r.Ok? then w.(pending := pending - {id}, decisions := w.decisions + [Decision(id, r.value, approve, user)])
      else w.(pending := pending, expired := w.expired + (Late(w.pending, now) * {id}))
    case Sweep(now) => Swept(w, now)
  }

  function Run(w: World, actions: seq<Action>): World
    decreases |actions|
  {
    if actions == [] then w else Run(Step(w, actions[0]), actions[1..])
  }

  /** With a legitimate choice of victim, `Add` is what `AddPending` of the store does. */
  lemma AddIsAdded(w: World, id: string, request: Request, evict: Option<string>, now: int)
    requires id !in w.added
    requires evict.None? ==> forall v :: !Evictable(SweptPending(w.pending, now), v, request.clientId, request.sourceIp)
    requires evict.Some? ==> Evictable(SweptPending(w.pending, now), evict.value, request.clientId, request.sourceIp)
    ensures
      var w' := Step(w, Add(id, request, evict, now));
      Added(w.pending, id, request, now, w'.pending, id in w'.added)
  {
    var swept := SweptPending(w.pending, now);
    var (roomy, room) := Roomy(swept, request, evict);
    if evict.None? && |OfClientIp(swept, request.clientId, request.sourceIp)| >= MAX_PENDING_PER_CLIENT_IP {
      forall v | v in OfClientIp(swept, request.clientId, request.sourceIp) ensures swept[v].user != "" {
        if swept[v].user == "" {
          var first := EvictableExists(swept, request.clientId, request.sourceIp, v);
          assert false;
        }
      }
    }
    var w' := Step(w, Add(id, request, evict, now));
    assert AddedVia(w.pending, id, request, now, roomy, room, w'.pending, id in w'.added);
  }

  /** If there is an unbound request of the client and address, one of them expires first. */
  lemma FirstToExpire(pending: Pending, among: set<string>) returns (first: string)
    requires among != {} && among <= pending.Keys
    ensures first in among && forall id :: id in among ==> pending[first].expiresAt <= pending[id].expiresAt
  {
    first :| first in among;
    var rest := among - {first};
    if rest != {} {
      var other := FirstToExpire(pending, rest);
      if pending[other].expiresAt < pending[first].expiresAt {
        first := other;
      }
    }
  }

  lemma EvictableExists(pending: Pending, clientId: string, sourceIp: string, id: string) returns (v: string)
    requires id in OfClientIp(pending, clientId, sourceIp) && pending[id].user == ""
    ensures Evictable(pending, v, clientId, sourceIp)
  {
    var unbound := set id | id in OfClientIp(pending, clientId, sourceIp) && pending[id].user == "";
    assert id in unbound;
    v := FirstToExpire(pending, unbound);
  }

  // ----- the limits -----

  ghost predicate WithinLimits(w: World) {
    && |w.pending| <= MAX_PENDING
    && forall clientId, sourceIp :: |OfClientIp(w.pending, clientId, sourceIp)| <= MAX_PENDING_PER_CLIENT_IP
  }

  lemma FewerKeepsLimits(w: World, w': World)
    requires WithinLimits(w)
    requires w'.pending.Keys <= w.pending.Keys
    requires forall id :: id in w'.pending ==> w'.pending[id].clientId == w.pending[id].clientId && w'.pending[id].sourceIp == w.pending[id].sourceIp
    ensures WithinLimits(w')
  {
    SubsetCardinality(w'.pending.Keys, w.pending.Keys);
    forall clientId, sourceIp ensures |OfClientIp(w'.pending, clientId, sourceIp)| <= MAX_PENDING_PER_CLIENT_IP {
      SubsetCardinality(OfClientIp(w'.pending, clientId, sourceIp), OfClientIp(w.pending, clientId, sourceIp));
    }
  }

  lemma RoomyKeepsLimits(w: World, request: Request, evict: Option<string>)
    requires WithinLimits(w)
    ensures
      var (pending, room) := Roomy(w.pending, request, evict);
      && WithinLimits(w.(pending := pending))
      && pending.Keys <= w.pending.Keys
      && (room ==> |OfClientIp(pending, request.clientId, request.sourceIp)| < MAX_PENDING_PER_CLIENT_IP)
  {
    var (pending, room) := Roomy(w.pending, request, evict);
    FewerKeepsLimits(w, w.(pending := pending));
    var before := OfClientIp(w.pending, request.clientId, request.sourceIp);
    if room && |before| >= MAX_PENDING_PER_CLIENT_IP {
      assert OfClientIp(pending, request.clientId, request.sourceIp) == before - {evict.value};
    }
  }

  lemma InsertCounts(pending: Pending, id: string, p: Request, clientId: string, sourceIp: string)
    requires id !in pending
    ensures |OfClientIp(pending[id := p], clientId, sourceIp)| ==
            |OfClientIp(pending, clientId, sourceIp)| + if p.clientId == clientId && p.sourceIp == sourceIp then 1 else 0
  {
    var before, after := OfClientIp(pending, clientId, sourceIp), OfClientIp(pending[id := p], clientId, sourceIp);
    var mine := if p.clientId == clientId && p.sourceIp == sourceIp then {id} else {};
    assert after == before + mine;
    assert before !! mine;
  }

  lemma InsertKeepsLimits(w: World, id: string, p: Request)
    requires WithinLimits(w) && id !in w.pending && |w.pending| < MAX_PENDING
    requires |OfClientIp(w.pending, p.clientId, p.sourceIp)| < MAX_PENDING_PER_CLIENT_IP
    ensures WithinLimits(w.(pending := w.pending[id := p]))
  {
    hide OfClientIp;
    var after := w.pending[id := p];
    forall clientId, sourceIp ensures |OfClientIp(after, clientId, sourceIp)| <= MAX_PENDING_PER_CLIENT_IP {
      InsertCounts(w.pending, id, p, clientId, sourceIp);
    }
  }

  lemma AddKeepsLimits(w: World, id: string, request: Request, evict: Option<string>, now: int)
    requires WithinLimits(w) && id !in w.pending && id !in w.added
    ensures WithinLimits(Step(w, Add(id, request, evict, now)))
  {
    hide Roomy, OfClientIp;
    var swept := Swept(w, now);
    FewerKeepsLimits(w, swept);
    RoomyKeepsLimits(swept, request, evict);
    var (roomy, room) := Roomy(swept.pending, request, evict);
    if room && |roomy| < MAX_PENDING {
      InsertKeepsLimits(swept.(pending := roomy), id, request.(user := "", expiresAt := now + PENDING_TTL));
    }
  }

  // ----- where a request can go -----

  ghost predicate DecidedBy(w: World, id: string, user: string) {
    exists i :: 0 <= i < |w.decisions| && w.decisions[i].id == id && w.decisions[i].request.user == user
  }

  /** The part of a request no account changes. */
  predicate SameRequest(p: Request, q: Request) {
    p.(user := "") == q.(user := "")
  }

  ghost predicate PendingKnown(w: World) {
    forall id :: id in w.pending ==> id in w.added && SameRequest(w.pending[id], w.added[id])
  }

  ghost predicate DecidedOnce(w: World) {
    && (forall i :: 0 <= i < |w.decisions| ==>
          var d := w.decisions[i];
          d.id in w.added && d.id !in w.pending && SameRequest(d.request, w.added[d.id]))
    && (forall i, j :: 0 <= i < j < |w.decisions| ==> w.decisions[i].id != w.decisions[j].id)
  }

  ghost predicate Sound(w: World) {
    WithinLimits(w) && PendingKnown(w) && DecidedOnce(w)
  }

  lemma StepKeepsLimits(w: World, a: Action)
    requires Sound(w)
    ensures WithinLimits(Step(w, a))
  {
    hide OfClientIp, Roomy;
    match a
    case Add(id, request, evict, now) =>
      if id !in w.added {
        AddKeepsLimits(w, id, request, evict, now);
      }
    case _ =>
      FewerKeepsLimits(w, Step(w, a));
  }

  /** What any step may do: drop requests, bind some, add a fresh one, decide one that was waiting. */
  ghost predicate Moves(w: World, w': World) {
    && (forall id :: id in w.added ==> id in w'.added && w'.added[id] == w.added[id])
    && (forall id :: id in w'.pending ==>
          || (id in w.pending && SameRequest(w'.pending[id], w.pending[id]))
          || (id !in w.added && id in w'.added && w'.added[id] == w'.pending[id]))
    && (w'.decisions == w.decisions
        || (|w'.decisions| == |w.decisions| + 1 && w'.decisions[..|w.decisions|] == w.decisions
            && var d := w'.decisions[|w.decisions|];
               d.id in w.pending && d.id !in w'.pending && SameRequest(d.request, w.pending[d.id])))
  }

  lemma RoomyDrops(pending: Pending, request: Request, evict: Option<string>)
    ensures forall id :: id in Roomy(pending, request, evict).0 ==> id in pending && Roomy(pending, request, evict).0[id] == pending[id]
  {
    hide Evictable, OfClientIp;
  }

  lemma AddMoves(w: World, a: Action)
    requires a.Add?
    ensures Moves(w, Step(w, a))
  {
    hide Roomy;
    RoomyDrops(Swept(w, a.now).pending, a.request, a.evict);
  }

  lemma StepMoves(w: World, a: Action)
    ensures Moves(w, Step(w, a))
  {
    hide Roomy;
    match a
    case Add(_, _, _, _) => AddMoves(w, a);
    case Open(_, _, _) =>
    case Take(_, _, _, _) =>
    case Sweep(_) =>
  }

  lemma StepSound(w: World, a: Action)
    requires Sound(w)
    ensures Sound(Step(w, a))
  {
    hide WithinLimits, Step, Roomy;
    StepKeepsLimits(w, a);
    StepMoves(w, a);
  }

  /** A bound request stays as it is, or goes because its time is over, or because its account decided. */
  ghost predicate Accounted(before: World, after: World, id: string)
    requires id in before.pending
  {
    var p := before.pending[id];
    || (id in after.pending && after.pending[id] == p)
    || id in after.expired
    || DecidedBy(after, id, p.user)
  }

  lemma StepAccounts(w: World, a: Action, id: string)
    requires id in w.pending && w.pending[id].user != "" && id in w.added
    ensures Accounted(w, Step(w, a), id)
  {
    var w' := Step(w, a);
    if a.Take? && a.id == id && |w'.decisions| > |w.decisions| {
      assert w'.decisions[|w.decisions|].id == id;
    }
  }

  lemma StepRemembers(w: World, a: Action)
    ensures w.expired <= Step(w, a).expired && w.decisions <= Step(w, a).decisions
  {
  }

  lemma {:induction false} RunRemembers(w: World, actions: seq<Action>)
    ensures w.expired <= Run(w, actions).expired && w.decisions <= Run(w, actions).decisions
    decreases |actions|
  {
    if actions != [] {
      StepRemembers(w, actions[0]);
      RunRemembers(Step(w, actions[0]), actions[1..]);
    }
  }

  lemma {:induction false} RunSound(w: World, actions: seq<Action>)
    requires Sound(w)
    ensures Sound(Run(w, actions))
    decreases |actions|
  {
    if actions != [] {
      StepSound(w, actions[0]);
      RunSound(Step(w, actions[0]), actions[1..]);
    }
  }

  /** Nobody but its own account, and nothing but time, takes away a request once it is bound. */
  lemma {:induction false} BoundRequestIsSafe(w: World, actions: seq<Action>, id: string)
    requires Sound(w) && id in w.pending && w.pending[id].user != ""
    ensures Accounted(w, Run(w, actions), id)
    decreases |actions|
  {
    if actions != [] {
      var w' := Step(w, actions[0]);
      StepSound(w, actions[0]);
      StepAccounts(w, actions[0], id);
      RunRemembers(w', actions[1..]);
      if id in w'.pending && w'.pending[id] == w.pending[id] {
        BoundRequestIsSafe(w', actions[1..], id);
      } else if DecidedBy(w', id, w.pending[id].user) {
        var i :| 0 <= i < |w'.decisions| && w'.decisions[i].id == id && w'.decisions[i].request.user == w.pending[id].user;
        assert Run(w, actions).decisions[i] == w'.decisions[i];
      }
    }
  }

  /** A decision is made by a `Take`, as it says, of the account the request is bound to. */
  predicate MadeBy(d: Decision, a: Action) {
    a.Take? && a.id == d.id && a.approve == d.approved && a.user == d.account == d.request.user
  }

  lemma StepDecides(w: World, a: Action)
    ensures
      var w' := Step(w, a);
      w'.decisions == w.decisions
      || (|w'.decisions| == |w.decisions| + 1 && w.decisions <= w'.decisions && MadeBy(w'.decisions[|w.decisions|], a))
  {
  }

  ghost predicate AllMade(w: World, past: seq<Action>) {
    forall i :: 0 <= i < |w.decisions| ==> MadeIn(past, w.decisions[i])
  }

  ghost predicate MadeIn(past: seq<Action>, d: Decision) {
    exists a :: a in past && MadeBy(d, a)
  }

  lemma StepMakes(w: World, past: seq<Action>, a: Action)
    requires AllMade(w, past)
    ensures AllMade(Step(w, a), past + [a])
  {
    hide Step, MadeBy;
    StepDecides(w, a);
    var w' := Step(w, a);
    forall i | 0 <= i < |w'.decisions| ensures MadeIn(past + [a], w'.decisions[i]) {
      if i < |w.decisions| {
        assert w'.decisions[i] == w.decisions[i] && MadeIn(past, w.decisions[i]);
        var b :| b in past && MadeBy(w.decisions[i], b);
        assert b in past + [a];
      } else {
        assert i == |w.decisions| && MadeBy(w'.decisions[i], a);
        assert (past + [a])[|past|] == a;
      }
    }
  }

  lemma {:induction false} RunMakes(w: World, past: seq<Action>, actions: seq<Action>)
    requires AllMade(w, past)
    ensures AllMade(Run(w, actions), past + actions)
    decreases |actions|
  {
    hide Step, AllMade;
    if actions == [] {
      assert past + actions == past;
    } else {
      StepMakes(w, past, actions[0]);
      assert (past + [actions[0]]) + actions[1..] == past + actions;
      RunMakes(Step(w, actions[0]), past + [actions[0]], actions[1..]);
    }
  }

  /** Over every run, each decision was made in it, one way or the other, by the account the request is bound to. */
  lemma DecisionsWereMade(actions: seq<Action>)
    ensures AllMade(Run(START, actions), actions)
  {
    RunMakes(START, [], actions);
    assert [] + actions == actions;
  }

  /** A request is stored as it came, unbound, for ten minutes. */
  lemma AddedForTenMinutes(w: World, id: string, request: Request, evict: Option<string>, now: int)
    requires id !in w.added
    ensures
      var w' := Step(w, Add(id, request, evict, now));
      id in w'.added ==>
        id in w'.pending && w'.added[id] == w'.pending[id]
        && w'.pending[id] == Request(request.clientId, request.sourceIp, request.clientName, request.redirectUri, request.challenge,
                                     request.state, "", now + 600)
  {
  }

  /** The first account to open a request in time is the only one that can decide it. */
  lemma FirstToOpenDecides(before: seq<Action>, id: string, user: string, now: int, after: seq<Action>, i: nat)
    requires
      var w := Run(START, before);
      id in w.pending && w.pending[id].user == "" && now <= w.pending[id].expiresAt && user != ""
    ensures
      var w1 := Step(Run(START, before), Open(id, user, now));
      var w2 := Run(w1, after);
      && id in w1.pending && w1.pending[id].user == user
      && (i < |w2.decisions| && w2.decisions[i].id == id ==> w2.decisions[i].account == user)
      && ((id in w2.pending && w2.pending[id] == w1.pending[id]) || id in w2.expired || DecidedBy(w2, id, user))
  {
    hide Step, Sound, AllMade, Accounted;
    var w := Run(START, before);
    RunSound(START, before) by {
      StartIsSound();
    }
    OpenBinds(w, id, user, now);
    var w1 := Step(w, Open(id, user, now));
    StepSound(w, Open(id, user, now));
    BoundRequestIsSafe(w1, after, id);
    var p := w1.pending[id];
    assert Accounted(w1, Run(w1, after), id);
    AccountedSays(w1, Run(w1, after), id);
    WaitingIsUndecided(w1, id);
    BoundDecidedByUser(w1, after, id, user, i);
  }

  lemma StartIsSound()
    ensures Sound(START)
  {
    forall clientId, sourceIp ensures OfClientIp(START.pending, clientId, sourceIp) == {} {
    }
  }

  lemma OpenBinds(w: World, id: string, user: string, now: int)
    requires id in w.pending && w.pending[id].user == "" && now <= w.pending[id].expiresAt
    ensures
      var w' := Step(w, Open(id, user, now));
      id in w'.pending && w'.pending[id] == w.pending[id].(user := user)
  {
  }

  lemma AccountedSays(before: World, after: World, id: string)
    requires id in before.pending && Accounted(before, after, id)
    ensures (id in after.pending && after.pending[id] == before.pending[id]) || id in after.expired || DecidedBy(after, id, before.pending[id].user)
  {
  }

  lemma WaitingIsUndecided(w: World, id: string)
    requires Sound(w) && id in w.pending
    ensures forall i :: 0 <= i < |w.decisions| ==> w.decisions[i].id != id
  {
  }

  /** The request is bound to the user or gone, and whatever was decided about it, the user did. */
  ghost predicate UsersOwn(w: World, id: string, user: string) {
    && id in w.added
    && (id in w.pending ==> w.pending[id].user == user)
    && forall i :: 0 <= i < |w.decisions| && w.decisions[i].id == id ==> w.decisions[i].account == user
  }

  lemma StepKeepsOwn(w: World, a: Action, id: string, user: string)
    requires Sound(w) && UsersOwn(w, id, user) && user != ""
    ensures UsersOwn(Step(w, a), id, user)
  {
    hide Step, Sound, MadeBy;
    var w' := Step(w, a);
    StepDecides(w, a);
    StepMoves(w, a);
    StepKeepsUser(w, a, id, user);
    if w'.decisions != w.decisions {
      ItsUserDecides(w, a, id, user);
    }
  }

  lemma ItsUserDecides(w: World, a: Action, id: string, user: string)
    requires Step(w, a).decisions != w.decisions && id in w.added && user != ""
    requires id in w.pending ==> w.pending[id].user == user
    ensures
      var w' := Step(w, a);
      && |w'.decisions| == |w.decisions| + 1 && w.decisions <= w'.decisions
      && (w'.decisions[|w.decisions|].id == id ==> w'.decisions[|w.decisions|].account == user)
  {
  }

  lemma StepKeepsUser(w: World, a: Action, id: string, user: string)
    requires Sound(w) && id in w.added && user != ""
    requires id in w.pending ==> w.pending[id].user == user
    ensures id in Step(w, a).added
    ensures id in Step(w, a).pending ==> Step(w, a).pending[id].user == user
  {
    hide Roomy, WithinLimits, DecidedOnce;
    if a.Add? {
      RoomyDrops(Swept(w, a.now).pending, a.request, a.evict);
    }
  }

  lemma {:induction false} RunKeepsOwn(w: World, actions: seq<Action>, id: string, user: string)
    requires Sound(w) && UsersOwn(w, id, user) && user != ""
    ensures UsersOwn(Run(w, actions), id, user)
    decreases |actions|
  {
    hide Step, Sound, UsersOwn;
    if actions != [] {
      StepSound(w, actions[0]);
      StepKeepsOwn(w, actions[0], id, user);
      RunKeepsOwn(Step(w, actions[0]), actions[1..], id, user);
    }
  }

  lemma BoundDecidedByUser(w: World, actions: seq<Action>, id: string, user: string, i: nat)
    requires Sound(w) && id in w.pending && w.pending[id].user == user && user != ""
    requires forall j :: 0 <= j < |w.decisions| ==> w.decisions[j].id != id
    ensures
      var w' := Run(w, actions);
      i < |w'.decisions| && w'.decisions[i].id == id ==> w'.decisions[i].account == user
  {
    assert UsersOwn(w, id, user);
    RunKeepsOwn(w, actions, id, user);
  }

  /** `expired` means what it says: the id's time was over when it was dropped. */
  lemma ExpiryIsReal(w: World, a: Action, id: string)
    requires id in w.pending && id in Step(w, a).expired && id !in w.expired
    ensures id !in Step(w, a).pending || a.Add?
    ensures a.now > w.pending[id].expiresAt
  {
  }

  /**
    Over every run: at most 1000 requests wait, at most 20 of a client and address;
    a request is approved or denied at most once, and a decision is about the request
    as it was added.
  */
  lemma ConsentIsSafe(actions: seq<Action>)
    ensures
      var w := Run(START, actions);
      && |w.pending| <= 1000
      && (forall clientId, sourceIp :: |OfClientIp(w.pending, clientId, sourceIp)| <= 20)
      && (forall i, j :: 0 <= i < j < |w.decisions| ==> w.decisions[i].id != w.decisions[j].id)
      && (forall i :: 0 <= i < |w.decisions| ==>
            w.decisions[i].id in w.added && SameRequest(w.decisions[i].request, w.added[w.decisions[i].id]))
  {
    StartIsSound();
    RunSound(START, actions);
  }
}
