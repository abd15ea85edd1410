/**
  From the consent screen to the tokens (`Approve` and `exchangeCode` in
  internal/oauth/oauth_service.go): requests and codes share one store and one lock,
  an approval takes its request in one locked section and adds its code in another,
  and everything else may happen in between.
*/
module OAuthFlow {
  import opened Common
  import opened OAuthStore
  import Consent = ConsentRuns
  import Codes = OAuthCodes

  /** `source` tells which decision a code was minted for. */
  datatype World = World(consent: Consent.World, codes: Codes.World, source: map<string, nat>)

  const START := World(Consent.START, Codes.START, map[])

  /** `Ask` is everything that happens to requests, `Exchange` everything that happens to codes but their minting. */
  datatype Action =
    | Ask(ask: Consent.Action)
    | Mint(decision: nat, code: string, now: int)
    | Exchange(exchange: Codes.Action)

  /** The code an approval of this request stands for. */
  function GrantOf(p: Request): AuthCode {
    AuthCode(p.clientId, p.clientName, p.redirectUri, p.challenge, p.user, "", false, false, 0)
  }

  predicate Mintable(w: World, i: nat, code: string) {
    && i < |w.consent.decisions| && w.consent.decisions[i].approved
    && i !in w.source.Values && code !in w.codes.approved
  }

  /** Adding a request sweeps the codes, minting a code sweeps the requests. */
  function Step(srv: Codes.Server, w: World, a: Action): World {
    match a
    case Ask(b) =>
      var w' := w.(consent := Consent.Step(w.consent, b));
      if b.Add? || b.Sweep? then w'.(codes := Codes.Step(srv, w.codes, Codes.Sweep(b.now))) else w'
    case Mint(i, code, now) =>
      if !Mintable(w, i, code) then w
      else
        World(Consent.Step(w.consent, Consent.Sweep(now)),
              Codes.Step(srv, w.codes, Codes.Approve(code, GrantOf(w.consent.decisions[i].request), now)),
              w.source[code := i])
    case Exchange(b) =>
      if b.Approve? || b.Sweep? then w else w.(codes := Codes.Step(srv, w.codes, b))
  }

  function Run(srv: Codes.Server, w: World, actions: seq<Action>): World
    decreases |actions|
  {
    if actions == [] then w else Run(srv, Step(srv, w, actions[0]), actions[1..])
  }

  /** Every approved code stands for an approval, and no two for the same one. */
  ghost predicate Sourced(consent: Consent.World, approved: map<string, AuthCode>, source: map<string, nat>) {
    && approved.Keys == source.Keys
    && (forall c :: c in source ==>
          && source[c] < |consent.decisions| && consent.decisions[source[c]].approved
          && SameGrant(approved[c], GrantOf(consent.decisions[source[c]].request)))
    && (forall c, d :: c in source && d in source && source[c] == source[d] ==> c == d)
  }

  /** Equal but for what the store keeps about a code itself. */
  predicate SameGrant(c: AuthCode, d: AuthCode) {
    Unused(c, 0) == Unused(d, 0)
  }

  ghost predicate Inv(srv: Codes.Server, w: World) {
    Consent.Sound(w.consent) && Codes.Inv(srv, w.codes) && Sourced(w.consent, w.codes.approved, w.source)
  }

  lemma ExchangesApproveNothing(srv: Codes.Server, w: Codes.World, a: Codes.Action)
    requires !a.Approve?
    ensures Codes.Step(srv, w, a).approved == w.approved
  {
    hide Codes.Matches;
  }

  lemma SourceGrows(consent: Consent.World, approved: map<string, AuthCode>, source: map<string, nat>, i: nat, code: string, c: AuthCode)
    requires Sourced(consent, approved, source)
    requires i < |consent.decisions| && consent.decisions[i].approved && i !in source.Values && code !in approved
    requires SameGrant(c, GrantOf(consent.decisions[i].request))
    ensures Sourced(consent, approved[code := c], source[code := i])
  {
    hide SameGrant;
    forall d | d in source ensures source[d] != i {
      assert source[d] in source.Values;
    }
  }

  lemma MintedApproved(srv: Codes.Server, w: Codes.World, code: string, grant: AuthCode, now: int)
    requires code !in w.approved
    ensures
      var w' := Codes.Step(srv, w, Codes.Approve(code, grant, now));
      code in w'.approved && SameGrant(w'.approved[code], grant) && w'.approved == w.approved[code := w'.approved[code]]
  {
  }

  lemma MintKeepsSourced(srv: Codes.Server, w: World, i: nat, code: string, now: int)
    requires Sourced(w.consent, w.codes.approved, w.source) && Mintable(w, i, code)
    ensures
      var w' := Step(srv, w, Mint(i, code, now));
      Sourced(w'.consent, w'.codes.approved, w'.source)
  {
    hide Sourced, SameGrant, Codes.Step;
    var w' := Step(srv, w, Mint(i, code, now));
    MintedApproved(srv, w.codes, code, GrantOf(w.consent.decisions[i].request), now);
    SourceGrows(w.consent, w.codes.approved, w.source, i, code, w'.codes.approved[code]);
    MoreDecisionsKeepSourced(w.consent, w'.consent, w'.codes.approved, w'.source);
  }

  lemma MoreDecisionsKeepSourced(before: Consent.World, after: Consent.World, approved: map<string, AuthCode>, source: map<string, nat>)
    requires Sourced(before, approved, source) && before.decisions <= after.decisions
    ensures Sourced(after, approved, source)
  {
  }

  lemma StepKeepsInv(srv: Codes.Server, w: World, a: Action)
    requires Inv(srv, w)
    ensures Inv(srv, Step(srv, w, a))
  {
    hide Consent.Sound, Codes.Inv, Sourced, Consent.Step, Codes.Step;
    match a
    case Ask(b) =>
      Consent.StepSound(w.consent, b);
      Consent.StepRemembers(w.consent, b);
      MoreDecisionsKeepSourced(w.consent, Consent.Step(w.consent, b), w.codes.approved, w.source);
      if b.Add? || b.Sweep? {
        Codes.StepKeeps(srv, w.codes, Codes.Sweep(b.now));
        ExchangesApproveNothing(srv, w.codes, Codes.Sweep(b.now));
      }
    case Mint(i, code, now) =>
      if Mintable(w, i, code) {
        Consent.StepSound(w.consent, Consent.Sweep(now));
        Codes.StepKeeps(srv, w.codes, Codes.Approve(code, GrantOf(w.consent.decisions[i].request), now));
        MintKeepsSourced(srv, w, i, code, now);
      }
    case Exchange(b) =>
      if !b.Approve? && !b.Sweep? {
        Codes.StepKeeps(srv, w.codes, b);
        ExchangesApproveNothing(srv, w.codes, b);
      }
  }

  lemma {:induction false} RunKeepsInv(srv: Codes.Server, w: World, actions: seq<Action>)
    requires Inv(srv, w)
    ensures Inv(srv, Run(srv, w, actions))
    decreases |actions|
  {
    hide Step, Inv;
    if actions != [] {
      StepKeepsInv(srv, w, actions[0]);
      RunKeepsInv(srv, Step(srv, w, actions[0]), actions[1..]);
    }
  }

  lemma StartIsSound(srv: Codes.Server)
    ensures Inv(srv, START)
  {
    forall clientId, sourceIp ensures OfClientIp(Consent.START.pending, clientId, sourceIp) == {} {
    }
  }

  predicate Returned(w: World, t: nat) {
    t in w.codes.exchanges && w.codes.exchanges[t].stage.Returned?
  }

  /** The decision behind an exchange's code. */
  function DecisionOf(w: World, t: nat): Option<Consent.Decision>
    requires t in w.codes.exchanges
  {
    var code := w.codes.exchanges[t].params.code;
    if code in w.source && w.source[code] < |w.consent.decisions| then Some(w.consent.decisions[w.source[code]]) else None
  }

  /**
    Consent carries through, over every run: tokens are returned only for a request
    that was approved; they act for the account it was bound to; the client, the
    redirect URI and the verifier are those it was made with; and no request is good
    for a second set of tokens.
  */
  lemma TokensNeedConsent(srv: Codes.Server, actions: seq<Action>, t: nat)
    ensures
      var w := Run(srv, START, actions);
      Returned(w, t) ==>
        var d, x := DecisionOf(w, t), w.codes.exchanges[t];
        && d.Some? && d.value.approved && d.value.id in w.consent.added
        && x.params.clientId == w.consent.added[d.value.id].clientId
        && x.params.redirectUri == w.consent.added[d.value.id].redirectUri
        && srv.s256(x.params.verifier) == w.consent.added[d.value.id].challenge
        && x.stage.device in w.codes.devices && w.codes.devices[x.stage.device].user == d.value.request.user
  {
    StartIsSound(srv);
    RunKeepsInv(srv, START, actions);
    var w := Run(srv, START, actions);
    if Returned(w, t) {
      ReturnedMatches(srv, w.codes, t);
    }
  }

  ghost predicate Asked(past: seq<Action>, d: Consent.Decision) {
    exists a :: Ask(a) in past && Consent.MadeBy(d, a)
  }

  ghost predicate AllAsked(w: World, past: seq<Action>) {
    forall i :: 0 <= i < |w.consent.decisions| ==> Asked(past, w.consent.decisions[i])
  }

  lemma StepAsks(srv: Codes.Server, w: World, past: seq<Action>, a: Action)
    requires AllAsked(w, past)
    ensures AllAsked(Step(srv, w, a), past + [a])
  {
    hide Consent.Step, Codes.Step, Consent.MadeBy;
    var before, after := w.consent.decisions, Step(srv, w, a).consent.decisions;
    if a.Ask? {
      Consent.StepDecides(w.consent, a.ask);
    } else if a.Mint? {
      SweepDecidesNothing(w.consent, a.now);
    }
    forall i | 0 <= i < |after| ensures Asked(past + [a], after[i]) {
      if i < |before| {
        assert after[i] == before[i] && Asked(past, before[i]);
        var b :| Ask(b) in past && Consent.MadeBy(before[i], b);
        assert Ask(b) in past + [a];
      } else {
        assert a.Ask? && i == |before| && Consent.MadeBy(after[i], a.ask);
        assert (past + [a])[|past|] == Ask(a.ask);
      }
    }
  }

  lemma SweepDecidesNothing(w: Consent.World, now: int)
    ensures Consent.Step(w, Consent.Sweep(now)).decisions == w.decisions
  {
  }

  lemma {:induction false} RunAsks(srv: Codes.Server, w: World, past: seq<Action>, actions: seq<Action>)
    requires AllAsked(w, past)
    ensures AllAsked(Run(srv, w, actions), past + actions)
    decreases |actions|
  {
    hide Step, AllAsked;
    if actions == [] {
      assert past + actions == past;
    } else {
      StepAsks(srv, w, past, actions[0]);
      assert (past + [actions[0]]) + actions[1..] == past + actions;
      RunAsks(srv, Step(srv, w, actions[0]), past + [actions[0]], actions[1..]);
    }
  }

  /** Tokens are returned only where, in the run, the account they act for took the request and approved it. */
  lemma TokensWereApproved(srv: Codes.Server, actions: seq<Action>, t: nat)
    ensures
      var w := Run(srv, START, actions);
      Returned(w, t) ==>
        var d, x := DecisionOf(w, t), w.codes.exchanges[t];
        && d.Some? && x.stage.device in w.codes.devices
        && exists now :: Ask(Consent.Take(d.value.id, w.codes.devices[x.stage.device].user, true, now)) in actions
  {
    hide Run, Inv, AllAsked;
    TokensNeedConsent(srv, actions, t);
    RunAsks(srv, START, [], actions) by {
      NothingAsked();
    }
    assert [] + actions == actions;
    var w := Run(srv, START, actions);
    if Returned(w, t) {
      DecisionWasAsked(w, actions, t);
    }
  }

  lemma NothingAsked()
    ensures AllAsked(START, [])
  {
  }

  lemma DecisionWasAsked(w: World, actions: seq<Action>, t: nat)
    requires AllAsked(w, actions) && t in w.codes.exchanges && DecisionOf(w, t).Some?
    ensures
      var d := DecisionOf(w, t).value;
      exists now :: Ask(Consent.Take(d.id, d.request.user, d.approved, now)) in actions
  {
    var d := DecisionOf(w, t).value;
    assert Asked(actions, d);
    var a :| Ask(a) in actions && Consent.MadeBy(d, a);
    assert a == Consent.Take(d.id, d.request.user, d.approved, a.now);
  }

  lemma ReturnedMatches(srv: Codes.Server, w: Codes.World, t: nat)
    requires Codes.Inv(srv, w) && t in w.exchanges && w.exchanges[t].stage.Returned?
    ensures
      var x, d := w.exchanges[t], w.exchanges[t].stage.device;
      && x.params.code in w.approved && Codes.Matches(srv, x.params, w.approved[x.params.code])
      && d in w.devices && w.devices[d].user == w.approved[x.params.code].user
  {
    hide Codes.Matches;
    assert Codes.StageFits(srv, w, t) && Codes.PhaseFits(w, w.exchanges[t].params.code);
  }

  lemma DecidedApart(consent: Consent.World, i: nat, j: nat)
    requires Consent.Sound(consent) && i < |consent.decisions| && j < |consent.decisions| && i != j
    ensures consent.decisions[i].id != consent.decisions[j].id
  {
  }

  lemma ConsentYieldsTokensOnce(srv: Codes.Server, actions: seq<Action>, t: nat, u: nat)
    ensures
      var w := Run(srv, START, actions);
      Returned(w, t) && Returned(w, u) && t != u ==>
        && DecisionOf(w, t).Some? && DecisionOf(w, u).Some?
        && DecisionOf(w, t).value.id != DecisionOf(w, u).value.id
  {
    hide Codes.Matches, Codes.Inv, Consent.Sound, SameGrant, Run;
    StartIsSound(srv);
    RunKeepsInv(srv, START, actions);
    var w := Run(srv, START, actions);
    if Returned(w, t) && Returned(w, u) && t != u {
      ReturnedMatches(srv, w.codes, t);
      ReturnedMatches(srv, w.codes, u);
      ReturnedApart(srv, w.codes, t, u);
      DecidedApart(w.consent, w.source[w.codes.exchanges[t].params.code], w.source[w.codes.exchanges[u].params.code]);
    }
  }

  lemma ReturnedApart(srv: Codes.Server, w: Codes.World, t: nat, u: nat)
    requires Codes.Inv(srv, w) && t != u
    requires t in w.exchanges && w.exchanges[t].stage.Returned? && u in w.exchanges && w.exchanges[u].stage.Returned?
    ensures w.exchanges[t].params.code != w.exchanges[u].params.code
  {
    hide Codes.Matches, Codes.PhaseFits;
    assert Codes.StageFits(srv, w, t) && Codes.StageFits(srv, w, u);
  }
}
