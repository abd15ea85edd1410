/**
  The token endpoint's code exchange as one caller sees it (`exchangeCode` in
  internal/oauth/oauth_service.go), over the store: with nobody in between, it takes
  the steps of `OAuthCodes` in their order.
*/
module OAuthTokens {
  import opened Common
  import opened OAuthStore
  import opened OAuthCodes

  /** How issuing tokens ends: a device, the agent limit, or an error. */
  datatype Issued = NewDevice(key: string) | LimitHit | Failed

  function IssueAction(t: nat, issued: Issued): Action {
    match issued
    case NewDevice(key) => Issue(t, key)
    case LimitHit => HitAgentLimit(t)
    case Failed => FailIssue(t)
  }

  /** Steps that do not apply at the stage the exchange is in do nothing. */
  function Script(t: nat, p: Params, now: int, issued: Issued): seq<Action> {
    [Redeem(t, p, now), IssueAction(t, issued), Unmark(t), Bind(t), Revoke(t)]
  }

  lemma ScriptSteps(srv: Server, w: World, t: nat, p: Params, now: int, issued: Issued)
    ensures
      Run(srv, w, Script(t, p, now, issued)) ==
      Step(srv, Step(srv, Step(srv, Step(srv, Step(srv, w, Redeem(t, p, now)), IssueAction(t, issued)), Unmark(t)), Bind(t)), Revoke(t))
  {
    hide Step;
    var a := Script(t, p, now, issued);
    assert a[1..][1..] == a[2..] && a[2..][1..] == a[3..] && a[3..][1..] == a[4..] && a[4..][1..] == [];
    var w2 := Step(srv, Step(srv, w, a[0]), a[1]);
    var w4 := Step(srv, Step(srv, w2, a[2]), a[3]);
    assert Run(srv, w, a) == Run(srv, w2, a[2..]);
    assert Run(srv, w2, a[2..]) == Run(srv, w4, a[4..]);
    assert Run(srv, w4, a[4..]) == Run(srv, Step(srv, w4, a[4]), []);
  }

  /** What the whole script leaves in the store and of the devices, and where the exchange ends. */
  ghost predicate Leaves(w: World, t: nat, codes: Codes, devices: map<string, Device>, stage: Stage) {
    w.codes == codes && w.devices == devices && At(w.exchanges, t, stage)
  }

  lemma RefusedFirst(srv: Server, w: World, t: nat, p: Params, now: int)
    requires t !in w.exchanges && FirstStage(srv, w.codes, p, now) == Refused
    ensures Leaves(Step(srv, w, Redeem(t, p, now)), t,
                   if Complete(p) then Consumed(w.codes, p.code, now) else w.codes, w.devices, Refused)
  {
    hide Matches;
  }

  /** A refused exchange stays as it is, whatever the rest of the script tries. */
  lemma RefusedRests(srv: Server, w: World, t: nat, issued: Issued)
    requires At(w.exchanges, t, Refused)
    ensures Step(srv, w, IssueAction(t, issued)) == w && Step(srv, w, Unmark(t)) == w
    ensures Step(srv, w, Bind(t)) == w && Step(srv, w, Revoke(t)) == w
  {
  }

  lemma RefusedScript(srv: Server, w: World, t: nat, p: Params, now: int, issued: Issued)
    requires t !in w.exchanges && FirstStage(srv, w.codes, p, now) == Refused
    ensures Leaves(Run(srv, w, Script(t, p, now, issued)), t,
                   if Complete(p) then Consumed(w.codes, p.code, now) else w.codes, w.devices, Refused)
  {
    hide Step, Consumed, FirstStage;
    ScriptSteps(srv, w, t, p, now, issued);
    RefusedFirst(srv, w, t, p, now);
    RefusedRests(srv, Step(srv, w, Redeem(t, p, now)), t, issued);
  }

  lemma ReplayScript(srv: Server, w: World, t: nat, p: Params, now: int, issued: Issued, d: string)
    requires t !in w.exchanges && FirstStage(srv, w.codes, p, now) == Revoking(d) && d in w.devices
    ensures Leaves(Run(srv, w, Script(t, p, now, issued)), t, Consumed(w.codes, p.code, now),
                   w.devices[d := w.devices[d].(revoked := true)], Refused)
  {
    hide Matches, Consumed;
    ScriptSteps(srv, w, t, p, now, issued);
  }

  lemma FailedScript(srv: Server, w: World, t: nat, p: Params, now: int, issued: Issued)
    requires t !in w.exchanges && FirstStage(srv, w.codes, p, now) == Issuing && !issued.NewDevice?
    ensures
      var codes := Consumed(w.codes, p.code, now);
      Leaves(Run(srv, w, Script(t, p, now, issued)), t, if issued.Failed? then Unmarked(codes, p.code) else codes, w.devices, Refused)
  {
    hide Matches, Consumed, Unmarked;
    ScriptSteps(srv, w, t, p, now, issued);
  }

  lemma IssuedSteps(srv: Server, w: World, t: nat, p: Params, now: int, d: string)
    requires t !in w.exchanges && FirstStage(srv, w.codes, p, now) == Issuing
    requires d !in w.devices && d != "" && p.code in w.approved
    ensures
      var w2 := Step(srv, Step(srv, w, Redeem(t, p, now)), Issue(t, d));
      && Step(srv, w2, Unmark(t)) == w2
      && Leaves(w2, t, Consumed(w.codes, p.code, now), w.devices[d := Device(p.code, t, w.approved[p.code].user, false)], Binding(d))
      && w2.exchanges[t].params == p
  {
    hide Matches, Consumed;
  }

  lemma BindSteps(srv: Server, w: World, t: nat, d: string)
    requires At(w.exchanges, t, Binding(d)) && d in w.devices
    ensures
      var code := w.exchanges[t].params.code;
      var seen := code in w.codes && w.codes[code].reuseSeen;
      Leaves(Step(srv, Step(srv, w, Bind(t)), Revoke(t)), t, Bound(w.codes, code, d),
             if seen then w.devices[d := w.devices[d].(revoked := true)] else w.devices, if seen then Refused else Returned(d))
  {
    hide Matches, Bound;
  }

  lemma IssuedScript(srv: Server, w: World, t: nat, p: Params, now: int, d: string)
    requires t !in w.exchanges && FirstStage(srv, w.codes, p, now) == Issuing
    requires d !in w.devices && d != "" && p.code in w.approved
    ensures
      var codes := Consumed(w.codes, p.code, now);
      var seen := p.code in codes && codes[p.code].reuseSeen;
      Leaves(Run(srv, w, Script(t, p, now, NewDevice(d))), t, Bound(codes, p.code, d),
             w.devices[d := Device(p.code, t, w.approved[p.code].user, seen)], if seen then Refused else Returned(d))
  {
    hide Step, Consumed, Bound, FirstStage;
    ScriptSteps(srv, w, t, p, now, NewDevice(d));
    IssuedSteps(srv, w, t, p, now, d);
    BindSteps(srv, Step(srv, Step(srv, w, Redeem(t, p, now)), Issue(t, d)), t, d);
  }

  /** The device of a code seen used is known; a code that can be redeemed was approved. */
  lemma RedeemableIsKnown(srv: Server, w: World, p: Params, now: int)
    requires Inv(srv, w) && Redeemable(w.codes, p.code, now)
    ensures p.code in w.approved
    ensures w.codes[p.code].deviceKey != "" ==> w.codes[p.code].deviceKey in w.devices
  {
    hide Matches;
    assert PhaseFits(w, p.code);
  }

  lemma NotConsumed(codes: Codes, code: string, now: int)
    requires !Redeemable(codes, code, now)
    ensures Consumed(codes, code, now) == codes
  {
  }

  /** Consuming changes neither the grant nor the device of a code. */
  lemma EntryAfter(codes: Codes, code: string, now: int)
    requires Redeemable(codes, code, now)
    ensures
      var codes' := Consumed(codes, code, now);
      && code in codes' && codes'[code].deviceKey == codes[code].deviceKey
      && forall srv, p :: Matches(srv, p, codes'[code]) <==> Matches(srv, p, codes[code])
  {
  }

  class TokenEndpoint {
    const srv: Server
    const store: Store
    var revoked: set<string>
    ghost var world: World

    ghost predicate Valid()
      reads this, store
    {
      && Inv(srv, world) && store.codes == world.codes
      && forall d :: d in world.devices ==> (d in revoked <==> world.devices[d].revoked)
    }

    constructor (srv: Server)
      ensures Valid() && this.srv == srv && world == START && fresh(store)
    {
      this.srv := srv;
      store := new Store();
      revoked := {};
      world := START;
    }

    /** `t` names the exchange in the history; a new device has a new key. */
    method ExchangeCode(ghost t: nat, p: Params, now: int, issued: Issued) returns (tokens: Option<string>)
      requires Valid() && t !in world.exchanges
      requires issued.NewDevice? ==> issued.key != "" && issued.key !in world.devices && issued.key !in revoked
      modifies this, store
      ensures Valid() && world == Run(srv, old(world), Script(t, p, now, issued))
      ensures tokens.Some? ==> issued == NewDevice(tokens.value) && At(world.exchanges, t, Returned(tokens.value))
      ensures tokens.None? ==> At(world.exchanges, t, Refused)
    {
      hide Matches, Inv, Consumed, Unmarked, Bound, Run;
      RunKeeps(srv, world, Script(t, p, now, issued));
      ghost var w := world;
      world := Run(srv, world, Script(t, p, now, issued));
      if p.code == "" || p.redirectUri == "" || p.clientId == "" || p.verifier == "" {
        RefusedScript(srv, w, t, p, now, issued);
        return None;
      }
      var entry, reused := store.ConsumeCode(p.code, now);
      if entry.None? {
        RefusedScript(srv, w, t, p, now, issued);
        NotConsumed(w.codes, p.code, now);
        return None;
      }
      RedeemableIsKnown(srv, w, p, now);
      EntryAfter(w.codes, p.code, now);
      if reused {
        if entry.value.deviceKey != "" {
          ReplayScript(srv, w, t, p, now, issued, entry.value.deviceKey);
          revoked := revoked + {entry.value.deviceKey};
        } else {
          RefusedScript(srv, w, t, p, now, issued);
        }
        return None;
      }
      if !Matches(srv, p, entry.value) {
        RefusedScript(srv, w, t, p, now, issued);
        return None;
      }
      match issued {
        case LimitHit =>
          FailedScript(srv, w, t, p, now, issued);
          return None;
        case Failed =>
          FailedScript(srv, w, t, p, now, issued);
          store.UnmarkCode(p.code);
          return None;
        case NewDevice(key) =>
          IssuedScript(srv, w, t, p, now, key);
          var reuseSeen := store.SetCodeDevice(p.code, key);
          if reuseSeen {
            revoked := revoked + {key};
            return None;
          }
          return Some(key);
      }
    }
  }
}
