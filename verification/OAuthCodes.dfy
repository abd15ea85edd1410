/**
  Exchanging authorization codes (internal/oauth/oauth_service.go) under every
  interleaving: each store operation holds the lock, but tokens are issued, and
  devices revoked, between them. Any number of exchanges may run at once.
*/
module OAuthCodes {
  import opened Common
  import opened OAuthStore

  /** `s256` is the code challenge of a verifier (section 4.2 of RFC 7636); nothing is assumed about it. */
  datatype Server = Server(resource: string, s256: string -> string)

  datatype Params = Params(code: string, clientId: string, redirectUri: string, verifier: string, resource: Option<string>)

  /**
    Where an exchange stands. `Issuing`: it consumed the code and passed every check.
    `Unmarking`: issuing failed, the code is to be given back. `Binding`: it has
    tokens, the code is to be told the device. `Revoking`: a device has to go.
  */
  datatype Stage = Issuing | Unmarking | Binding(device: string) | Revoking(device: string) | Returned(device: string) | Refused

  datatype Exchange = Exchange(params: Params, at: int, stage: Stage)

  datatype Device = Device(code: string, exchange: nat, user: string, revoked: bool)

  /**
    The history of a code: `Open` to be redeemed, `Held` by an exchange that has no
    tokens yet, `Tokens` when it has a device, `Told` and `Late` once the code was to
    be told the device and was still there, or already swept; `Spent` without tokens.
  */
  datatype Phase =
    | Open
    | Held(exchange: nat)
    | Tokens(exchange: nat, device: string)
    | Told(exchange: nat, device: string)
    | Late(exchange: nat, device: string)
    | Spent

  type Exchanges = map<nat, Exchange>

  /**
    Besides the store, the exchanges and the devices, a world remembers every code
    ever approved with its history, the codes seen used while stored, and the devices
    revoked for a reason of their own.
  */
  datatype World = World(
    codes: Codes,
    exchanges: Exchanges,
    devices: map<string, Device>,
    approved: Codes,
    phases: map<string, Phase>,
    replayed: set<string>,
    revokedElsewhere: set<string>)

  const START := World(map[], map[], map[], map[], map[], {}, {})

  predicate IsBase64Url(c: char) {
    'A' <= c <= 'Z' || 'a' <= c <= 'z' || '0' <= c <= '9' || c == '-' || c == '_'
  }

  predicate ValidVerifier(v: string) {
    43 <= |v| <= 128 && forall i :: 0 <= i < |v| ==> IsBase64Url(v[i]) || v[i] == '.' || v[i] == '~'
  }

  predicate Matches(srv: Server, p: Params, c: AuthCode) {
    && p.clientId == c.clientId && p.redirectUri == c.redirectUri
    && ValidVerifier(p.verifier) && srv.s256(p.verifier) == c.challenge
    && (p.resource.None? || p.resource.value == srv.resource)
  }

  datatype Action =
    | Approve(code: string, grant: AuthCode, now: int)
    | Sweep(now: int)
    | Redeem(t: nat, params: Params, now: int)
    | HitAgentLimit(t: nat)
    | FailIssue(t: nat)
    | Issue(t: nat, device: string)
    | Unmark(t: nat)
    | Bind(t: nat)
    | Revoke(t: nat)
    | RevokeElsewhere(device: string)

  /** Exchange `t` moves to `stage`, its code to `phase`. */
  function Advance(w: World, t: nat, stage: Stage, phase: Phase): World
    requires t in w.exchanges
  {
    w.(exchanges := w.exchanges[t := w.exchanges[t].(stage := stage)],
       phases := w.phases[w.exchanges[t].params.code := phase])
  }

  predicate At(exchanges: Exchanges, t: nat, s: Stage) {
    t in exchanges && exchanges[t].stage == s
  }

  predicate Complete(p: Params) {
    p.code != "" && p.redirectUri != "" && p.clientId != "" && p.verifier != ""
  }

  /** The stage of an exchange right after `consumeCode`. */
  function FirstStage(srv: Server, codes: Codes, p: Params, now: int): Stage {
    if !Complete(p) || !Redeemable(codes, p.code, now) then Refused
    else
      var c := codes[p.code];
      if c.used then (if c.deviceKey != "" then Revoking(c.deviceKey) else Refused)
      else if Matches(srv, p, c) then Issuing
      else Refused
  }

  function Redeemed(srv: Server, w: World, t: nat, p: Params, now: int): World {
    var stage := FirstStage(srv, w.codes, p, now);
    var w' := w.(exchanges := w.exchanges[t := Exchange(p, now, stage)]);
    if !Complete(p) || !Redeemable(w.codes, p.code, now) then w'
    else if w.codes[p.code].used then w'.(codes := Consumed(w.codes, p.code, now), replayed := w.replayed + {p.code})
    else w'.(codes := Consumed(w.codes, p.code, now), phases := w.phases[p.code := if stage.Issuing? then Held(t) else Spent])
  }

  function Step(srv: Server, w: World, a: Action): World {
    match a
    case Approve(code, grant, now) =>
      if code in w.approved then w  // codes are 32 random bytes, taken to be never drawn twice
      else
        var c := Unused(grant, now + CODE_TTL);
        w.(codes := SweptCodes(w.codes, now)[code := c], approved := w.approved[code := c], phases := w.phases[code := Open])
    case Sweep(now) => w.(codes := SweptCodes(w.codes, now))
    case Redeem(t, p, now) => if t in w.exchanges then w else Redeemed(srv, w, t, p, now)
    case HitAgentLimit(t) => if At(w.exchanges, t, Issuing) then Advance(w, t, Refused, Spent) else w
    case FailIssue(t) => if At(w.exchanges, t, Issuing) then Advance(w, t, Unmarking, Held(t)) else w
    case Issue(t, d) =>
      if !At(w.exchanges, t, Issuing) || d in w.devices || d == "" || w.exchanges[t].params.code !in w.approved then w
      else
        var code := w.exchanges[t].params.code;
        Advance(w, t, Binding(d), Tokens(t, d)).(devices := w.devices[d := Device(code, t, w.approved[code].user, false)])
    case Unmark(t) =>
      if !At(w.exchanges, t, Unmarking) then w
      else
        var code := w.exchanges[t].params.code;
        Advance(w, t, Refused, if code in w.codes && !w.codes[code].reuseSeen then Open else Spent).(codes := Unmarked(w.codes, code))
    case Bind(t) =>
      if t !in w.exchanges || !w.exchanges[t].stage.Binding? then w
      else
        var code, d := w.exchanges[t].params.code, w.exchanges[t].stage.device;
        var reuseSeen := code in w.codes && w.codes[code].reuseSeen;
        Advance(w, t, if reuseSeen then Revoking(d) else Returned(d), if code in w.codes then Told(t, d) else Late(t, d)).(
          codes := Bound(w.codes, code, d))
    case Revoke(t) =>
      if t !in w.exchanges || !w.exchanges[t].stage.Revoking? || w.exchanges[t].stage.device !in w.devices then w
      else
        var d := w.exchanges[t].stage.device;
        w.(exchanges := w.exchanges[t := w.exchanges[t].(stage := Refused)], devices := w.devices[d := w.devices[d].(revoked := true)])
    case RevokeElsewhere(d) =>
      if d !in w.devices then w
      else w.(devices := w.devices[d := w.devices[d].(revoked := true)], revokedElsewhere := w.revokedElsewhere + {d})
  }

  function Run(srv: Server, w: World, actions: seq<Action>): World
    decreases |actions|
  {
    if actions == [] then w else Run(srv, Step(srv, w, actions[0]), actions[1..])
  }

  // ----- the invariant -----

  predicate SameGrant(c: AuthCode, d: AuthCode) {
    c.(deviceKey := "", used := false, reuseSeen := false) == d.(deviceKey := "", used := false, reuseSeen := false)
  }

  predicate CodeOf(exchanges: Exchanges, t: nat, code: string) {
    t in exchanges && exchanges[t].params.code == code
  }

  ghost predicate BeingRevoked(exchanges: Exchanges, d: string) {
    exists t :: At(exchanges, t, Revoking(d))
  }

  /** `d` is the device that exchange `t` got for `code`. */
  predicate DeviceFor(w: World, d: string, t: nat, code: string) {
    && d in w.devices && code in w.approved && CodeOf(w.exchanges, t, code)
    && w.devices[d] == Device(code, t, w.approved[code].user, w.devices[d].revoked)
    && (d in w.revokedElsewhere ==> w.devices[d].revoked)
  }

  predicate Stored(w: World, code: string, used: bool, deviceKey: string) {
    code in w.codes ==> w.codes[code].used == used && w.codes[code].deviceKey == deviceKey
  }

  ghost predicate PhaseFits(w: World, code: string)
    requires code in w.approved
  {
    && code in w.phases
    && (code in w.codes ==>
          && SameGrant(w.codes[code], w.approved[code])
          && (w.codes[code].reuseSeen <==> code in w.replayed)
          && (w.codes[code].reuseSeen ==> w.codes[code].used))
    && match w.phases[code]
       case Open => Stored(w, code, false, "")
       case Spent => Stored(w, code, true, "")
       case Held(t) => Stored(w, code, true, "") && CodeOf(w.exchanges, t, code)
       case Tokens(t, d) =>
         && Stored(w, code, true, "") && DeviceFor(w, d, t, code) && At(w.exchanges, t, Binding(d))
         && (w.devices[d].revoked ==> d in w.revokedElsewhere)
       case Told(t, d) =>
         && Stored(w, code, true, d) && DeviceFor(w, d, t, code)
         && (w.devices[d].revoked ==> d in w.revokedElsewhere || code in w.replayed)
         && (code in w.replayed ==> w.devices[d].revoked || BeingRevoked(w.exchanges, d))
       case Late(t, d) =>
         && code !in w.codes && DeviceFor(w, d, t, code)
         && (w.devices[d].revoked ==> d in w.revokedElsewhere)
  }

  ghost predicate StageFits(srv: Server, w: World, t: nat)
    requires t in w.exchanges
  {
    var x, code := w.exchanges[t], w.exchanges[t].params.code;
    && (code in w.approved && code in w.phases &&
        match x.stage
        case Issuing => w.phases[code] == Held(t)
        case Unmarking => w.phases[code] == Held(t)
        case Binding(d) => w.phases[code] == Tokens(t, d)
        case Returned(d) => w.phases[code] in {Told(t, d), Late(t, d)}
        case Revoking(d) => w.phases[code].Told? && w.phases[code].device == d && code in w.replayed
        case Refused => true)
    && (x.stage.Refused? || x.stage.Revoking? || (Matches(srv, x.params, w.approved[code]) && x.at <= w.approved[code].expiresAt))
  }

  predicate DeviceFits(w: World, d: string)
    requires d in w.devices
  {
    var code := w.devices[d].code;
    && d != "" && code in w.phases
    && w.phases[code] in {Tokens(w.devices[d].exchange, d), Told(w.devices[d].exchange, d), Late(w.devices[d].exchange, d)}
  }

  ghost predicate Inv(srv: Server, w: World) {
    && w.codes.Keys <= w.approved.Keys && w.phases.Keys == w.approved.Keys
    && (forall code :: code in w.approved ==> PhaseFits(w, code))
    && (forall t :: t in w.exchanges && !w.exchanges[t].stage.Refused? ==> StageFits(srv, w, t))
    && (forall d :: d in w.devices ==> DeviceFits(w, d))
    && w.revokedElsewhere <= w.devices.Keys && w.replayed <= w.approved.Keys
  }

  /** What a step that concerns other codes leaves alone. */
  ghost predicate Undisturbed(w: World, w': World, code: string) {
    && (code in w.approved && code in w'.approved && w'.approved[code] == w.approved[code])
    && (code in w'.codes ==> code in w.codes && w'.codes[code] == w.codes[code])
    && (code in w.phases && code in w'.phases && w'.phases[code] == w.phases[code])
    && (code in w'.replayed <==> code in w.replayed)
    && (forall t :: CodeOf(w.exchanges, t, code) ==> t in w'.exchanges && w'.exchanges[t] == w.exchanges[t])
    && (forall d :: d in w.devices && w.devices[d].code == code ==>
          && d in w'.devices && w'.devices[d] == w.devices[d]
          && (d in w'.revokedElsewhere <==> d in w.revokedElsewhere))
  }

  lemma PhaseKept(srv: Server, w: World, w': World, code: string)
    requires Inv(srv, w) && Undisturbed(w, w', code)
    ensures PhaseFits(w', code)
  {
    hide Matches;
    var phase := w.phases[code];
    assert PhaseFits(w, code);
    if phase.Told? && code in w.replayed && !w.devices[phase.device].revoked {
      var t :| At(w.exchanges, t, Revoking(phase.device));
      assert StageFits(srv, w, t) && DeviceFits(w, phase.device);
      assert At(w'.exchanges, t, Revoking(phase.device));
    }
  }

  lemma SweepKeeps(srv: Server, w: World, codes: Codes, now: int)
    requires Inv(srv, w) && codes == SweptCodes(w.codes, now)
    ensures Inv(srv, w.(codes := codes))
  {
    hide Matches, PhaseFits;
    var w' := w.(codes := codes);
    forall code | code in w'.approved ensures PhaseFits(w', code) {
      PhaseKept(srv, w, w', code);
    }
  }

  /** A step that concerns one code keeps the invariant if it keeps it for that code. */
  ghost predicate Confined(w: World, w': World, code: string) {
    && w'.codes.Keys <= w'.approved.Keys && w'.phases.Keys == w'.approved.Keys == w.approved.Keys + {code}
    && w'.revokedElsewhere <= w'.devices.Keys && w'.replayed <= w'.approved.Keys
    && (forall other :: other in w.approved && other != code ==> Undisturbed(w, w', other))
    && (forall t :: t in w'.exchanges && w'.exchanges[t].params.code != code ==> t in w.exchanges && w.exchanges[t] == w'.exchanges[t])
    && (forall d :: d in w'.devices && w'.devices[d].code != code ==> d in w.devices && w.devices[d] == w'.devices[d])
  }

  ghost predicate FitsAt(srv: Server, w: World, code: string) {
    && code in w.approved && PhaseFits(w, code)
    && (forall t :: CodeOf(w.exchanges, t, code) && !w.exchanges[t].stage.Refused? ==> StageFits(srv, w, t))
    && (forall d :: d in w.devices && w.devices[d].code == code ==> DeviceFits(w, d))
  }

  lemma ConfinedKeeps(srv: Server, w: World, w': World, code: string)
    requires Inv(srv, w) && Confined(w, w', code) && FitsAt(srv, w', code)
    ensures Inv(srv, w')
  {
    hide Matches, PhaseFits;
    forall other | other in w'.approved ensures PhaseFits(w', other) {
      if other != code {
        PhaseKept(srv, w, w', other);
      }
    }
    forall t | t in w'.exchanges && !w'.exchanges[t].stage.Refused? ensures StageFits(srv, w', t) {
      if w'.exchanges[t].params.code != code {
        assert StageFits(srv, w, t);
        assert Undisturbed(w, w', w.exchanges[t].params.code);
      } else {
        assert CodeOf(w'.exchanges, t, code);
      }
    }
    forall d | d in w'.devices ensures DeviceFits(w', d) {
      if w'.devices[d].code != code {
        assert DeviceFits(w, d);
        assert Undisturbed(w, w', w.devices[d].code);
      }
    }
  }

  function Opened(w: World, code: string, c: AuthCode): World {
    w.(codes := w.codes[code := c], approved := w.approved[code := c], phases := w.phases[code := Open])
  }

  lemma OpenFits(srv: Server, w: World, code: string, c: AuthCode)
    requires Inv(srv, w) && code !in w.approved
    requires c.deviceKey == "" && !c.used && !c.reuseSeen
    ensures FitsAt(srv, Opened(w, code, c), code)
  {
    hide Matches, StageFits, DeviceFits;
    NothingOfUnapproved(srv, w, code);
  }

  lemma OpenConfined(srv: Server, w: World, code: string, c: AuthCode)
    requires Inv(srv, w) && code !in w.approved
    ensures Confined(w, Opened(w, code, c), code)
  {
    hide Matches, PhaseFits, StageFits, DeviceFits;
  }

  lemma OpenKeeps(srv: Server, w: World, code: string, c: AuthCode)
    requires Inv(srv, w) && code !in w.approved
    requires c.deviceKey == "" && !c.used && !c.reuseSeen
    ensures Inv(srv, Opened(w, code, c))
  {
    hide Inv, FitsAt, Confined;
    OpenFits(srv, w, code, c);
    OpenConfined(srv, w, code, c);
    ConfinedKeeps(srv, w, Opened(w, code, c), code);
  }

  lemma ApproveKeeps(srv: Server, w: World, code: string, grant: AuthCode, now: int)
    requires Inv(srv, w)
    ensures Inv(srv, Step(srv, w, Approve(code, grant, now)))
  {
    hide Inv;
    if code !in w.approved {
      SweepKeeps(srv, w, SweptCodes(w.codes, now), now);
      OpenKeeps(srv, w.(codes := SweptCodes(w.codes, now)), code,
                Unused(grant, now + CODE_TTL));
    }
  }

  lemma NothingOfUnapproved(srv: Server, w: World, code: string)
    requires Inv(srv, w) && code !in w.approved
    ensures forall t :: CodeOf(w.exchanges, t, code) ==> w.exchanges[t].stage.Refused?
    ensures forall d :: d in w.devices ==> w.devices[d].code != code
  {
    hide Matches, PhaseFits;
    forall d | d in w.devices ensures w.devices[d].code != code {
      assert DeviceFits(w, d);
    }
    forall t | CodeOf(w.exchanges, t, code) ensures w.exchanges[t].stage.Refused? {
      assert w.exchanges[t].stage.Refused? || StageFits(srv, w, t);
    }
  }

  /** Exchange `t` is the only live one of its code, and any device of the code is the one it holds. */
  ghost predicate OwnedAlone(srv: Server, w: World, t: nat)
    requires t in w.exchanges
  {
    var code := w.exchanges[t].params.code;
    && code in w.approved
    && (forall u :: CodeOf(w.exchanges, u, code) && u != t ==> w.exchanges[u].stage.Refused?)
    && (forall d :: d in w.devices && w.devices[d].code == code ==> w.exchanges[t].stage == Binding(d) && DeviceFits(w, d))
    && StageFits(srv, w, t) && PhaseFits(w, code)
  }

  /** An exchange that has yet to finish with its code is the only one, and without tokens there is no device. */
  lemma OwnerAlone(srv: Server, w: World, t: nat)
    requires Inv(srv, w) && t in w.exchanges
    requires w.exchanges[t].stage.Issuing? || w.exchanges[t].stage.Unmarking? || w.exchanges[t].stage.Binding?
    ensures OwnedAlone(srv, w, t)
  {
    hide Matches, PhaseFits;
    var code := w.exchanges[t].params.code;
    assert StageFits(srv, w, t);
    forall u | CodeOf(w.exchanges, u, code) && u != t ensures w.exchanges[u].stage.Refused? {
      assert w.exchanges[u].stage.Refused? || StageFits(srv, w, u);
    }
    forall d | d in w.devices && w.devices[d].code == code ensures w.exchanges[t].stage == Binding(d) && DeviceFits(w, d) {
      assert DeviceFits(w, d);
    }
  }

  /** A code has at most one device. */
  lemma DeviceAlone(srv: Server, w: World, d: string)
    requires Inv(srv, w) && d in w.devices
    ensures forall e :: e in w.devices && w.devices[e].code == w.devices[d].code ==> e == d
    ensures w.devices[d].code in w.approved && PhaseFits(w, w.devices[d].code) && DeviceFits(w, d)
    ensures forall t :: CodeOf(w.exchanges, t, w.devices[d].code) && !w.exchanges[t].stage.Refused? ==> StageFits(srv, w, t)
  {
    hide Matches, PhaseFits, StageFits;
    forall e | e in w.devices && w.devices[e].code == w.devices[d].code ensures e == d {
      assert DeviceFits(w, e) && DeviceFits(w, d);
    }
  }

  /** A step that rewrites at most one exchange, one code, one phase and one device, all of the same code. */
  ghost predicate Touches(w: World, w': World, t: nat, code: string, d: string) {
    && code in w.approved && w'.approved == w.approved
    && code in w'.phases && w'.phases == w.phases[code := w'.phases[code]]
    && (w'.codes == w.codes || (code in w.codes && code in w'.codes && w'.codes == w.codes[code := w'.codes[code]]))
    && CodeOf(w'.exchanges, t, code) && w'.exchanges == w.exchanges[t := w'.exchanges[t]]
    && (t in w.exchanges ==> CodeOf(w.exchanges, t, code))
    && (w'.devices == w.devices
        || (d in w'.devices && w'.devices[d].code == code && w'.devices == w.devices[d := w'.devices[d]]
            && (d in w.devices ==> w.devices[d].code == code)))
    && (w'.replayed == w.replayed || w'.replayed == w.replayed + {code})
    && (w'.revokedElsewhere == w.revokedElsewhere || (d in w'.devices && w'.devices != w.devices && w'.revokedElsewhere == w.revokedElsewhere + {d}))
  }

  lemma TouchesKeeps(srv: Server, w: World, w': World, t: nat, code: string, d: string)
    requires Inv(srv, w) && Touches(w, w', t, code, d) && FitsAt(srv, w', code)
    ensures Inv(srv, w')
  {
    hide Matches, PhaseFits, StageFits, DeviceFits;
    assert Confined(w, w', code);
    ConfinedKeeps(srv, w, w', code);
  }

  lemma GiveUpFits(srv: Server, w: World, t: nat, a: Action)
    requires t in w.exchanges && (w.exchanges[t].stage.Issuing? || w.exchanges[t].stage.Unmarking?) && OwnedAlone(srv, w, t)
    requires a == HitAgentLimit(t) || a == FailIssue(t) || a == Unmark(t)
    ensures FitsAt(srv, Step(srv, w, a), w.exchanges[t].params.code)
  {
    hide Matches;
  }

  lemma GiveUpKeeps(srv: Server, w: World, t: nat, a: Action)
    requires Inv(srv, w) && (a == HitAgentLimit(t) || a == FailIssue(t) || a == Unmark(t))
    ensures Inv(srv, Step(srv, w, a))
  {
    hide Matches, PhaseFits, StageFits, DeviceFits;
    var w' := Step(srv, w, a);
    if w' != w {
      var code := w.exchanges[t].params.code;
      OwnerAlone(srv, w, t);
      GiveUpFits(srv, w, t, a);
      assert Touches(w, w', t, code, "");
      TouchesKeeps(srv, w, w', t, code, "");
    }
  }

  lemma IssueFits(srv: Server, w: World, t: nat, d: string)
    requires t in w.exchanges && w.exchanges[t].stage.Issuing? && OwnedAlone(srv, w, t)
    requires d !in w.devices && d != "" && d !in w.revokedElsewhere
    ensures FitsAt(srv, Step(srv, w, Issue(t, d)), w.exchanges[t].params.code)
  {
    hide Matches, SameGrant;
  }

  lemma IssueKeeps(srv: Server, w: World, t: nat, d: string)
    requires Inv(srv, w)
    ensures Inv(srv, Step(srv, w, Issue(t, d)))
  {
    hide Matches, PhaseFits, StageFits, DeviceFits;
    var w' := Step(srv, w, Issue(t, d));
    if w' != w {
      var code := w.exchanges[t].params.code;
      OwnerAlone(srv, w, t);
      IssueFits(srv, w, t, d);
      assert Touches(w, w', t, code, d);
      TouchesKeeps(srv, w, w', t, code, d);
    }
  }

  lemma BindFits(srv: Server, w: World, t: nat)
    requires t in w.exchanges && w.exchanges[t].stage.Binding? && OwnedAlone(srv, w, t)
    ensures FitsAt(srv, Step(srv, w, Bind(t)), w.exchanges[t].params.code)
  {
    hide Matches;
    var w' := Step(srv, w, Bind(t));
    if w'.exchanges[t].stage.Revoking? {
      assert At(w'.exchanges, t, Revoking(w.exchanges[t].stage.device));
    }
  }

  lemma BindKeeps(srv: Server, w: World, t: nat)
    requires Inv(srv, w)
    ensures Inv(srv, Step(srv, w, Bind(t)))
  {
    hide Matches, PhaseFits, StageFits, DeviceFits;
    var w' := Step(srv, w, Bind(t));
    if t in w.exchanges && w.exchanges[t].stage.Binding? {
      var code := w.exchanges[t].params.code;
      OwnerAlone(srv, w, t);
      BindFits(srv, w, t);
      assert Touches(w, w', t, code, "");
      TouchesKeeps(srv, w, w', t, code, "");
    }
  }

  lemma RevokedFits(srv: Server, w: World, w': World, d: string)
    requires d in w.devices && w.devices[d].code in w.approved && PhaseFits(w, w.devices[d].code) && DeviceFits(w, d)
    requires forall e :: e in w.devices && w.devices[e].code == w.devices[d].code ==> e == d
    requires forall t :: CodeOf(w.exchanges, t, w.devices[d].code) && !w.exchanges[t].stage.Refused? ==> StageFits(srv, w, t)
    requires w' == w.(devices := w.devices[d := w.devices[d].(revoked := true)], exchanges := w'.exchanges, revokedElsewhere := w'.revokedElsewhere)
    requires w'.exchanges.Keys == w.exchanges.Keys
    requires forall t :: t in w.exchanges && w'.exchanges[t] != w.exchanges[t] ==>
               w.exchanges[t].stage.Revoking? && w'.exchanges[t] == w.exchanges[t].(stage := Refused)
    requires d in w'.revokedElsewhere || (w.phases[w.devices[d].code].Told? && w.devices[d].code in w.replayed)
    ensures FitsAt(srv, w', w.devices[d].code)
  {
    hide Matches, SameGrant;
  }

  lemma RevokeKeeps(srv: Server, w: World, t: nat)
    requires Inv(srv, w)
    ensures Inv(srv, Step(srv, w, Revoke(t)))
  {
    hide Matches, PhaseFits, StageFits, DeviceFits;
    var w' := Step(srv, w, Revoke(t));
    if w' != w {
      var code := w.exchanges[t].params.code;
      DeviceAlone(srv, w, w.exchanges[t].stage.device);
      RevokingFits(srv, w, t);
      RevokedFits(srv, w, w', w.exchanges[t].stage.device);
      assert Touches(w, w', t, code, w.exchanges[t].stage.device);
      TouchesKeeps(srv, w, w', t, code, w.exchanges[t].stage.device);
    }
  }

  lemma RevokingFits(srv: Server, w: World, t: nat)
    requires Inv(srv, w) && t in w.exchanges && w.exchanges[t].stage.Revoking? && w.exchanges[t].stage.device in w.devices
    ensures
      var d := w.exchanges[t].stage.device;
      && w.devices[d].code == w.exchanges[t].params.code
      && w.devices[d].code in w.phases && w.phases[w.devices[d].code].Told? && w.devices[d].code in w.replayed
  {
    hide Matches;
    assert StageFits(srv, w, t) && PhaseFits(w, w.exchanges[t].params.code);
  }

  lemma RevokeElsewhereKeeps(srv: Server, w: World, d: string)
    requires Inv(srv, w)
    ensures Inv(srv, Step(srv, w, RevokeElsewhere(d)))
  {
    hide Matches, PhaseFits, StageFits, DeviceFits;
    if d in w.devices {
      var w', code, t := Step(srv, w, RevokeElsewhere(d)), w.devices[d].code, w.devices[d].exchange;
      DeviceAlone(srv, w, d);
      RevokedFits(srv, w, w', d);
      assert Confined(w, w', code);
      ConfinedKeeps(srv, w, w', code);
    }
  }

  lemma ReplayFits(srv: Server, w: World, t: nat, p: Params, now: int)
    requires Complete(p) && Redeemable(w.codes, p.code, now) && t !in w.exchanges && FitsAt(srv, w, p.code)
    requires w.codes[p.code].used
    ensures FitsAt(srv, Redeemed(srv, w, t, p, now), p.code)
  {
    hide Matches;
    var w' := Redeemed(srv, w, t, p, now);
    if w'.exchanges[t].stage.Revoking? {
      assert At(w'.exchanges, t, w'.exchanges[t].stage);
    }
  }

  lemma FirstUseFits(srv: Server, w: World, t: nat, p: Params, now: int)
    requires Complete(p) && Redeemable(w.codes, p.code, now) && t !in w.exchanges && FitsAt(srv, w, p.code)
    requires !w.codes[p.code].used
    ensures FitsAt(srv, Redeemed(srv, w, t, p, now), p.code)
  {
  }

  lemma RedeemKeeps(srv: Server, w: World, t: nat, p: Params, now: int)
    requires Inv(srv, w)
    ensures Inv(srv, Step(srv, w, Redeem(t, p, now)))
  {
    hide Matches, PhaseFits, StageFits, DeviceFits;
    if t !in w.exchanges {
      var w', code := Redeemed(srv, w, t, p, now), p.code;
      if Complete(p) && Redeemable(w.codes, code, now) {
        if w.codes[code].used {
          ReplayFits(srv, w, t, p, now);
        } else {
          FirstUseFits(srv, w, t, p, now);
        }
        assert Touches(w, w', t, code, "");
        TouchesKeeps(srv, w, w', t, code, "");
      } else {
        forall other | other in w.approved ensures PhaseFits(w', other) {
          PhaseKept(srv, w, w', other);
        }
        RefusedKeeps(srv, w, w', t);
      }
    }
  }

  lemma RefusedKeeps(srv: Server, w: World, w': World, t: nat)
    requires Inv(srv, w) && t in w'.exchanges && w'.exchanges[t].stage.Refused?
    requires w' == w.(exchanges := w.exchanges[t := w'.exchanges[t]])
    requires forall other :: other in w.approved ==> PhaseFits(w', other)
    ensures Inv(srv, w')
  {
    hide Matches, PhaseFits;
  }

  lemma StepKeeps(srv: Server, w: World, a: Action)
    requires Inv(srv, w)
    ensures Inv(srv, Step(srv, w, a))
  {
    hide Inv;
    match a
    case Approve(code, grant, now) => ApproveKeeps(srv, w, code, grant, now);
    case Sweep(now) => SweepKeeps(srv, w, SweptCodes(w.codes, now), now);
    case Redeem(t, p, now) => RedeemKeeps(srv, w, t, p, now);
    case HitAgentLimit(t) => GiveUpKeeps(srv, w, t, a);
    case FailIssue(t) => GiveUpKeeps(srv, w, t, a);
    case Issue(t, d) => IssueKeeps(srv, w, t, d);
    case Unmark(t) => GiveUpKeeps(srv, w, t, a);
    case Bind(t) => BindKeeps(srv, w, t);
    case Revoke(t) => RevokeKeeps(srv, w, t);
    case RevokeElsewhere(d) => RevokeElsewhereKeeps(srv, w, d);
  }

  lemma {:induction false} RunKeeps(srv: Server, w: World, actions: seq<Action>)
    requires Inv(srv, w)
    ensures Inv(srv, Run(srv, w, actions))
    decreases |actions|
  {
    hide Inv, Step;
    if actions != [] {
      StepKeeps(srv, w, actions[0]);
      RunKeeps(srv, Step(srv, w, actions[0]), actions[1..]);
    }
  }

  // ----- what every run guarantees -----

  /** A code yields tokens at most once (section 4.1.2 of RFC 6749). */
  lemma CodeYieldsTokensOnce(srv: Server, actions: seq<Action>, t: nat, u: nat)
    ensures
      var x := Run(srv, START, actions).exchanges;
      t in x && u in x && x[t].stage.Returned? && x[u].stage.Returned? && x[t].params.code == x[u].params.code ==> t == u
  {
    hide Matches, PhaseFits;
    RunKeeps(srv, START, actions);
    var w := Run(srv, START, actions);
    assert t in w.exchanges && w.exchanges[t].stage.Returned? ==> StageFits(srv, w, t);
    assert u in w.exchanges && w.exchanges[u].stage.Returned? ==> StageFits(srv, w, u);
  }

  /** Tokens go to the client, redirect URI and verifier the code was approved for, in time, and act for its user. */
  lemma TokensMatchGrant(srv: Server, actions: seq<Action>, t: nat)
    ensures
      var w := Run(srv, START, actions);
      t in w.exchanges && w.exchanges[t].stage.Returned? ==>
        var x, d := w.exchanges[t], w.exchanges[t].stage.device;
        && x.params.code in w.approved && Matches(srv, x.params, w.approved[x.params.code])
        && x.at <= w.approved[x.params.code].expiresAt
        && d in w.devices && w.devices[d].user == w.approved[x.params.code].user
  {
    hide Matches;
    RunKeeps(srv, START, actions);
    var w := Run(srv, START, actions);
    if t in w.exchanges && w.exchanges[t].stage.Returned? {
      assert StageFits(srv, w, t) && PhaseFits(w, w.exchanges[t].params.code);
    }
  }

  /** The unreserved characters (section 2.3 of RFC 3986). */
  predicate Unreserved(c: char) {
    'a' <= c <= 'z' || 'A' <= c <= 'Z' || '0' <= c <= '9' || c in {'-', '.', '_', '~'}
  }

  /** What section 4.1.3 of RFC 6749 and section 4.6 of RFC 7636 ask of a token request, about a code as it is stored. */
  predicate Proper(srv: Server, p: Params, c: AuthCode, now: int) {
    && !c.used && now <= c.expiresAt
    && p.code != "" && p.clientId != "" && p.redirectUri != ""
    && p.clientId == c.clientId && p.redirectUri == c.redirectUri
    && 43 <= |p.verifier| <= 128 && (forall i :: 0 <= i < |p.verifier| ==> Unreserved(p.verifier[i]))
    && srv.s256(p.verifier) == c.challenge
    && p.resource in {None, Some(srv.resource)}
  }

  lemma VerifiersAreUnreserved(v: string)
    ensures ValidVerifier(v) <==> 43 <= |v| <= 128 && forall i :: 0 <= i < |v| ==> Unreserved(v[i])
  {
    assert forall c :: Unreserved(c) <==> IsBase64Url(c) || c == '.' || c == '~';
  }

  lemma IssuingIffProper(srv: Server, codes: Codes, p: Params, now: int)
    ensures FirstStage(srv, codes, p, now) == Issuing <==> p.code in codes && Proper(srv, p, codes[p.code], now)
  {
    hide ValidVerifier, Unreserved;
    VerifiersAreUnreserved(p.verifier);
  }

  lemma RedeemStage(srv: Server, w: World, t: nat, p: Params, now: int)
    requires t !in w.exchanges
    ensures
      var w' := Step(srv, w, Redeem(t, p, now));
      t in w'.exchanges && w'.exchanges[t] == Exchange(p, now, FirstStage(srv, w.codes, p, now))
  {
    hide FirstStage;
  }

  /**
    An exchange gets to the point of issuing exactly if its code is stored and the
    request is proper; if issuing then succeeds and the code is not replayed before
    that is noted, the tokens are returned, for the account that approved.
  */
  lemma ProperExchangeSucceeds(srv: Server, actions: seq<Action>, t: nat, p: Params, now: int, d: string)
    requires
      var w := Run(srv, START, actions);
      t !in w.exchanges && d !in w.devices && d != ""
    ensures
      var w := Run(srv, START, actions);
      var w1 := Step(srv, w, Redeem(t, p, now));
      && t in w1.exchanges
      && (w1.exchanges[t].stage == Issuing <==> p.code in w.codes && Proper(srv, p, w.codes[p.code], now))
      && (w1.exchanges[t].stage == Issuing ==>
            var w3 := Step(srv, Step(srv, w1, Issue(t, d)), Bind(t));
            && t in w3.exchanges && w3.exchanges[t].stage == Returned(d)
            && d in w3.devices && w3.devices[d] == Device(p.code, t, w.codes[p.code].user, false)
            && p.code in w3.codes && w3.codes[p.code].used && w3.codes[p.code].deviceKey == d)
  {
    hide Step, FirstStage, Proper, Run;
    var w := Run(srv, START, actions);
    RunKeeps(srv, START, actions);
    RedeemStage(srv, w, t, p, now);
    IssuingIffProper(srv, w.codes, p, now);
    if p.code in w.codes && Proper(srv, p, w.codes[p.code], now) {
      StoredUnused(srv, w, p, now);
      IssuingReturns(srv, w, t, p, now, d);
    }
  }

  lemma StoredUnused(srv: Server, w: World, p: Params, now: int)
    requires Inv(srv, w) && p.code in w.codes && Proper(srv, p, w.codes[p.code], now)
    ensures p.code in w.approved && w.approved[p.code].user == w.codes[p.code].user && !w.codes[p.code].reuseSeen
  {
    hide Unreserved;
    assert PhaseFits(w, p.code);
  }

  lemma IssuingReturns(srv: Server, w: World, t: nat, p: Params, now: int, d: string)
    requires t !in w.exchanges && d !in w.devices && d != ""
    requires FirstStage(srv, w.codes, p, now) == Issuing
    requires p.code in w.codes && p.code in w.approved && w.approved[p.code].user == w.codes[p.code].user
    requires !w.codes[p.code].reuseSeen
    ensures
      var w3 := Step(srv, Step(srv, Step(srv, w, Redeem(t, p, now)), Issue(t, d)), Bind(t));
      && t in w3.exchanges && w3.exchanges[t].stage == Returned(d)
      && d in w3.devices && w3.devices[d] == Device(p.code, t, w.codes[p.code].user, false)
      && p.code in w3.codes && w3.codes[p.code].used && w3.codes[p.code].deviceKey == d
  {
    hide Matches;
    var w1 := Step(srv, w, Redeem(t, p, now));
    assert w1.exchanges[t] == Exchange(p, now, Issuing) && w1.codes == Consumed(w.codes, p.code, now);
    var w2 := Step(srv, w1, Issue(t, d));
    assert w2.exchanges[t] == Exchange(p, now, Binding(d)) && w2.codes == w1.codes;
  }

  // ----- how long a code lives -----

  /** The actions neither present the code nor come after the time. */
  ghost predicate LeavesAlone(actions: seq<Action>, code: string, until: int) {
    forall a :: a in actions ==>
      && !(a.Redeem? && a.params.code == code)
      && (a.Approve? || a.Sweep? ==> a.now <= until)
  }

  /** The code is stored as it was granted, and no exchange has to do with it any more. */
  ghost predicate Waiting(w: World, code: string, c: AuthCode) {
    && code in w.codes && w.codes[code] == c && code in w.approved
    && forall t :: CodeOf(w.exchanges, t, code) ==> w.exchanges[t].stage == Refused
  }

  lemma OpenHasNoExchange(srv: Server, w: World, code: string)
    requires Inv(srv, w) && (code !in w.approved || (code in w.phases && w.phases[code] == Open))
    ensures forall t :: CodeOf(w.exchanges, t, code) ==> w.exchanges[t].stage == Refused
  {
    hide Matches, PhaseFits;
  }

  lemma StepWaits(srv: Server, w: World, a: Action, code: string, c: AuthCode)
    requires Waiting(w, code, c)
    requires !(a.Redeem? && a.params.code == code) && (a.Approve? || a.Sweep? ==> a.now <= c.expiresAt)
    ensures Waiting(Step(srv, w, a), code, c)
  {
    hide FirstStage;
  }

  lemma {:induction false} RunWaits(srv: Server, w: World, actions: seq<Action>, code: string, c: AuthCode)
    requires Waiting(w, code, c) && LeavesAlone(actions, code, c.expiresAt)
    ensures Waiting(Run(srv, w, actions), code, c)
    decreases |actions|
  {
    hide Step, Waiting;
    if actions != [] {
      assert actions[0] in actions;
      StepWaits(srv, w, actions[0], code, c);
      assert LeavesAlone(actions[1..], code, c.expiresAt);
      RunWaits(srv, Step(srv, w, actions[0]), actions[1..], code, c);
    }
  }

  /**
    A code lives a minute: approved at `at` and not presented in between, it is good
    for a matching request until `at` plus 60, whatever else happens, and not after.
  */
  lemma CodeLivesAMinute(srv: Server, before: seq<Action>, code: string, grant: AuthCode, at: int, between: seq<Action>, t: nat, p: Params, now: int)
    requires code !in Run(srv, START, before).approved
    requires p.code == code && Complete(p) && Matches(srv, p, grant)
    requires LeavesAlone(between, code, now)
    ensures
      var w := Run(srv, Step(srv, Run(srv, START, before), Approve(code, grant, at)), between);
      t !in w.exchanges ==>
        var w' := Step(srv, w, Redeem(t, p, now));
        t in w'.exchanges && (w'.exchanges[t].stage == Issuing <==> now <= at + 60)
  {
    hide Step, FirstStage, Run, Waiting;
    var w0 := Run(srv, START, before);
    RunKeeps(srv, START, before);
    var c := Unused(grant, at + 60);
    ApprovedWaits(srv, w0, code, grant, at);
    var w1 := Step(srv, w0, Approve(code, grant, at));
    var w := Run(srv, w1, between);
    if t !in w.exchanges {
      RedeemStage(srv, w, t, p, now);
      if now <= at + 60 {
        assert LeavesAlone(between, code, c.expiresAt);
        RunWaits(srv, w1, between, code, c);
        WaitingIsIssued(srv, w, p, c, now);
      } else {
        StepKeeps(srv, w0, Approve(code, grant, at));
        RunKeeps(srv, w1, between);
        ApprovedStays(srv, w1, between, code);
        LateIsRefused(srv, w, p, now);
      }
    }
  }

  lemma ApprovedWaits(srv: Server, w: World, code: string, grant: AuthCode, at: int)
    requires Inv(srv, w) && code !in w.approved
    ensures
      var w' := Step(srv, w, Approve(code, grant, at));
      Waiting(w', code, Unused(grant, at + 60)) && code in w'.approved && w'.approved[code].expiresAt == at + 60
  {
    hide Inv;
    OpenHasNoExchange(srv, w, code);
  }

  lemma WaitingIsIssued(srv: Server, w: World, p: Params, c: AuthCode, now: int)
    requires Waiting(w, p.code, c) && Complete(p) && Matches(srv, p, c) && !c.used && now <= c.expiresAt
    ensures FirstStage(srv, w.codes, p, now) == Issuing
  {
  }

  lemma {:induction false} ApprovedStays(srv: Server, w: World, actions: seq<Action>, code: string)
    requires code in w.approved
    ensures code in Run(srv, w, actions).approved && Run(srv, w, actions).approved[code] == w.approved[code]
    decreases |actions|
  {
    if actions != [] {
      ApprovedStays(srv, Step(srv, w, actions[0]), actions[1..], code);
    }
  }

  lemma LateIsRefused(srv: Server, w: World, p: Params, now: int)
    requires Inv(srv, w) && p.code in w.approved && now > w.approved[p.code].expiresAt
    ensures FirstStage(srv, w.codes, p, now) == Refused
  {
    hide Matches;
    if p.code in w.codes {
      assert PhaseFits(w, p.code);
    }
  }

  ghost predicate Quiet(w: World, code: string) {
    forall t :: CodeOf(w.exchanges, t, code) ==> w.exchanges[t].stage.Returned? || w.exchanges[t].stage.Refused?
  }

  /**
    Once every exchange of a code has ended, its device is revoked if and only if it
    was revoked for another reason, or the code was seen used while stored and was
    still stored when it was told the device.
  */
  lemma DeviceRevokedIffReplayed(srv: Server, actions: seq<Action>, d: string)
    ensures
      var w := Run(srv, START, actions);
      d in w.devices && Quiet(w, w.devices[d].code) ==>
        var code := w.devices[d].code;
        && code in w.phases && (w.phases[code].Told? || w.phases[code].Late?)
        && (w.devices[d].revoked <==> d in w.revokedElsewhere || (code in w.replayed && w.phases[code].Told?))
  {
    RunKeeps(srv, START, actions);
    var w := Run(srv, START, actions);
    if d in w.devices && Quiet(w, w.devices[d].code) {
      DeviceSettled(srv, w, d);
    }
  }

  lemma DeviceSettled(srv: Server, w: World, d: string)
    requires Inv(srv, w) && d in w.devices && Quiet(w, w.devices[d].code)
    ensures
      var code := w.devices[d].code;
      && code in w.phases && (w.phases[code].Told? || w.phases[code].Late?)
      && (w.devices[d].revoked <==> d in w.revokedElsewhere || (code in w.replayed && w.phases[code].Told?))
  {
    hide Matches, SameGrant;
    var code := w.devices[d].code;
    assert DeviceFits(w, d) && PhaseFits(w, code);
    RevokersShareCode(srv, w, d);
  }

  lemma RevokersShareCode(srv: Server, w: World, d: string)
    requires Inv(srv, w) && d in w.devices
    ensures forall t :: At(w.exchanges, t, Revoking(d)) ==> CodeOf(w.exchanges, t, w.devices[d].code)
  {
    hide Inv;
    forall t | At(w.exchanges, t, Revoking(d)) ensures CodeOf(w.exchanges, t, w.devices[d].code) {
      RevokingFits(srv, w, t);
    }
  }

  /** One exchange holds tokens it has not told the code about. */
  function TokensUntold(p: Params, c: AuthCode): World {
    World(map[p.code := c.(used := true)], map[0 := Exchange(p, 0, Binding("d"))], map["d" := Device(p.code, 0, c.user, false)],
          map[p.code := c], map[p.code := Tokens(0, "d")], {}, {})
  }

  lemma UpToTokens(srv: Server, grant: AuthCode, p: Params)
    requires Complete(p) && Matches(srv, p, grant)
    ensures
      var c := Unused(grant, CODE_TTL);
      Step(srv, Step(srv, Step(srv, START, Approve(p.code, grant, 0)), Redeem(0, p, 0)), Issue(0, "d")) == TokensUntold(p, c)
  {
    hide Matches;
    var c := Unused(grant, CODE_TTL);
    GrantStaysMatched(srv, p, grant);
    assert SweptCodes(map[], 0) == map[];
    var w1 := World(map[p.code := c], map[], map[], map[p.code := c], map[p.code := Open], {}, {});
    assert Step(srv, START, Approve(p.code, grant, 0)) == w1;
    assert Step(srv, w1, Redeem(0, p, 0))
        == World(map[p.code := c.(used := true)], map[0 := Exchange(p, 0, Issuing)], map[], map[p.code := c], map[p.code := Held(0)], {}, {});
  }

  lemma FromTokens(srv: Server, c: AuthCode, p: Params)
    requires Complete(p) && c.expiresAt == CODE_TTL && c.deviceKey == "" && !c.used && !c.reuseSeen
    ensures
      var w := Step(srv, Step(srv, Step(srv, TokensUntold(p, c), Redeem(1, p, 0)), Sweep(CODE_TTL + 1)), Bind(0));
      && w.replayed == {p.code}
      && w.exchanges == map[0 := Exchange(p, 0, Returned("d")), 1 := Exchange(p, 0, Refused)]
      && w.devices == map["d" := Device(p.code, 0, c.user, false)]
  {
    hide Matches;
    var w3, seen := TokensUntold(p, c), c.(used := true, reuseSeen := true);
    var w4 := w3.(codes := map[p.code := seen], exchanges := map[0 := Exchange(p, 0, Binding("d")), 1 := Exchange(p, 0, Refused)],
                  replayed := {p.code});
    assert Step(srv, w3, Redeem(1, p, 0)) == w4;
    assert SweptCodes(w4.codes, CODE_TTL + 1) == map[];
  }

  /**
    The exception is real: a code used twice and swept before the winner told it the
    device leaves a device nobody revokes, and its tokens are handed out.
  */
  lemma ReplayBeforeSweepGoesUnanswered(srv: Server, grant: AuthCode, p: Params)
    requires Complete(p) && Matches(srv, p, grant)
    ensures
      var w := Run(srv, START, [Approve(p.code, grant, 0), Redeem(0, p, 0), Issue(0, "d"), Redeem(1, p, 0), Sweep(CODE_TTL + 1), Bind(0)]);
      && p.code in w.replayed && Quiet(w, p.code)
      && At(w.exchanges, 0, Returned("d")) && "d" in w.devices && !w.devices["d"].revoked
  {
    hide Matches, Step;
    UpToTokens(srv, grant, p);
    FromTokens(srv, Unused(grant, CODE_TTL), p);
    SixSteps(srv, START, [Approve(p.code, grant, 0), Redeem(0, p, 0), Issue(0, "d"), Redeem(1, p, 0), Sweep(CODE_TTL + 1), Bind(0)]);
  }

  lemma GrantStaysMatched(srv: Server, p: Params, c: AuthCode)
    ensures Matches(srv, p, Unused(c, CODE_TTL)) <==> Matches(srv, p, c)
  {
  }

  lemma SixSteps(srv: Server, w: World, a: seq<Action>)
    requires |a| == 6
    ensures
      Run(srv, w, a) == Step(srv, Step(srv, Step(srv, Step(srv, Step(srv, Step(srv, w, a[0]), a[1]), a[2]), a[3]), a[4]), a[5])
  {
    hide Step;
    assert a[1..][1..] == a[2..] && a[2..][1..] == a[3..] && a[3..][1..] == a[4..] && a[4..][1..] == a[5..] && a[5..][1..] == [];
    var w2 := Step(srv, Step(srv, w, a[0]), a[1]);
    var w4 := Step(srv, Step(srv, w2, a[2]), a[3]);
    assert Run(srv, w, a) == Run(srv, w2, a[2..]);
    assert Run(srv, w2, a[2..]) == Run(srv, w4, a[4..]);
    assert Run(srv, w4, a[4..]) == Run(srv, Step(srv, Step(srv, w4, a[4]), a[5]), []);
  }
}
