/**
  Refresh token rotation (internal/user/agent_service.go) under every interleaving:
  a refresh is a rotation and, when that finds nothing, a lookup of the token among
  the rotated-out ones and a revocation, each a statement of its own.
*/
module RefreshRuns {
  import opened Common
  import opened AgentTokens

  datatype Stage = Looking | Revoking(device: string) | Done(tokenFor: Option<string>)

  datatype Call = Call(presented: string, stage: Stage)

  datatype Redemption = Redemption(presented: string, device: string, at: int)

  /**
    Besides the tables and the calls: the tokens of each device in the order they were
    handed out, the expiry each was handed out with, the devices revoked at some time,
    and every successful refresh.
  */
  datatype World = World(
    tables: Tables,
    calls: map<nat, Call>,
    chain: map<string, seq<string>>,
    expiry: map<string, int>,
    ended: set<string>,
    redeemed: seq<Redemption>)

  const START := World(Tables(map[], map[]), map[], map[], map[], {}, [])

  datatype Action =
    | Issue(device: string, user: string, token: string, expiresAt: int)
    | Present(c: nat, token: string, next: string, now: int, expiresAt: int)
    | Look(c: nat)
    | Revoke(c: nat, now: int)
    | RevokeDevice(device: string, now: int)
    | Revive(device: string, user: string, before: int)

  ghost predicate HandedOut(chain: map<string, seq<string>>, token: string) {
    exists d :: d in chain && token in chain[d]
  }

  function Ended(w: World, d: string, now: int): World {
    w.(tables := Revoked(w.tables, d, now), ended := if d in w.tables.devices then w.ended + {d} else w.ended)
  }

  ghost function Step(w: World, a: Action): World {
    match a
    case Issue(d, user, token, expiresAt) =>
      // device keys and tokens are random, taken to be never drawn twice
      if d in w.tables.devices || HandedOut(w.chain, token) then w
      else
        w.(tables := Tables(w.tables.devices[d := Device(user, None)], w.tables.tokens[d := TokenRow(token, None, expiresAt)]),
           chain := w.chain[d := [token]], expiry := w.expiry[token := expiresAt])
    case Present(c, token, next, now, expiresAt) =>
      if c in w.calls || HandedOut(w.chain, next) then w
      else
        var (tables, d) := Rotated(w.tables, token, next, now, expiresAt);
        if d.None? then w.(calls := w.calls[c := Call(token, Looking)])
        else if d.value !in w.chain then w
        else
          World(tables, w.calls[c := Call(token, Done(Some(next)))], w.chain[d.value := w.chain[d.value] + [next]],
                w.expiry[next := expiresAt], w.ended, w.redeemed + [Redemption(token, d.value, now)])
    case Look(c) =>
      if c !in w.calls || !w.calls[c].stage.Looking? then w
      else
        var d := PrevHolder(w.tables.tokens, w.calls[c].presented);
        w.(calls := w.calls[c := w.calls[c].(stage := if d.Some? then Revoking(d.value) else Done(None))])
    case Revoke(c, now) =>
      if c !in w.calls || !w.calls[c].stage.Revoking? then w
      else
        Ended(w, w.calls[c].stage.device, now).(calls := w.calls[c := w.calls[c].(stage := Done(None))])
    case RevokeDevice(d, now) => Ended(w, d, now)
    case Revive(d, user, before) => w.(tables := Revived(w.tables, d, user, before))
  }

  ghost function Run(w: World, actions: seq<Action>): World
    decreases |actions|
  {
    if actions == [] then w else Run(Step(w, actions[0]), actions[1..])
  }

  // ----- the invariant -----

  /** The row of a device holds the last token of its chain and the one before. */
  predicate RowFits(row: TokenRow, chain: seq<string>) {
    && chain != [] && row.hash == chain[|chain| - 1]
    && row.prev == if |chain| == 1 then None else Some(chain[|chain| - 2])
  }

  ghost predicate AllDistinct(chain: map<string, seq<string>>) {
    forall d, e, i, j :: d in chain && e in chain && 0 <= i < |chain[d]| && 0 <= j < |chain[e]| && chain[d][i] == chain[e][j] ==>
                           d == e && i == j
  }

  /** A redeemed token is one of its device's, and not the last. */
  ghost predicate Superseded(chain: map<string, seq<string>>, r: Redemption) {
    r.device in chain && exists i :: 0 <= i < |chain[r.device]| - 1 && chain[r.device][i] == r.presented
  }

  ghost predicate RowsFit(t: Tables, chain: map<string, seq<string>>) {
    && chain.Keys == t.devices.Keys
    && (forall d :: d in t.tokens ==> d in chain && RowFits(t.tokens[d], chain[d]) && t.devices[d].revokedAt.None?)
  }

  ghost predicate RedeemedOnce(chain: map<string, seq<string>>, redeemed: seq<Redemption>) {
    && (forall i :: 0 <= i < |redeemed| ==> Superseded(chain, redeemed[i]))
    && (forall i, j :: 0 <= i < j < |redeemed| ==> redeemed[i].presented != redeemed[j].presented)
  }

  ghost predicate Sound(w: World) {
    RowsFit(w.tables, w.chain) && AllDistinct(w.chain) && RedeemedOnce(w.chain, w.redeemed)
  }

  lemma ExtendKeepsDistinct(chain: map<string, seq<string>>, d: string, token: string)
    requires AllDistinct(chain) && !HandedOut(chain, token)
    ensures
      var before := if d in chain then chain[d] else [];
      AllDistinct(chain[d := before + [token]])
  {
    forall e | e in chain ensures token !in chain[e] {
    }
  }

  lemma ExtendKeepsSuperseded(chain: map<string, seq<string>>, d: string, token: string, r: Redemption)
    requires Superseded(chain, r)
    ensures
      var before := if d in chain then chain[d] else [];
      Superseded(chain[d := before + [token]], r)
  {
    var before := if d in chain then chain[d] else [];
    var i :| 0 <= i < |chain[r.device]| - 1 && chain[r.device][i] == r.presented;
    var after := chain[d := before + [token]];
    assert after[r.device][i] == r.presented;
  }

  /** Redeeming the newest token of a device, which is then no longer the newest. */
  lemma RedeemKeepsOnce(chain: map<string, seq<string>>, redeemed: seq<Redemption>, d: string, token: string, next: string, now: int)
    requires AllDistinct(chain) && RedeemedOnce(chain, redeemed)
    requires d in chain && chain[d] != [] && chain[d][|chain[d]| - 1] == token
    ensures RedeemedOnce(chain[d := chain[d] + [next]], redeemed + [Redemption(token, d, now)])
  {
    var after := chain[d := chain[d] + [next]];
    forall i | 0 <= i < |redeemed| ensures redeemed[i].presented != token && Superseded(after, redeemed[i]) {
      assert Superseded(chain, redeemed[i]);
      ExtendKeepsSuperseded(chain, d, next, redeemed[i]);
    }
    assert after[d][|chain[d]| - 1] == token;
    assert Superseded(after, Redemption(token, d, now));
  }

  lemma PresentSound(w: World, a: Action)
    requires Sound(w) && a.Present?
    ensures Sound(Step(w, a))
  {
    hide RedeemedOnce, AllDistinct;
    var d := Rotated(w.tables, a.token, a.next, a.now, a.expiresAt).1;
    if a.c !in w.calls && !HandedOut(w.chain, a.next) && d.Some? {
      assert RowFits(w.tables.tokens[d.value], w.chain[d.value]);
      ExtendKeepsDistinct(w.chain, d.value, a.next);
      RedeemKeepsOnce(w.chain, w.redeemed, d.value, a.token, a.next, a.now);
    }
  }

  lemma StepSound(w: World, a: Action)
    requires Sound(w)
    ensures Sound(Step(w, a))
  {
    match a
    case Present(_, _, _, _, _) => PresentSound(w, a);
    case Issue(d, _, token, _) =>
      if d !in w.tables.devices && !HandedOut(w.chain, token) {
        ExtendKeepsDistinct(w.chain, d, token);
        forall r | Superseded(w.chain, r) ensures Superseded(Step(w, a).chain, r) {
          ExtendKeepsSuperseded(w.chain, d, token, r);
        }
      }
    case Look(_) =>
    case Revoke(_, _) =>
    case RevokeDevice(_, _) =>
    case Revive(_, _, _) =>
  }

  lemma {:induction false} RunSound(w: World, actions: seq<Action>)
    requires Sound(w)
    ensures Sound(Run(w, actions))
    decreases |actions|
  {
    if actions != [] {
      StepSound(w, actions[0]);
      RunSound(Step(w, actions[0]), actions[1..]);
    }
  }

  /** In every reachable state the unique columns hold, so the tables are ones the repository methods accept. */
  lemma HashesStayUnique(w: World)
    requires Sound(w)
    ensures UniqueHashes(w.tables.tokens)
  {
    var tokens := w.tables.tokens;
    forall d, e | d in tokens && e in tokens && (tokens[d].hash == tokens[e].hash || (tokens[d].prev.Some? && tokens[d].prev == tokens[e].prev))
      ensures d == e
    {
      var c, k := w.chain[d], w.chain[e];
      assert RowFits(tokens[d], c) && RowFits(tokens[e], k);
    }
  }

  /**
    Over every run each refresh token is redeemed at most once, and only the newest
    token of a device can be redeemed (section 4.14.2 of RFC 9700).
  */
  lemma TokenRedeemedOnce(actions: seq<Action>)
    ensures
      var w := Run(START, actions);
      && (forall i, j :: 0 <= i < j < |w.redeemed| ==> w.redeemed[i].presented != w.redeemed[j].presented)
      && forall token, next, now, expiresAt :: OnlyNewestRedeemable(w, token, next, now, expiresAt)
  {
    RunSound(START, actions);
    var w := Run(START, actions);
    forall token, next, now, expiresAt ensures OnlyNewestRedeemable(w, token, next, now, expiresAt) {
      var d := Rotated(w.tables, token, next, now, expiresAt).1;
      assert d.Some? ==> RowFits(w.tables.tokens[d.value], w.chain[d.value]);
    }
  }

  ghost predicate OnlyNewestRedeemable(w: World, token: string, next: string, now: int, expiresAt: int) {
    var d := Rotated(w.tables, token, next, now, expiresAt).1;
    d.Some? ==> d.value in w.chain && w.chain[d.value] != [] && token == w.chain[d.value][|w.chain[d.value]| - 1]
  }

  // ----- time and revocation -----

  /** A device has a token row until it is first revoked; the row's expiry is the one its token was handed out with. */
  ghost predicate Timed(w: World) {
    && w.ended <= w.tables.devices.Keys
    && (forall d :: d in w.tables.tokens <==> d in w.chain && d !in w.ended)
    && (forall d :: d in w.tables.tokens ==>
          w.tables.tokens[d].hash in w.expiry && w.expiry[w.tables.tokens[d].hash] == w.tables.tokens[d].expiresAt)
    && (forall token :: token in w.expiry ==> HandedOut(w.chain, token))
    && (forall r :: r in w.redeemed ==> r.presented in w.expiry && r.at < w.expiry[r.presented])
  }

  lemma HandOutKeeps(chain: map<string, seq<string>>, d: string, next: string, token: string)
    requires HandedOut(chain, token) || token == next
    ensures HandedOut(chain[d := (if d in chain then chain[d] else []) + [next]], token)
  {
    var chain' := chain[d := (if d in chain then chain[d] else []) + [next]];
    if token == next {
      assert token in chain'[d];
    } else {
      var e :| e in chain && token in chain[e];
      assert token in chain'[e];
    }
  }

  lemma PresentTimed(w: World, a: Action)
    requires Sound(w) && Timed(w) && a.Present?
    ensures Timed(Step(w, a))
  {
    hide AllDistinct, RedeemedOnce, HandedOut;
    var d := Rotated(w.tables, a.token, a.next, a.now, a.expiresAt).1;
    if a.c !in w.calls && !HandedOut(w.chain, a.next) && d.Some? {
      assert d.value in w.tables.tokens && d.value in w.chain;
      forall token | token in w.expiry || token == a.next ensures HandedOut(Step(w, a).chain, token) {
        HandOutKeeps(w.chain, d.value, a.next, token);
      }
    }
  }

  lemma StepTimed(w: World, a: Action)
    requires Sound(w) && Timed(w)
    ensures Timed(Step(w, a))
  {
    match a
    case Present(_, _, _, _, _) => PresentTimed(w, a);
    case Issue(d, _, token, _) =>
      if d !in w.tables.devices && !HandedOut(w.chain, token) {
        assert [] + [token] == [token];
        forall t | t in w.expiry || t == token ensures HandedOut(Step(w, a).chain, t) {
          HandOutKeeps(w.chain, d, token, t);
        }
      }
    case Look(_) =>
    case Revoke(_, _) =>
    case RevokeDevice(_, _) =>
    case Revive(_, _, _) =>
  }

  lemma {:induction false} RunTimed(w: World, actions: seq<Action>)
    requires Sound(w) && Timed(w)
    ensures Sound(Run(w, actions)) && Timed(Run(w, actions))
    decreases |actions|
  {
    hide Step, Sound, Timed;
    if actions != [] {
      StepSound(w, actions[0]);
      StepTimed(w, actions[0]);
      RunTimed(Step(w, actions[0]), actions[1..]);
    }
  }

  /** No token is ever redeemed at or after the expiry it was handed out with. */
  lemma RedeemedInTime(actions: seq<Action>)
    ensures
      var w := Run(START, actions);
      forall r :: r in w.redeemed ==> r.presented in w.expiry && r.at < w.expiry[r.presented]
  {
    RunTimed(START, actions);
  }

  /**
    In every reachable state, presenting a token refreshes a device exactly when it is
    the last the device was handed out, has not run out, and the device was never
    revoked, not even if it was revived since; then the device is not revoked now.
  */
  lemma TokenRedeemsIff(actions: seq<Action>, c: nat, token: string, next: string, now: int, expiresAt: int, d: string)
    requires c !in Run(START, actions).calls && !HandedOut(Run(START, actions).chain, next)
    ensures
      var w := Run(START, actions);
      var w' := Step(w, Present(c, token, next, now, expiresAt));
      && (w'.redeemed == w.redeemed + [Redemption(token, d, now)] <==>
          && d in w.chain && w.chain[d] != [] && w.chain[d][|w.chain[d]| - 1] == token
          && token in w.expiry && now < w.expiry[token] && d !in w.ended)
      && (w'.redeemed == w.redeemed + [Redemption(token, d, now)] ==>
          && w'.chain == w.chain[d := w.chain[d] + [next]] && w'.expiry == w.expiry[next := expiresAt]
          && d in w.tables.devices && w.tables.devices[d].revokedAt == None)
      && (w'.redeemed == w.redeemed || exists e :: w'.redeemed == w.redeemed + [Redemption(token, e, now)])
  {
    var w := Run(START, actions);
    RunTimed(START, actions);
    HashesStayUnique(w);
    RotationSucceedsIff(w.tables, token, next, now, expiresAt, d);
    PresentRedeems(w, c, token, next, now, expiresAt);
    if d in w.tables.tokens {
      assert RowFits(w.tables.tokens[d], w.chain[d]);
    }
    forall e | w.redeemed + [Redemption(token, e, now)] == w.redeemed + [Redemption(token, d, now)] ensures e == d {
      assert (w.redeemed + [Redemption(token, e, now)])[|w.redeemed|] == Redemption(token, d, now);
    }
  }

  lemma PresentRedeems(w: World, c: nat, token: string, next: string, now: int, expiresAt: int)
    requires Sound(w) && c !in w.calls && !HandedOut(w.chain, next)
    ensures
      var w' := Step(w, Present(c, token, next, now, expiresAt));
      var d := Rotated(w.tables, token, next, now, expiresAt).1;
      if d.None? then w'.redeemed == w.redeemed
      else
        && d.value in w.chain && w'.redeemed == w.redeemed + [Redemption(token, d.value, now)]
        && w'.chain == w.chain[d.value := w.chain[d.value] + [next]] && w'.expiry == w.expiry[next := expiresAt]
  {
    hide AllDistinct, RedeemedOnce;
  }

  /** Every revocation in the actions comes at or after `m`, and no revival of the device by its account reaches beyond `m`. */
  ghost predicate RevivalsTooEarly(actions: seq<Action>, d: string, user: string, m: int) {
    forall a :: a in actions ==>
      && (a.Revoke? || a.RevokeDevice? ==> a.now >= m)
      && (a.Revive? && a.device == d && a.user == user ==> a.before <= m)
  }

  ghost predicate RevokedSince(w: World, d: string, user: string, m: int) {
    d in w.tables.devices && w.tables.devices[d].user == user && w.tables.devices[d].revokedAt.Some?
    && w.tables.devices[d].revokedAt.value >= m
  }

  lemma StepKeepsRevoked(w: World, a: Action, d: string, user: string, m: int)
    requires RevokedSince(w, d, user, m)
    requires (a.Revoke? || a.RevokeDevice? ==> a.now >= m) && (a.Revive? && a.device == d && a.user == user ==> a.before <= m)
    ensures RevokedSince(Step(w, a), d, user, m)
  {
    hide HandedOut;
    if a.Revive? {
      RevivalLifts(w.tables, a.device, a.user, a.before);
    }
  }

  /** A device revoked at a time stays revoked unless its own account revives it from a later time. */
  lemma {:induction false} RevokedStaysRevoked(w: World, actions: seq<Action>, d: string, user: string, m: int)
    requires RevokedSince(w, d, user, m) && RevivalsTooEarly(actions, d, user, m)
    ensures RevokedSince(Run(w, actions), d, user, m)
    decreases |actions|
  {
    hide Step, RevokedSince;
    if actions != [] {
      assert actions[0] in actions;
      StepKeepsRevoked(w, actions[0], d, user, m);
      assert RevivalsTooEarly(actions[1..], d, user, m);
      RevokedStaysRevoked(Step(w, actions[0]), actions[1..], d, user, m);
    }
  }

  // ----- reuse -----

  /** A device that exists without a token row never refreshes again, revived or not. */
  ghost predicate Dead(w: World, d: string) {
    d in w.tables.devices && d !in w.tables.tokens
  }

  lemma {:induction false} DeadStaysDead(w: World, actions: seq<Action>, d: string)
    requires Dead(w, d)
    ensures
      var w' := Run(w, actions);
      && Dead(w', d)
      && w.redeemed <= w'.redeemed
      && forall i :: |w.redeemed| <= i < |w'.redeemed| ==> w'.redeemed[i].device != d
    decreases |actions|
  {
    if actions != [] {
      DeadStaysDead(Step(w, actions[0]), actions[1..], d);
    }
  }

  /** From `w` to `w'` no refresh of the device succeeded. */
  ghost predicate NoRefresh(w: World, w': World, d: string) {
    forall i :: |w.redeemed| <= i < |w'.redeemed| ==> w'.redeemed[i].device != d
  }

  /** Tokens are only ever added to a chain, each by a refresh that succeeded. */
  ghost predicate Grown(w: World, w': World, d: string) {
    && d in w.chain && d in w'.chain && w.chain[d] <= w'.chain[d] && w.redeemed <= w'.redeemed
    && (w'.chain[d] == w.chain[d] <==> NoRefresh(w, w', d))
  }

  lemma StepGrows(w: World, w': World, a: Action, d: string)
    requires Sound(w') && Grown(w, w', d)
    ensures Grown(w, Step(w', a), d)
  {
    hide AllDistinct, RedeemedOnce;
    var w2 := Step(w', a);
    if a.Present? && w2.redeemed != w'.redeemed {
      var r := w2.redeemed[|w'.redeemed|];
      assert w2.redeemed == w'.redeemed + [r];
      assert r.device == d ==> |w2.chain[d]| == |w'.chain[d]| + 1;
      assert r.device != d ==> w2.chain[d] == w'.chain[d];
      assert forall i :: 0 <= i < |w'.redeemed| ==> w2.redeemed[i] == w'.redeemed[i];
      if r.device == d {
        assert w2.redeemed[|w'.redeemed|].device == d;
      }
    }
  }

  ghost predicate Waits(actions: seq<Action>, c: nat) {
    Look(c) !in actions
  }

  lemma StepWaits(w: World, a: Action, c: nat, token: string)
    requires c in w.calls && w.calls[c] == Call(token, Looking) && a != Look(c)
    ensures c in Step(w, a).calls && Step(w, a).calls[c] == Call(token, Looking)
  {
  }

  lemma {:induction false} RunGrows(w: World, w': World, actions: seq<Action>, d: string, c: nat, token: string)
    requires Sound(w') && Grown(w, w', d)
    requires c in w'.calls && w'.calls[c] == Call(token, Looking) && Waits(actions, c)
    ensures
      var w2 := Run(w', actions);
      Sound(w2) && Grown(w, w2, d) && c in w2.calls && w2.calls[c] == Call(token, Looking)
    decreases |actions|
  {
    hide Step, Sound, Grown;
    if actions != [] {
      assert actions[0] in actions;
      StepSound(w', actions[0]);
      StepGrows(w, w', actions[0], d);
      StepWaits(w', actions[0], c, token);
      assert Waits(actions[1..], c);
      RunGrows(w, Step(w', actions[0]), actions[1..], d, c, token);
    }
  }

  /** The last rotated-out token of a device. */
  predicate LastRotatedOut(w: World, d: string, token: string) {
    d in w.chain && |w.chain[d]| > 1 && w.chain[d][|w.chain[d]| - 2] == token
  }

  /** It redeems nothing: the presenting call goes on to look. */
  lemma RotatedOutIsRefused(w: World, c: nat, d: string, token: string, next: string, now: int, expiresAt: int)
    requires Sound(w) && LastRotatedOut(w, d, token) && c !in w.calls && !HandedOut(w.chain, next)
    ensures Step(w, Present(c, token, next, now, expiresAt)) == w.(calls := w.calls[c := Call(token, Looking)])
  {
    forall e | e in w.tables.tokens ensures w.tables.tokens[e].hash != token {
      assert RowFits(w.tables.tokens[e], w.chain[e]);
    }
    assert !Holds(w.tables.tokens, token);
  }

  /** What the lookup decides about a token that was once the last but one of its device. */
  lemma LookupDecides(w: World, c: nat, d: string, token: string, before: seq<string>)
    requires Sound(w) && c in w.calls && w.calls[c] == Call(token, Looking)
    requires d in w.chain && before <= w.chain[d] && |before| > 1 && before[|before| - 2] == token
    ensures Step(w, Look(c)).calls[c].stage == if d in w.tables.tokens && w.chain[d] == before then Revoking(d) else Done(None)
  {
    var found := PrevHolder(w.tables.tokens, token);
    if found.Some? {
      var e := found.value;
      assert RowFits(w.tables.tokens[e], w.chain[e]);
      assert w.chain[e][|w.chain[e]| - 2] == token == w.chain[d][|before| - 2];
    } else if d in w.tables.tokens {
      assert RowFits(w.tables.tokens[d], w.chain[d]);
      assert w.tables.tokens[d].prev != Some(token);
    }
  }

  /**
    Presenting the last rotated-out token of a device that has a token row: whatever
    happens before the lookup, that dooms the device if and only if in the meantime no
    refresh of it succeeded and it was not revoked; otherwise nothing comes of it.
  */
  lemma ReuseIsAnsweredIff(w: World, c: nat, d: string, token: string, next: string, now: int, expiresAt: int, between: seq<Action>)
    requires Sound(w) && d in w.tables.tokens && LastRotatedOut(w, d, token)
    requires c !in w.calls && !HandedOut(w.chain, next) && Waits(between, c)
    ensures
      var w2 := Run(Step(w, Present(c, token, next, now, expiresAt)), between);
      && c in w2.calls && w2.calls[c] == Call(token, Looking)
      && Step(w2, Look(c)).calls[c].stage == if d in w2.tables.tokens && NoRefresh(w, w2, d) then Revoking(d) else Done(None)
  {
    hide NoRefresh, AllDistinct, RedeemedOnce;
    RotatedOutIsRefused(w, c, d, token, next, now, expiresAt);
    var w1 := Step(w, Present(c, token, next, now, expiresAt));
    StepSound(w, Present(c, token, next, now, expiresAt));
    NothingHappened(w, w1, d);
    RunGrows(w, w1, between, d, c, token);
    LookupDecides(Run(w1, between), c, d, token, w.chain[d]);
  }

  lemma NothingHappened(w: World, w': World, d: string)
    requires d in w.chain && w'.chain == w.chain && w'.redeemed == w.redeemed
    ensures Grown(w, w', d)
  {
  }

  ghost predicate Stays(actions: seq<Action>, c: nat) {
    forall now :: Revoke(c, now) !in actions
  }

  lemma {:induction false} RevokingStays(w: World, actions: seq<Action>, c: nat, d: string)
    requires c in w.calls && w.calls[c].stage == Revoking(d) && d in w.tables.devices && Stays(actions, c)
    ensures
      var w' := Run(w, actions);
      c in w'.calls && w'.calls[c].stage == Revoking(d) && d in w'.tables.devices
    decreases |actions|
  {
    if actions != [] {
      var a := actions[0];
      assert a in actions && (a.Revoke? ==> a == Revoke(a.c, a.now));
      assert Stays(actions[1..], c);
      RevokingStays(Step(w, a), actions[1..], c, d);
    }
  }

  /** Acting on a reuse that was found revokes the device, and no later refresh of it succeeds, revived or not. */
  lemma ReuseKillsDevice(before: seq<Action>, c: nat, now: int, after: seq<Action>)
    ensures
      var w := Run(START, before);
      c in w.calls && w.calls[c].stage.Revoking? ==>
        var d := w.calls[c].stage.device;
        var w1 := Step(w, Revoke(c, now));
        var w2 := Run(w1, after);
        && d in w1.tables.devices && w1.tables.devices[d].revokedAt == Some(now)
        && d !in w2.tables.tokens
        && w1.redeemed <= w2.redeemed && NoRefresh(w1, w2, d)
  {
    var w := Run(START, before);
    RunSound(START, before);
    RevokersKnown(START, before);
    if c in w.calls && w.calls[c].stage.Revoking? {
      DeadStaysDead(Step(w, Revoke(c, now)), after, w.calls[c].stage.device);
    }
  }

  /**
    From the presentation to the end (section 4.14.2 of RFC 9700): if the last
    rotated-out token is presented while the device has a token row, and the lookup
    comes before another refresh or a revocation, then, whatever else happens before
    the call acts on it and after, the device is revoked and never refreshes again.
  */
  lemma PresentedReuseEndsDevice(before: seq<Action>, c: nat, d: string, token: string, next: string, now: int, expiresAt: int,
      between: seq<Action>, meanwhile: seq<Action>, at: int, after: seq<Action>)
    requires
      var w := Run(START, before);
      && d in w.tables.tokens && LastRotatedOut(w, d, token)
      && c !in w.calls && !HandedOut(w.chain, next) && Waits(between, c)
      && var w2 := Run(Step(w, Present(c, token, next, now, expiresAt)), between);
         d in w2.tables.tokens && NoRefresh(w, w2, d)
    requires Stays(meanwhile, c)
    ensures
      var w2 := Run(Step(Run(START, before), Present(c, token, next, now, expiresAt)), between);
      var w4 := Step(Run(Step(w2, Look(c)), meanwhile), Revoke(c, at));
      var w5 := Run(w4, after);
      && d in w4.tables.devices && w4.tables.devices[d].revokedAt == Some(at)
      && d !in w5.tables.tokens
      && w4.redeemed <= w5.redeemed && NoRefresh(w4, w5, d)
  {
    hide LastRotatedOut, HandedOut, NoRefresh, Waits, Stays, Step, Sound;
    var w := Run(START, before);
    RunSound(START, before);
    ReuseIsAnsweredIff(w, c, d, token, next, now, expiresAt, between);
    var w1 := Step(w, Present(c, token, next, now, expiresAt));
    var w2 := Run(w1, between);
    StepSound(w, Present(c, token, next, now, expiresAt));
    RunSound(w1, between);
    var w3 := Step(w2, Look(c));
    LookKeepsDevice(w2, c, d);
    RevokingStays(w3, meanwhile, c, d);
    RevokeKills(Run(w3, meanwhile), c, d, at);
    DeadRefreshesNever(Step(Run(w3, meanwhile), Revoke(c, at)), after, d);
  }

  lemma LookKeepsDevice(w: World, c: nat, d: string)
    requires Sound(w) && d in w.tables.tokens && c in w.calls
    ensures d in Step(w, Look(c)).tables.devices && c in Step(w, Look(c)).calls
  {
  }

  lemma RevokeKills(w: World, c: nat, d: string, now: int)
    requires c in w.calls && w.calls[c].stage == Revoking(d) && d in w.tables.devices
    ensures Dead(Step(w, Revoke(c, now)), d) && Step(w, Revoke(c, now)).tables.devices[d].revokedAt == Some(now)
  {
  }

  lemma DeadRefreshesNever(w: World, after: seq<Action>, d: string)
    requires Dead(w, d)
    ensures Dead(Run(w, after), d) && w.redeemed <= Run(w, after).redeemed && NoRefresh(w, Run(w, after), d)
  {
    DeadStaysDead(w, after, d);
  }

  ghost predicate TargetsExist(w: World) {
    forall c :: c in w.calls && w.calls[c].stage.Revoking? ==> w.calls[c].stage.device in w.tables.devices
  }

  lemma {:induction false} RevokersKnown(w: World, actions: seq<Action>)
    requires Sound(w) && TargetsExist(w)
    ensures TargetsExist(Run(w, actions))
    decreases |actions|
  {
    if actions != [] {
      StepSound(w, actions[0]);
      assert TargetsExist(Step(w, actions[0]));
      RevokersKnown(Step(w, actions[0]), actions[1..]);
    }
  }

  /**
    Between the rotation attempt and the lookup the device may refresh once more.
    Then the presented token is two behind, the lookup finds nothing, and the device
    lives on.
  */
  lemma ReuseCanBeMissed()
    ensures
      var w := Run(START, [Issue("d", "u", "t1", 9), Present(0, "t1", "t2", 0, 9), Present(1, "t1", "x", 0, 9),
                           Present(2, "t2", "t3", 0, 9), Look(1)]);
      && 1 in w.calls && w.calls[1] == Call("t1", Done(None))
      && Live(w.tables, "d", 0)
  {
    hide Step;
    var a := [Issue("d", "u", "t1", 9), Present(0, "t1", "t2", 0, 9), Present(1, "t1", "x", 0, 9), Present(2, "t2", "t3", 0, 9), Look(1)];
    FirstRefresh();
    ThenMissed();
    FiveSteps(START, a);
  }

  /** Device d has refreshed once: t1 was redeemed for t2. */
  function RefreshedOnce(): World {
    World(Tables(map["d" := Device("u", None)], map["d" := TokenRow("t2", Some("t1"), 9)]),
          map[0 := Call("t1", Done(Some("t2")))], map["d" := ["t1", "t2"]], map["t1" := 9, "t2" := 9], {}, [Redemption("t1", "d", 0)])
  }

  lemma FirstRefresh()
    ensures Step(Step(START, Issue("d", "u", "t1", 9)), Present(0, "t1", "t2", 0, 9)) == RefreshedOnce()
  {
    var w := Step(START, Issue("d", "u", "t1", 9));
    assert w == World(Tables(map["d" := Device("u", None)], map["d" := TokenRow("t1", None, 9)]), map[], map["d" := ["t1"]], map["t1" := 9], {}, []);
    PresentRotates(w, 0, "t1", "t2", "d");
    assert ["t1"] + ["t2"] == ["t1", "t2"];
    assert [] + [Redemption("t1", "d", 0)] == [Redemption("t1", "d", 0)];
  }

  lemma OldTokenWaits()
    ensures
      var w := RefreshedOnce();
      Step(w, Present(1, "t1", "x", 0, 9)) == w.(calls := w.calls[1 := Call("t1", Looking)])
  {
    assert !Holds(RefreshedOnce().tables.tokens, "t1");
  }

  /** Before the lookup of the reused t1 the device went on to t3. */
  lemma RefreshedTwice() returns (w: World)
    ensures w == Step(Step(RefreshedOnce(), Present(1, "t1", "x", 0, 9)), Present(2, "t2", "t3", 0, 9))
    ensures 1 in w.calls && w.calls[1] == Call("t1", Looking)
    ensures w.tables == Tables(map["d" := Device("u", None)], map["d" := TokenRow("t3", Some("t2"), 9)])
  {
    var w2 := RefreshedOnce();
    var w3 := w2.(calls := w2.calls[1 := Call("t1", Looking)]);
    OldTokenWaits();
    PresentRotates(w3, 2, "t2", "t3", "d");
    w := Step(w3, Present(2, "t2", "t3", 0, 9));
  }

  lemma ThenMissed()
    ensures
      var w := Step(Step(Step(RefreshedOnce(), Present(1, "t1", "x", 0, 9)), Present(2, "t2", "t3", 0, 9)), Look(1));
      1 in w.calls && w.calls[1] == Call("t1", Done(None)) && Live(w.tables, "d", 0)
  {
    hide RefreshedOnce;
    var w4 := RefreshedTwice();
    assert !Held(w4.tables.tokens, "t1");
  }

  lemma PresentRotates(w: World, c: nat, token: string, next: string, d: string)
    requires c !in w.calls && !HandedOut(w.chain, next) && d in w.chain
    requires UniqueHashes(w.tables.tokens) && Live(w.tables, d, 0) && w.tables.tokens[d].hash == token
    ensures Step(w, Present(c, token, next, 0, 9)) ==
            World(w.tables.(tokens := w.tables.tokens[d := TokenRow(next, Some(token), 9)]), w.calls[c := Call(token, Done(Some(next)))],
                  w.chain[d := w.chain[d] + [next]], w.expiry[next := 9], w.ended, w.redeemed + [Redemption(token, d, 0)])
  {
    assert Holds(w.tables.tokens, token);
  }

  lemma FiveSteps(w: World, a: seq<Action>)
    requires |a| == 5
    ensures Run(w, a) == Step(Step(Step(Step(Step(w, a[0]), a[1]), a[2]), a[3]), a[4])
  {
    hide Step;
    assert a[1..][1..] == a[2..] && a[2..][1..] == a[3..] && a[3..][1..] == a[4..] && a[4..][1..] == [];
    var w2 := Step(Step(w, a[0]), a[1]);
    assert Run(w, a) == Run(w2, a[2..]);
    assert Run(w2, a[2..]) == Run(Step(Step(w2, a[2]), a[3]), a[4..]);
    assert Run(Step(Step(w2, a[2]), a[3]), a[4..]) == Run(Step(Step(Step(w2, a[2]), a[3]), a[4]), []);
  }
}
