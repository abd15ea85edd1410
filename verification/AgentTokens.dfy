/**
  Agent devices and their refresh tokens (internal/user/agent_repository.go,
  device_repository.go): one token row per device, with the hash of the current
  token and of the one before. Hashes stand for the tokens themselves.
*/
module AgentTokens {
  import opened Common

  datatype Device = Device(user: string, revokedAt: Option<int>)

  datatype TokenRow = TokenRow(hash: string, prev: Option<string>, expiresAt: int)

  type Tokens = map<string, TokenRow>

  datatype Tables = Tables(devices: map<string, Device>, tokens: Tokens)

  const MAX_LIVE_AGENTS := 5

  /** The two unique columns of agent_refresh_tokens. */
  ghost predicate UniqueHashes(tokens: Tokens) {
    && (forall d, e :: d in tokens && e in tokens && tokens[d].hash == tokens[e].hash ==> d == e)
    && (forall d, e :: d in tokens && e in tokens && tokens[d].prev.Some? && tokens[d].prev == tokens[e].prev ==> d == e)
  }

  ghost predicate Holds(tokens: Tokens, hash: string) {
    exists d :: d in tokens && tokens[d].hash == hash
  }

  ghost predicate Held(tokens: Tokens, hash: string) {
    exists d :: d in tokens && tokens[d].prev == Some(hash)
  }

  /** The device whose current token has this hash. */
  ghost function Holder(tokens: Tokens, hash: string): (d: Option<string>)
    ensures d.Some? <==> Holds(tokens, hash)
    ensures d.Some? ==> d.value in tokens && tokens[d.value].hash == hash
  {
    if Holds(tokens, hash) then
      var d :| d in tokens && tokens[d].hash == hash;
      Some(d)
    else None
  }

  /** The device whose token before the current one had this hash. */
  ghost function PrevHolder(tokens: Tokens, hash: string): (d: Option<string>)
    ensures d.Some? <==> Held(tokens, hash)
    ensures d.Some? ==> d.value in tokens && tokens[d.value].prev == Some(hash)
  {
    if Held(tokens, hash) then
      var d :| d in tokens && tokens[d].prev == Some(hash);
      Some(d)
    else None
  }

  predicate Live(t: Tables, d: string, now: int) {
    d in t.tokens && t.tokens[d].expiresAt > now && d in t.devices && t.devices[d].revokedAt.None?
  }

  ghost function Rotated(t: Tables, presented: string, next: string, now: int, expiresAt: int): (Tables, Option<string>) {
    var d := Holder(t.tokens, presented);
    if d.Some? && Live(t, d.value, now) then
      (t.(tokens := t.tokens[d.value := TokenRow(next, Some(presented), expiresAt)]), d)
    else (t, None)
  }

  /**
    A token is redeemed exactly when some device's row holds it, it has not run out,
    and the device is there and not revoked; then that row alone changes.
  */
  lemma RotationSucceedsIff(t: Tables, presented: string, next: string, now: int, expiresAt: int, d: string)
    requires UniqueHashes(t.tokens)
    ensures
      var (t', redeemed) := Rotated(t, presented, next, now, expiresAt);
      && (redeemed == Some(d) <==>
          && d in t.tokens && t.tokens[d].hash == presented && now < t.tokens[d].expiresAt
          && d in t.devices && t.devices[d].revokedAt == None)
      && (redeemed == Some(d) ==>
          && t'.devices == t.devices && t'.tokens.Keys == t.tokens.Keys
          && t'.tokens[d] == TokenRow(next, Some(presented), expiresAt)
          && forall e :: e in t.tokens && e != d ==> t'.tokens[e] == t.tokens[e])
      && (redeemed == None ==> t' == t)
  {
    if d in t.tokens && t.tokens[d].hash == presented {
      assert Holds(t.tokens, presented);
    }
  }

  function Revoked(t: Tables, d: string, now: int): Tables {
    Tables(if d in t.devices then t.devices[d := t.devices[d].(revokedAt := Some(now))] else t.devices, t.tokens - {d})
  }

  predicate Revivable(t: Tables, d: string, user: string, before: int) {
    d in t.devices && t.devices[d].user == user && (t.devices[d].revokedAt.None? || t.devices[d].revokedAt.value < before)
  }

  function Revived(t: Tables, d: string, user: string, before: int): Tables {
    if Revivable(t, d, user, before) then t.(devices := t.devices[d := t.devices[d].(revokedAt := None)]) else t
  }

  /** A revival lifts the revocation of the account's own device, if that came before the time; it touches no token and no other device. */
  lemma RevivalLifts(t: Tables, d: string, user: string, before: int)
    ensures
      var t' := Revived(t, d, user, before);
      && t'.tokens == t.tokens && t'.devices.Keys == t.devices.Keys
      && (forall e :: e in t.devices ==> t'.devices[e].user == t.devices[e].user)
      && forall e :: e in t.devices ==>
           t'.devices[e].revokedAt ==
           if e == d && t.devices[d].user == user && t.devices[d].revokedAt.Some? && t.devices[d].revokedAt.value < before then None
           else t.devices[e].revokedAt
  {
  }

  class AgentStore {
    var devices: map<string, Device>
    var tokens: Tokens

    ghost function View(): Tables
      reads this
    {
      Tables(devices, tokens)
    }

    constructor ()
      ensures View() == Tables(map[], map[])
    {
      devices, tokens := map[], map[];
    }

    method FindHolder(hash: string) returns (holder: Option<string>)
      requires UniqueHashes(tokens)
      ensures holder == Holder(tokens, hash)
    {
      var todo := tokens.Keys;
      while todo != {}
        invariant todo <= tokens.Keys
        invariant forall d :: d in tokens && d !in todo ==> tokens[d].hash != hash
      {
        var d :| d in todo;
        if tokens[d].hash == hash {
          return Some(d);
        }
        todo := todo - {d};
      }
      return None;
    }

    method DeviceForPrevHash(hash: string) returns (holder: Option<string>)
      requires UniqueHashes(tokens)
      ensures holder == PrevHolder(tokens, hash)
    {
      var todo := tokens.Keys;
      while todo != {}
        invariant todo <= tokens.Keys
        invariant forall d :: d in tokens && d !in todo ==> tokens[d].prev != Some(hash)
      {
        var d :| d in todo;
        if tokens[d].prev == Some(hash) {
          return Some(d);
        }
        todo := todo - {d};
      }
      return None;
    }

    method CountLiveAgents(user: string, now: int) returns (n: nat)
      requires tokens.Keys <= devices.Keys
      ensures n == |set d | d in tokens && devices[d].user == user && Live(View(), d, now)|
    {
      n := 0;
      ghost var all, seen: set<string> := (set d | d in tokens && devices[d].user == user && Live(View(), d, now)), {};
      var todo := tokens.Keys;
      while todo != {}
        invariant todo <= tokens.Keys
        invariant seen <= all && n == |seen|
        invariant forall d :: d in all ==> (d in seen <==> d !in todo)
      {
        var d :| d in todo;
        todo := todo - {d};
        if devices[d].user == user && devices[d].revokedAt.None? && tokens[d].expiresAt > now {
          seen, n := seen + {d}, n + 1;
        }
      }
      assert seen == all;
    }

    /** Both inserts or none: either row may break a unique key. */
    method CreateAgent(device: string, user: string, hash: string, expiresAt: int) returns (ok: bool)
      requires UniqueHashes(tokens)
      modifies this
      ensures ok <==> device !in old(devices) && device !in old(tokens) && !Holds(old(tokens), hash)
      ensures View() == if ok then Tables(old(devices)[device := Device(user, None)], old(tokens)[device := TokenRow(hash, None, expiresAt)])
                        else old(View())
    {
      var holder := FindHolder(hash);
      ok := device !in devices && device !in tokens && holder.None?;
      if ok {
        devices := devices[device := Device(user, None)];
        tokens := tokens[device := TokenRow(hash, None, expiresAt)];
      }
    }

    method RotateRefreshToken(presented: string, next: string, now: int, expiresAt: int) returns (device: Option<string>)
      requires UniqueHashes(tokens)
      modifies this`tokens
      ensures (View(), device) == Rotated(old(View()), presented, next, now, expiresAt)
    {
      device := FindHolder(presented);
      if device.Some? && device.value in devices && tokens[device.value].expiresAt > now && devices[device.value].revokedAt.None? {
        tokens := tokens[device.value := TokenRow(next, Some(presented), expiresAt)];
      } else {
        device := None;
      }
    }

    method RevokeDevice(device: string, now: int)
      modifies this
      ensures View() == Revoked(old(View()), device, now)
    {
      if device in devices {
        devices := devices[device := devices[device].(revokedAt := Some(now))];
      }
      tokens := tokens - {device};
    }

    method ReviveDevice(device: string, user: string, before: int) returns (revived: bool)
      modifies this`devices
      ensures View() == Revived(old(View()), device, user, before)
      ensures revived <==> Revivable(old(View()), device, user, before)
    {
      revived := device in devices && devices[device].user == user
        && (devices[device].revokedAt.None? || devices[device].revokedAt.value < before);
      if revived {
        devices := devices[device := devices[device].(revokedAt := None)];
      }
    }

    /** A whole refresh with nobody in between. */
    method Refresh(presented: string, next: string, now: int, expiresAt: int) returns (device: Option<string>)
      requires UniqueHashes(tokens)
      modifies this
      ensures device == Rotated(old(View()), presented, next, now, expiresAt).1
      ensures device.Some? ==> View() == Rotated(old(View()), presented, next, now, expiresAt).0
      ensures device.None? ==>
                var reused := PrevHolder(old(tokens), presented);
                View() == if reused.Some? then Revoked(old(View()), reused.value, now) else old(View())
    {
      device := RotateRefreshToken(presented, next, now, expiresAt);
      if device.None? {
        var reused := DeviceForPrevHash(presented);
        if reused.Some? {
          RevokeDevice(reused.value, now);
        }
      }
    }
  }
}
