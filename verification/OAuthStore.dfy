/**
  The in-memory store of the OAuth server (internal/oauth/oauth.go): requests
  waiting for consent and one-time authorization codes, changed in place under one
  lock. Codes are looked up by their SHA-256 hash; the model uses the code itself.
*/
module OAuthStore {
  import opened Common

  const PENDING_TTL := 600
  const CODE_TTL := 60
  const MAX_PENDING := 1000
  const MAX_PENDING_PER_CLIENT_IP := 20

  /** A request is bound to the first account that opens it; `user` is "" before. */
  datatype Request = Request(
    clientId: string,
    sourceIp: string,
    clientName: string,
    redirectUri: string,
    challenge: string,
    state: string,
    user: string,
    expiresAt: int)

  datatype AuthCode = AuthCode(
    clientId: string,
    clientName: string,
    redirectUri: string,
    challenge: string,
    user: string,
    deviceKey: string,
    used: bool,
    reuseSeen: bool,
    expiresAt: int)

  /** A code as it is handed out: no device, not used. */
  function Unused(c: AuthCode, expiresAt: int): AuthCode {
    c.(deviceKey := "", used := false, reuseSeen := false, expiresAt := expiresAt)
  }

  type Pending = map<string, Request>
  type Codes = map<string, AuthCode>

  datatype LookupError = NotFound | WrongUser

  // ----- what the operations do, on values -----

  function SweptPending(pending: Pending, now: int): Pending {
    map id | id in pending && now <= pending[id].expiresAt :: pending[id]
  }

  function SweptCodes(codes: Codes, now: int): Codes {
    map c | c in codes && now <= codes[c].expiresAt :: codes[c]
  }

  function OfClientIp(pending: Pending, clientId: string, sourceIp: string): set<string> {
    set id | id in pending && pending[id].clientId == clientId && pending[id].sourceIp == sourceIp
  }

  /** `id` may be evicted: it is unbound, and no unbound request of its client and address expires earlier. */
  predicate Evictable(pending: Pending, id: string, clientId: string, sourceIp: string) {
    && id in OfClientIp(pending, clientId, sourceIp)
    && pending[id].user == ""
    && forall other :: other in OfClientIp(pending, clientId, sourceIp) && pending[other].user == "" ==>
                         pending[id].expiresAt <= pending[other].expiresAt
  }

  /** Room is made by evicting at most one request; several may qualify, so this is a relation. */
  ghost predicate MakesRoom(before: Pending, clientId: string, sourceIp: string, after: Pending, ok: bool) {
    if |OfClientIp(before, clientId, sourceIp)| < MAX_PENDING_PER_CLIENT_IP then ok && after == before
    else if forall id :: id in OfClientIp(before, clientId, sourceIp) ==> before[id].user != "" then !ok && after == before
    else ok && exists id :: Evictable(before, id, clientId, sourceIp) && after == before - {id}
  }

  /** `oldest` is an unbound request of the client and address that expires first, or "" when there is none. */
  lemma RoomMade(pending: Pending, clientId: string, sourceIp: string, oldest: string)
    requires if oldest == "" then forall id :: id in OfClientIp(pending, clientId, sourceIp) ==> pending[id].user != ""
             else Evictable(pending, oldest, clientId, sourceIp)
    ensures
      if |OfClientIp(pending, clientId, sourceIp)| < MAX_PENDING_PER_CLIENT_IP then MakesRoom(pending, clientId, sourceIp, pending, true)
      else if oldest == "" then MakesRoom(pending, clientId, sourceIp, pending, false)
      else MakesRoom(pending, clientId, sourceIp, pending - {oldest}, true)
  {
  }

  /** Told from the rows: nothing goes unless twenty of the client and address wait; then one unbound of them that expires no later than the others; and without such there is no room. */
  lemma OldestUnboundGoes(before: Pending, clientId: string, sourceIp: string, after: Pending, ok: bool)
    requires MakesRoom(before, clientId, sourceIp, after, ok)
    ensures
      var waiting := set id | id in before && before[id].clientId == clientId && before[id].sourceIp == sourceIp;
      var unbound := set id | id in waiting && before[id].user == "";
      && (ok <==> |waiting| < 20 || unbound != {})
      && (|waiting| < 20 || unbound == {} ==> after == before)
      && (|waiting| >= 20 && unbound != {} ==>
            exists gone :: gone in unbound && after == before - {gone}
                           && forall id :: id in unbound ==> before[gone].expiresAt <= before[id].expiresAt)
  {
    var waiting := set id | id in before && before[id].clientId == clientId && before[id].sourceIp == sourceIp;
    assert waiting == OfClientIp(before, clientId, sourceIp);
    if |waiting| >= 20 && ok {
      var gone :| Evictable(before, gone, clientId, sourceIp) && after == before - {gone};
    }
  }

  /** A lookup finds a request in time that is unbound, and binds it, or is the account's own; a late one goes. */
  lemma LookupSays(pending: Pending, id: string, user: string, now: int)
    ensures
      var (after, r) := Looked(pending, id, user, now);
      && (r.Ok? <==> id in pending && now <= pending[id].expiresAt && pending[id].user in {"", user})
      && (r == Err(WrongUser) <==> id in pending && now <= pending[id].expiresAt && pending[id].user !in {"", user})
      && (r.Ok? ==> id in after && r.value == after[id] && after[id].user == user && after[id].(user := "") == pending[id].(user := ""))
      && (id in after <==> id in pending && now <= pending[id].expiresAt)
      && (forall other :: other != id ==> (other in after <==> other in pending) && (other in pending ==> after[other] == pending[other]))
      && (r.Err? && id in after ==> after[id] == pending[id])
  {
  }

  /** What adding a request does: sweep, make room, refuse when full, else store it unbound. */
  ghost predicate Added(before: Pending, id: string, p: Request, now: int, after: Pending, ok: bool) {
    exists roomy, room :: AddedVia(before, id, p, now, roomy, room, after, ok)
  }

  ghost predicate AddedVia(before: Pending, id: string, p: Request, now: int, roomy: Pending, room: bool, after: Pending, ok: bool) {
    && MakesRoom(SweptPending(before, now), p.clientId, p.sourceIp, roomy, room)
    && ok == (room && |roomy| < MAX_PENDING)
    && after == if ok then roomy[id := p.(user := "", expiresAt := now + PENDING_TTL)] else roomy
  }

  function Looked(pending: Pending, id: string, user: string, now: int): (Pending, Result<Request, LookupError>) {
    if id !in pending || now > pending[id].expiresAt then (pending - {id}, Err(NotFound))
    else if pending[id].user == "" then
      var p := pending[id].(user := user);
      (pending[id := p], Ok(p))
    else if pending[id].user != user then (pending, Err(WrongUser))
    else (pending, Ok(pending[id]))
  }

  /** What consuming a code leaves behind; `found` and `reused` are read off the state before. */
  function Consumed(codes: Codes, code: string, now: int): Codes {
    if !Redeemable(codes, code, now) then codes
    else codes[code := codes[code].(used := true, reuseSeen := codes[code].reuseSeen || codes[code].used)]
  }

  predicate Redeemable(codes: Codes, code: string, now: int) {
    code in codes && now <= codes[code].expiresAt
  }

  function Unmarked(codes: Codes, code: string): Codes {
    if code in codes && !codes[code].reuseSeen then codes[code := codes[code].(used := false)] else codes
  }

  function Bound(codes: Codes, code: string, deviceKey: string): Codes {
    if code in codes then codes[code := codes[code].(deviceKey := deviceKey)] else codes
  }

  // ----- the store -----

  class Store {
    var pending: Pending
    var codes: Codes

    constructor ()
      ensures pending == map[] && codes == map[]
    {
      pending, codes := map[], map[];
    }

    method Sweep(now: int)
      modifies this
      ensures pending == SweptPending(old(pending), now)
      ensures codes == SweptCodes(old(codes), now)
    {
      var todo := pending.Keys;
      while todo != {}
        invariant todo <= pending.Keys <= old(pending).Keys && codes == old(codes)
        invariant forall id :: id in pending ==> pending[id] == old(pending)[id]
        invariant forall id :: id in old(pending) && id !in todo ==> (id in pending <==> now <= old(pending)[id].expiresAt)
      {
        var id :| id in todo;
        if now > pending[id].expiresAt {
          pending := pending - {id};
        }
        todo := todo - {id};
      }
      todo := codes.Keys;
      while todo != {}
        invariant todo <= codes.Keys <= old(codes).Keys
        invariant pending == SweptPending(old(pending), now)
        invariant forall c :: c in codes ==> codes[c] == old(codes)[c]
        invariant forall c :: c in old(codes) && c !in todo ==> (c in codes <==> now <= old(codes)[c].expiresAt)
      {
        var c :| c in todo;
        if now > codes[c].expiresAt {
          codes := codes - {c};
        }
        todo := todo - {c};
      }
    }

    method EvictOldestOfClientIp(clientId: string, sourceIp: string) returns (ok: bool)
      requires "" !in pending
      modifies this`pending
      ensures MakesRoom(old(pending), clientId, sourceIp, pending, ok)
    {
      hide MakesRoom;
      var count, oldestId, oldest := 0, "", 0;
      var todo := pending.Keys;
      ghost var all, seen: set<string> := OfClientIp(pending, clientId, sourceIp), {};
      while todo != {}
        invariant todo <= pending.Keys
        invariant seen <= all && count == |seen|
        invariant forall id :: id in all ==> (id in seen <==> id !in todo)
        invariant oldestId == "" ==> forall id :: id in seen ==> pending[id].user != ""
        invariant oldestId != "" ==>
                    && oldestId in seen && pending[oldestId].user == "" && oldest == pending[oldestId].expiresAt
                    && forall id :: id in seen && pending[id].user == "" ==> oldest <= pending[id].expiresAt
      {
        var id :| id in todo;
        todo := todo - {id};
        if pending[id].clientId == clientId && pending[id].sourceIp == sourceIp {
          seen, count := seen + {id}, count + 1;
          if pending[id].user == "" && (oldestId == "" || pending[id].expiresAt < oldest) {
            oldestId, oldest := id, pending[id].expiresAt;
          }
        }
      }
      assert seen == all;
      RoomMade(pending, clientId, sourceIp, oldestId);
      if count < MAX_PENDING_PER_CLIENT_IP {
        return true;
      }
      if oldestId == "" {
        return false;
      }
      pending := pending - {oldestId};
      return true;
    }

    /** The sweep and the eviction stay even when the store turns out to be full. */
    method AddPending(id: string, p: Request, now: int) returns (ok: bool)
      requires "" !in pending && id != ""
      modifies this
      ensures Added(old(pending), id, p, now, pending, ok)
      ensures codes == SweptCodes(old(codes), now)
    {
      Sweep(now);
      var room := EvictOldestOfClientIp(p.clientId, p.sourceIp);
      ghost var roomy := pending;
      ok := room && |pending| < MAX_PENDING;
      if ok {
        pending := pending[id := p.(user := "", expiresAt := now + PENDING_TTL)];
      }
      assert AddedVia(old(pending), id, p, now, roomy, room, pending, ok);
    }

    method LookupPending(id: string, user: string, now: int) returns (r: Result<Request, LookupError>)
      modifies this`pending
      ensures (pending, r) == Looked(old(pending), id, user, now)
    {
      if id !in pending || now > pending[id].expiresAt {
        pending := pending - {id};
        return Err(NotFound);
      }
      if pending[id].user == "" {
        pending := pending[id := pending[id].(user := user)];
      } else if pending[id].user != user {
        return Err(WrongUser);
      }
      return Ok(pending[id]);
    }

    method TakePending(id: string, user: string, now: int) returns (r: Result<Request, LookupError>)
      modifies this`pending
      ensures r == Looked(old(pending), id, user, now).1
      ensures pending == if r.Ok? then old(pending) - {id} else Looked(old(pending), id, user, now).0
    {
      r := LookupPending(id, user, now);
      if r.Ok? {
        pending := pending - {id};
      }
    }

    method AddCode(code: string, c: AuthCode, now: int)
      modifies this
      ensures pending == SweptPending(old(pending), now)
      ensures codes == SweptCodes(old(codes), now)[code := Unused(c, now + CODE_TTL)]
    {
      Sweep(now);
      codes := codes[code := Unused(c, now + CODE_TTL)];
    }

    method ConsumeCode(code: string, now: int) returns (c: Option<AuthCode>, reused: bool)
      modifies this`codes
      ensures codes == Consumed(old(codes), code, now)
      ensures c.Some? <==> Redeemable(old(codes), code, now)
      ensures c.Some? ==> c.value == codes[code] && reused == old(codes)[code].used
      ensures c.None? ==> !reused
    {
      if code !in codes || now > codes[code].expiresAt {
        return None, false;
      }
      var entry := codes[code];
      reused := entry.used;
      entry := entry.(used := true);
      if reused {
        entry := entry.(reuseSeen := true);
      }
      codes := codes[code := entry];
      c := Some(entry);
    }

    method UnmarkCode(code: string)
      modifies this`codes
      ensures codes == Unmarked(old(codes), code)
    {
      if code in codes && !codes[code].reuseSeen {
        codes := codes[code := codes[code].(used := false)];
      }
    }

    method SetCodeDevice(code: string, deviceKey: string) returns (reuseSeen: bool)
      modifies this`codes
      ensures codes == Bound(old(codes), code, deviceKey)
      ensures reuseSeen <==> code in old(codes) && old(codes)[code].reuseSeen
    {
      if code in codes {
        codes := codes[code := codes[code].(deviceKey := deviceKey)];
        return codes[code].reuseSeen;
      }
      return false;
    }
  }
}
