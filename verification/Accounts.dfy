/**
  The users table (internal/user/user_repository.go): names, password credentials,
  escrow blobs and identity bindings, one conditional statement at a time.
*/
module Accounts {
  import opened Common

  /** NULL columns are None. */
  datatype User = User(
    username: string,
    verifier: Option<string>,
    handle: Option<string>,
    keyBlob: Option<string>,
    stateBlob: Option<string>,
    binding: Option<string>,
    iat: int,
    sub: string)

  type Users = map<string, User>

  /**
    What the model takes as given: trimming and checking a name, lower case in the
    database and in Go, and the space's own public key.
  */
  datatype Names = Names(normalize: string -> Option<string>, sqlLower: string -> string, goLower: string -> string, ownKey: string)

  datatype AccountError = AccountExists | UsernameTaken | IdentitySpaceEscrow | NoSuchUser | DeviceKeyTaken | AlreadyClaimed

  function NullIf(s: string): Option<string> {
    if s == "" then None else Some(s)
  }

  function Plain(username: string): User {
    User(username, None, None, None, None, None, 0, "")
  }

  /** A password-enabled account other than `except` has this name, up to case: the partial unique index. */
  predicate NameHeld(n: Names, users: Users, name: string, except: string) {
    exists k :: k in users && k != except && users[k].verifier.Some? && n.sqlLower(users[k].username) == n.sqlLower(name)
  }

  function Inserted(n: Names, users: Users, key: string, u: User): Result<Users, AccountError> {
    if key in users then Err(AccountExists)
    else if u.verifier.Some? && NameHeld(n, users, u.username, key) then Err(UsernameTaken)
    else Ok(users[key := u])
  }

  function Renamed(n: Names, users: Users, key: string, name: string): Result<Users, AccountError> {
    if key !in users then Err(NoSuchUser)
    else if users[key].verifier.Some? && NameHeld(n, users, name, key) then Err(UsernameTaken)
    else Ok(users[key := users[key].(username := name)])
  }

  /** The handle moves only while there is no verifier. */
  function PasswordSet(n: Names, users: Users, key: string, verifier: string, handle: string, keyBlob: string, stateBlob: string):
    Result<Users, AccountError>
  {
    if key !in users || (keyBlob == "" && users[key].sub == n.ownKey) then Err(IdentitySpaceEscrow)
    else if NameHeld(n, users, users[key].username, key) then Err(UsernameTaken)
    else
      var u := users[key];
      var h := if u.verifier.None? || u.handle.None? then Some(handle) else u.handle;
      Ok(users[key := u.(verifier := Some(verifier), handle := h, keyBlob := NullIf(keyBlob), stateBlob := NullIf(stateBlob))])
  }

  function StateSet(users: Users, key: string, stateBlob: string): Users {
    if key !in users then users else users[key := users[key].(stateBlob := NullIf(stateBlob))]
  }

  function EscrowCleared(n: Names, users: Users, key: string): Result<Users, AccountError> {
    if key !in users || users[key].sub == n.ownKey then Err(IdentitySpaceEscrow)
    else Ok(users[key := users[key].(keyBlob := None, stateBlob := None, verifier := None)])
  }

  /** Strings in byte order. */
  predicate StringLess(a: string, b: string)
    decreases |a|
  {
    b != "" && (a == "" || a[0] < b[0] || (a[0] == b[0] && StringLess(a[1..], b[1..])))
  }

  /** Lexicographic: after a common beginning the first is over, or has the smaller next character. */
  lemma {:induction false} StringLessIff(a: string, b: string)
    ensures StringLess(a, b) <==>
            exists k :: 0 <= k <= |a| && k < |b| && a[..k] == b[..k] && (k == |a| || a[k] < b[k])
    decreases |a|
  {
    forall k | 0 < k <= |a| && k <= |b| && a[..k] == b[..k] ensures a[0] == b[0] {
      assert a[..k][0] == b[..k][0];
    }
    if a != "" && b != "" && a[0] == b[0] {
      StringLessIff(a[1..], b[1..]);
      if k :| 0 <= k <= |a[1..]| && k < |b[1..]| && a[1..][..k] == b[1..][..k] && (k == |a[1..]| || a[1..][k] < b[1..][k]) {
        assert a[..k + 1] == [a[0]] + a[1..][..k] && b[..k + 1] == [b[0]] + b[1..][..k];
        assert a[..k + 1] == b[..k + 1] && (k + 1 == |a| || a[k + 1] < b[k + 1]);
      }
      if k :| 0 <= k <= |a| && k < |b| && a[..k] == b[..k] && (k == |a| || a[k] < b[k]) {
        assert a[1..][..k - 1] == a[..k][1..] && b[1..][..k - 1] == b[..k][1..];
      }
    } else if b != "" && (a == "" || a[0] < b[0]) {
      assert a[..0] == b[..0] && (0 == |a| || a[0] < b[0]);
    }
  }

  /** Bindings are ordered by time, then by the space they name. */
  predicate BindingLess(iat: int, sub: string, iat': int, sub': string) {
    iat < iat' || (iat == iat' && StringLess(sub, sub'))
  }

  /**
    A binding is taken if it is newer, and, when it names this space, only with the
    account key in escrow; naming another space empties the escrow.
  */
  function BindingAccepted(n: Names, users: Users, key: string, binding: string, iat: int, sub: string): (Users, bool) {
    if key !in users || !BindingLess(users[key].iat, users[key].sub, iat, sub) || (sub == n.ownKey && users[key].keyBlob.None?) then
      (users, false)
    else
      var u := users[key].(binding := Some(binding), iat := iat, sub := sub);
      (users[key := if sub == n.ownKey then u else u.(keyBlob := None, stateBlob := None, verifier := None)], true)
  }

  // ----- what the statements do to a row -----

  /** Only this account's row may differ. */
  ghost predicate OnlyRow(users: Users, users': Users, key: string) {
    && users'.Keys == users.Keys && key in users
    && forall k :: k in users && k != key ==> users'[k] == users[k]
  }

  /** Nobody else who can log in has the name, up to case. */
  ghost predicate NameFree(n: Names, users: Users, name: string, key: string) {
    forall k :: k in users && k != key && users[k].verifier != None ==> n.sqlLower(users[k].username) != n.sqlLower(name)
  }

  /** An account is new under its key, and under its name if it has a password. */
  lemma InsertedIff(n: Names, users: Users, key: string, u: User)
    ensures
      var r := Inserted(n, users, key, u);
      && (r.Ok? <==> key !in users && (u.verifier != None ==> NameFree(n, users, u.username, key)))
      && (r.Err? ==> r.error == if key in users then AccountExists else UsernameTaken)
      && (r.Ok? ==> r.value.Keys == users.Keys + {key} && r.value[key] == u && forall k :: k in users ==> r.value[k] == users[k])
  {
  }

  /**
    A password change stores the new verifier and both blobs, empties a blob that is
    not given, and leaves the rest of the row; the handle moves only on an account
    that has none or no password.
  */
  lemma PasswordIsSet(n: Names, users: Users, key: string, verifier: string, handle: string, keyBlob: string, stateBlob: string)
    ensures
      var r := PasswordSet(n, users, key, verifier, handle, keyBlob, stateBlob);
      && (r.Ok? <==>
          && key in users && (users[key].sub == n.ownKey ==> keyBlob != "")
          && NameFree(n, users, users[key].username, key))
      && (r.Err? ==>
          (r.error == IdentitySpaceEscrow <==> (key in users ==> users[key].sub == n.ownKey && keyBlob == ""))
          && r.error in {IdentitySpaceEscrow, UsernameTaken})
      && (r.Ok? ==>
          && OnlyRow(users, r.value, key)
          && var u, u' := users[key], r.value[key];
             && u'.verifier == Some(verifier)
             && u'.keyBlob == (if keyBlob == "" then None else Some(keyBlob))
             && u'.stateBlob == (if stateBlob == "" then None else Some(stateBlob))
             && u'.handle == (if u.verifier != None && u.handle != None then u.handle else Some(handle))
             && u'.username == u.username && u'.binding == u.binding && u'.iat == u.iat && u'.sub == u.sub)
  {
  }

  /** A rename touches the name only, and is refused to an account with a password if another such has it. */
  lemma NameIsSet(n: Names, users: Users, key: string, name: string)
    ensures
      var r := Renamed(n, users, key, name);
      && (r.Ok? <==> key in users && (users[key].verifier != None ==> NameFree(n, users, name, key)))
      && (r.Err? ==> r.error == if key in users then UsernameTaken else NoSuchUser)
      && (r.Ok? ==> OnlyRow(users, r.value, key) && r.value[key].username == name
                    && r.value[key].(username := users[key].username) == users[key])
  {
  }

  lemma StateIsSet(users: Users, key: string, stateBlob: string)
    ensures
      var users' := StateSet(users, key, stateBlob);
      if key !in users then users' == users
      else
        && OnlyRow(users, users', key)
        && users'[key].stateBlob == (if stateBlob == "" then None else Some(stateBlob))
        && users'[key].(stateBlob := users[key].stateBlob) == users[key]
  {
  }

  /** Clearing the escrow takes the password with it and leaves name, handle and binding. */
  lemma EscrowIsCleared(n: Names, users: Users, key: string)
    ensures
      var r := EscrowCleared(n, users, key);
      && (r.Ok? <==> key in users && users[key].sub != n.ownKey)
      && (r.Ok? ==>
          && OnlyRow(users, r.value, key)
          && var u, u' := users[key], r.value[key];
             && u'.verifier == None && u'.keyBlob == None && u'.stateBlob == None
             && u'.username == u.username && u'.handle == u.handle && u'.binding == u.binding && u'.iat == u.iat && u'.sub == u.sub)
  {
  }

  // ----- what login reads -----

  predicate Answers(n: Names, users: Users, k: string, username: string) {
    k in users && users[k].verifier.Some? && n.sqlLower(users[k].username) == n.sqlLower(username)
  }

  ghost predicate SomeoneAnswers(n: Names, users: Users, username: string) {
    exists k :: Answers(n, users, k, username)
  }

  /** The handle of a password-enabled account with this name; "" for none. */
  ghost function HandleOf(n: Names, users: Users, username: string): string {
    if SomeoneAnswers(n, users, username) then
      var k :| Answers(n, users, k, username);
      if users[k].handle.Some? then users[k].handle.value else ""
    else ""
  }

  /** What GetSalt feeds the salt derivation for a name as typed; nothing when the name is refused. */
  ghost function SaltInput(n: Names, users: Users, typed: string): Option<string> {
    var username := n.normalize(typed);
    if username.None? then None
    else
      var handle := HandleOf(n, users, username.value);
      Some(if handle != "" then handle else n.goLower(username.value))
  }

  /** The unique index: no two password-enabled accounts share a name up to case. */
  ghost predicate NamesUnique(n: Names, users: Users) {
    forall j, k :: j in users && users[j].verifier.Some? && Answers(n, users, k, users[j].username) ==> j == k
  }

  lemma OneAnswers(n: Names, users: Users, name: string, j: string, k: string)
    requires NamesUnique(n, users) && Answers(n, users, j, name) && Answers(n, users, k, name)
    ensures j == k
  {
    assert Answers(n, users, k, users[j].username);
  }

  class UserStore {
    const names: Names
    var users: Users
    var devices: set<string>
    var claimed: bool

    constructor (names: Names)
      ensures this.names == names && users == map[] && devices == {} && !claimed
    {
      this.names := names;
      users, devices, claimed := map[], {}, false;
    }

    method FindName(name: string, except: string) returns (held: bool)
      ensures held <==> NameHeld(names, users, name, except)
    {
      var todo := users.Keys;
      while todo != {}
        invariant todo <= users.Keys
        invariant forall k :: k in users && k !in todo && k != except && users[k].verifier.Some? ==>
                    names.sqlLower(users[k].username) != names.sqlLower(name)
      {
        var k :| k in todo;
        if k != except && users[k].verifier.Some? && names.sqlLower(users[k].username) == names.sqlLower(name) {
          return true;
        }
        todo := todo - {k};
      }
      return false;
    }

    method Insert(key: string, u: User) returns (err: Option<AccountError>)
      modifies this`users
      ensures err.None? <==> Inserted(names, old(users), key, u).Ok?
      ensures if err.None? then Inserted(names, old(users), key, u) == Ok(users)
              else Inserted(names, old(users), key, u) == Err(err.value) && users == old(users)
    {
      if key in users {
        return Some(AccountExists);
      }
      var held := FindName(u.username, key);
      if u.verifier.Some? && held {
        return Some(UsernameTaken);
      }
      users := users[key := u];
      return None;
    }

    /** Account and first device in one transaction; the account is looked at first. */
    method RegisterUser(key: string, username: string, verifier: string, handle: string, keyBlob: string, stateBlob: string, device: string)
      returns (err: Option<AccountError>)
      modifies this`users, this`devices
      ensures
        var res := Inserted(names, old(users), key, User(username, Some(verifier), Some(handle), Some(keyBlob), NullIf(stateBlob), None, 0, ""));
        && (err.None? <==> res.Ok? && device !in old(devices))
        && (err.None? ==> res == Ok(users) && devices == old(devices) + {device})
        && (err.Some? ==> users == old(users) && devices == old(devices))
        && (err.Some? ==> err.value == if res.Err? then res.error else DeviceKeyTaken)
    {
      var before := users;
      err := Insert(key, User(username, Some(verifier), Some(handle), Some(keyBlob), NullIf(stateBlob), None, 0, ""));
      if err.Some? {
        return;
      }
      if device in devices {
        users := before;
        return Some(DeviceKeyTaken);
      }
      devices := devices + {device};
    }

    /**
      Account, first device and claim row in one transaction. A space that is
      claimed already is found out last: a refused claim says so only if neither the
      account nor the device was in the way.
    */
    method ClaimOwner(key: string, username: string, verifier: string, handle: string, keyBlob: string, stateBlob: string, device: string)
      returns (err: Option<AccountError>)
      modifies this`users, this`devices, this`claimed
      ensures
        var res := Inserted(names, old(users), key, User(username, NullIf(verifier), NullIf(handle), NullIf(keyBlob), NullIf(stateBlob), None, 0, ""));
        && (err.None? <==> res.Ok? && device !in old(devices) && !old(claimed))
        && (err.None? ==> res == Ok(users) && devices == old(devices) + {device} && claimed)
        && (err.Some? ==> users == old(users) && devices == old(devices) && claimed == old(claimed))
        && (err.Some? ==> err.value == if res.Err? then res.error else if device in old(devices) then DeviceKeyTaken else AlreadyClaimed)
    {
      var users0, devices0 := users, devices;
      err := Insert(key, User(username, NullIf(verifier), NullIf(handle), NullIf(keyBlob), NullIf(stateBlob), None, 0, ""));
      if err.Some? {
        return;
      }
      if device in devices {
        users := users0;
        return Some(DeviceKeyTaken);
      }
      devices := devices + {device};
      if claimed {
        users, devices := users0, devices0;
        return Some(AlreadyClaimed);
      }
      claimed := true;
    }

    method UpdateUsername(key: string, name: string) returns (err: Option<AccountError>)
      modifies this`users
      ensures err.None? <==> Renamed(names, old(users), key, name).Ok?
      ensures if err.None? then Renamed(names, old(users), key, name) == Ok(users)
              else Renamed(names, old(users), key, name) == Err(err.value) && users == old(users)
    {
      if key !in users {
        return Some(NoSuchUser);
      }
      var held := FindName(name, key);
      if users[key].verifier.Some? && held {
        return Some(UsernameTaken);
      }
      users := users[key := users[key].(username := name)];
      return None;
    }

    method SetPasswordCredentials(key: string, verifier: string, handle: string, keyBlob: string, stateBlob: string)
      returns (err: Option<AccountError>)
      modifies this`users
      ensures err.None? <==> PasswordSet(names, old(users), key, verifier, handle, keyBlob, stateBlob).Ok?
      ensures if err.None? then PasswordSet(names, old(users), key, verifier, handle, keyBlob, stateBlob) == Ok(users)
              else PasswordSet(names, old(users), key, verifier, handle, keyBlob, stateBlob) == Err(err.value) && users == old(users)
    {
      if key !in users || (keyBlob == "" && users[key].sub == names.ownKey) {
        return Some(IdentitySpaceEscrow);
      }
      var u := users[key];
      var held := FindName(u.username, key);
      if held {
        return Some(UsernameTaken);
      }
      if u.verifier.None? || u.handle.None? {
        u := u.(handle := Some(handle));
      }
      users := users[key := u.(verifier := Some(verifier), keyBlob := NullIf(keyBlob), stateBlob := NullIf(stateBlob))];
      return None;
    }

    method GetPasswordHandle(username: string) returns (handle: string)
      requires NamesUnique(names, users)
      ensures handle == HandleOf(names, users, username)
    {
      var todo := users.Keys;
      while todo != {}
        invariant todo <= users.Keys
        invariant forall k :: k in users && k !in todo ==> !Answers(names, users, k, username)
      {
        var k :| k in todo;
        if users[k].verifier.Some? && names.sqlLower(users[k].username) == names.sqlLower(username) {
          forall j | Answers(names, users, j, username) ensures j == k {
            OneAnswers(names, users, username, j, k);
          }
          assert Answers(names, users, k, username);
          return if users[k].handle.Some? then users[k].handle.value else "";
        }
        todo := todo - {k};
      }
      return "";
    }

    method GetSalt(typed: string) returns (input: Option<string>)
      requires NamesUnique(names, users)
      ensures input == SaltInput(names, users, typed)
    {
      var username := names.normalize(typed);
      if username.None? {
        return None;
      }
      var handle := GetPasswordHandle(username.value);
      input := Some(if handle != "" then handle else names.goLower(username.value));
    }

    method UpdateUserState(key: string, stateBlob: string)
      modifies this`users
      ensures users == StateSet(old(users), key, stateBlob)
    {
      if key in users {
        users := users[key := users[key].(stateBlob := NullIf(stateBlob))];
      }
    }

    method ClearEscrow(key: string) returns (err: Option<AccountError>)
      modifies this`users
      ensures err.None? <==> EscrowCleared(names, old(users), key).Ok?
      ensures if err.None? then EscrowCleared(names, old(users), key) == Ok(users)
              else err == Some(IdentitySpaceEscrow) && users == old(users)
    {
      if key !in users || users[key].sub == names.ownKey {
        return Some(IdentitySpaceEscrow);
      }
      users := users[key := users[key].(keyBlob := None, stateBlob := None, verifier := None)];
      return None;
    }

    method AcceptBinding(key: string, binding: string, iat: int, sub: string) returns (updated: bool)
      modifies this`users
      ensures (users, updated) == BindingAccepted(names, old(users), key, binding, iat, sub)
    {
      updated := key in users && BindingLess(users[key].iat, users[key].sub, iat, sub) && (sub != names.ownKey || users[key].keyBlob.Some?);
      if updated {
        var u := users[key].(binding := Some(binding), iat := iat, sub := sub);
        if sub != names.ownKey {
          u := u.(keyBlob := None, stateBlob := None, verifier := None);
        }
        users := users[key := u];
      }
    }
  }
}
