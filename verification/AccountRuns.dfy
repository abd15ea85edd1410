/**
  Everything that writes account columns, by any accounts in any order: joins,
  registrations, the owner's claim, renames, passwords, state blobs, escrow clears and
  bindings (internal/user). Each action is one request's one statement.
*/
module AccountRuns {
  import opened Common
  import opened Accounts

  datatype World = World(users: Users, claimed: bool)

  const START := World(map[], false)

  /** `asName` is the caller's name as it was read when the request was authenticated. */
  datatype Action =
    | Join(key: string, name: string)
    | Register(key: string, typed: string, verifier: string, keyBlob: string, stateBlob: string)
    | Claim(key: string, typed: string, verifier: string, keyBlob: string, stateBlob: string)
    | Rename(key: string, typed: string)
    | SetPassword(key: string, asName: string, verifier: string, keyBlob: string, stateBlob: string)
    | SetState(key: string, stateBlob: string)
    | ClearEscrow(key: string)
    | Accept(key: string, binding: string, iat: int, sub: string)

  function Keep(w: World, r: Result<Users, AccountError>): World {
    if r.Ok? then w.(users := r.value) else w
  }

  function Step(n: Names, w: World, a: Action): World {
    match a
    case Join(key, name) => if name == "" then w else Keep(w, Inserted(n, w.users, key, Plain(name)))
    case Register(key, typed, verifier, keyBlob, stateBlob) =>
      var name := n.normalize(typed);
      if name.None? || verifier == "" || keyBlob == "" then w
      else
        Keep(w, Inserted(n, w.users, key,
                         User(name.value, Some(verifier), Some(n.goLower(name.value)), Some(keyBlob), NullIf(stateBlob), None, 0, "")))
    case Claim(key, typed, verifier, keyBlob, stateBlob) =>
      var name := n.normalize(typed);
      if name.None? || w.claimed then w
      else
        var handle := if verifier == "" then "" else n.goLower(name.value);
        var r := Inserted(n, w.users, key,
                          User(name.value, NullIf(verifier), NullIf(handle), NullIf(keyBlob), NullIf(stateBlob), None, 0, ""));
        if r.Ok? then World(r.value, true) else w
    case Rename(key, typed) =>
      var name := n.normalize(typed);
      if name.None? then w else Keep(w, Renamed(n, w.users, key, name.value))
    case SetPassword(key, asName, verifier, keyBlob, stateBlob) =>
      if asName == "" || verifier == "" then w
      else Keep(w, PasswordSet(n, w.users, key, verifier, n.goLower(asName), keyBlob, stateBlob))
    case SetState(key, stateBlob) => w.(users := StateSet(w.users, key, stateBlob))
    case ClearEscrow(key) => Keep(w, EscrowCleared(n, w.users, key))
    case Accept(key, binding, iat, sub) =>
      // verifyBinding: signed at some time, naming some space
      if iat <= 0 || sub == "" then w else w.(users := BindingAccepted(n, w.users, key, binding, iat, sub).0)
  }

  function Run(n: Names, w: World, actions: seq<Action>): World
    decreases |actions|
  {
    if actions == [] then w else Run(n, Step(n, w, actions[0]), actions[1..])
  }

  /** What is taken for granted about names: lower case keeps a name a name, and the space has a key. */
  ghost predicate Sane(n: Names) {
    && n.ownKey != ""
    && (forall s :: s != "" ==> n.goLower(s) != "")
    && (forall s :: n.normalize(s).Some? ==> n.normalize(s).value != "")
  }

  predicate AccountFits(n: Names, u: User) {
    && (u.verifier.Some? ==> u.handle.Some? && u.handle.value != "")
    && (u.sub == n.ownKey ==> u.keyBlob.Some?)
    && u.keyBlob != Some("")
    && u.iat >= 0 && (u.iat == 0 <==> u.sub == "")
  }

  ghost predicate Inv(n: Names, w: World) {
    && NamesUnique(n, w.users)
    && forall k :: k in w.users ==> AccountFits(n, w.users[k])
  }

  /** Changing one account keeps names unique if it holds no verifier, or a name nobody else with one holds. */
  lemma OneNameStaysUnique(n: Names, users: Users, key: string, u: User)
    requires NamesUnique(n, users)
    requires u.verifier.Some? ==> !NameHeld(n, users, u.username, key)
    ensures NamesUnique(n, users[key := u])
  {
    var users' := users[key := u];
    forall j, k | j in users' && users'[j].verifier.Some? && Answers(n, users', k, users'[j].username) ensures j == k {
      if j != key && k != key {
        assert Answers(n, users, k, users[j].username);
      }
    }
  }

  lemma StepKeepsInv(n: Names, w: World, a: Action)
    requires Sane(n) && Inv(n, w)
    ensures Inv(n, Step(n, w, a))
  {
    hide NamesUnique, NameHeld;
    var w' := Step(n, w, a);
    if w'.users != w.users {
      assert a.key in w'.users;
      var u := w'.users[a.key];
      assert w'.users == w.users[a.key := u];
      assert u.verifier.Some? ==> !NameHeld(n, w.users, u.username, a.key) by {
        if u.verifier.Some? && a.key in w.users {
          HeldByNobodyElse(n, w.users, a.key);
        }
      }
      OneNameStaysUnique(n, w.users, a.key, u);
    }
  }

  lemma HeldByNobodyElse(n: Names, users: Users, key: string)
    requires NamesUnique(n, users) && key in users
    ensures users[key].verifier.Some? ==> !NameHeld(n, users, users[key].username, key)
  {
    if users[key].verifier.Some? {
      forall k | k in users && k != key && users[k].verifier.Some?
        ensures n.sqlLower(users[k].username) != n.sqlLower(users[key].username)
      {
        assert !Answers(n, users, k, users[key].username);
      }
    }
  }

  lemma {:induction false} RunKeepsInv(n: Names, w: World, actions: seq<Action>)
    requires Sane(n) && Inv(n, w)
    ensures Inv(n, Run(n, w, actions))
    decreases |actions|
  {
    hide Step, Inv;
    if actions != [] {
      StepKeepsInv(n, w, actions[0]);
      RunKeepsInv(n, Step(n, w, actions[0]), actions[1..]);
    }
  }

  /**
    In every reachable state: at most one password-enabled account answers to a name,
    each has a handle, and a binding that names this space has the account key with it.
  */
  lemma AccountsAreSound(n: Names, actions: seq<Action>)
    requires Sane(n)
    ensures
      var users := Run(n, START, actions).users;
      && (forall name, j, k :: Answers(n, users, j, name) && Answers(n, users, k, name) ==> j == k)
      && (forall k :: k in users ==> AccountFits(n, users[k]))
  {
    RunKeepsInv(n, START, actions);
    var users := Run(n, START, actions).users;
    forall name, j, k | Answers(n, users, j, name) && Answers(n, users, k, name) ensures j == k {
      OneAnswers(n, users, name, j, k);
    }
  }

  // ----- who may act for an account -----

  datatype Device = Device(key: string, account: string, revoked: bool)

  /** The space the account last bound itself to, or, unbound, one that holds its key. */
  predicate IsIdentitySpace(n: Names, u: User) {
    u.keyBlob.Some? && u.keyBlob.value != "" && (u.sub == "" || u.sub == n.ownKey)
  }

  predicate RosterAllowed(n: Names, u: User, account: string, d: Option<Device>) {
    && d.Some? && d.value.account == account && !d.value.revoked
    && (d.value.key == account || u.iat == 0 || IsIdentitySpace(n, u))
  }

  /**
    In every reachable state an account's unrevoked devices may all act for it unless
    it is bound to another space; then only the account key may. The look at the
    escrow never decides otherwise.
  */
  lemma RosterFollowsBinding(n: Names, actions: seq<Action>, account: string, d: Option<Device>)
    requires Sane(n)
    ensures
      var users := Run(n, START, actions).users;
      account in users ==>
        (RosterAllowed(n, users[account], account, d) <==>
         d.Some? && d.value.account == account && !d.value.revoked
         && (d.value.key == account || users[account].iat == 0 || users[account].sub == n.ownKey))
  {
    AccountsAreSound(n, actions);
  }

  // ----- the salt -----

  predicate HasPassword(w: World, key: string) {
    key in w.users && w.users[key].verifier.Some?
  }

  /** The account keeps a verifier through every action. */
  predicate KeepsPassword(n: Names, w: World, actions: seq<Action>, key: string)
    decreases |actions|
  {
    HasPassword(w, key) && (actions == [] || KeepsPassword(n, Step(n, w, actions[0]), actions[1..], key))
  }

  lemma StepKeepsHandle(n: Names, w: World, a: Action, key: string)
    requires Inv(n, w) && HasPassword(w, key) && HasPassword(Step(n, w, a), key)
    ensures Step(n, w, a).users[key].handle == w.users[key].handle
  {
    hide NameHeld, NamesUnique;
  }

  lemma {:induction false} HandleStays(n: Names, w: World, actions: seq<Action>, key: string)
    requires Sane(n) && Inv(n, w) && KeepsPassword(n, w, actions, key)
    ensures
      var w' := Run(n, w, actions);
      Inv(n, w') && HasPassword(w', key) && w'.users[key].handle == w.users[key].handle
    decreases |actions|
  {
    hide Step, Inv;
    if actions != [] {
      StepKeepsInv(n, w, actions[0]);
      StepKeepsHandle(n, w, actions[0], key);
      HandleStays(n, Step(n, w, actions[0]), actions[1..], key);
    }
  }

  /** GetSalt finds an account by what it makes of the typed name. */
  predicate FoundBy(n: Names, u: User, typed: string) {
    n.normalize(typed).Some? && n.sqlLower(n.normalize(typed).value) == n.sqlLower(u.username)
  }

  lemma SaltIsHandle(n: Names, w: World, key: string, typed: string)
    requires Inv(n, w) && HasPassword(w, key) && FoundBy(n, w.users[key], typed)
    ensures SaltInput(n, w.users, typed) == w.users[key].handle
  {
    var name := n.normalize(typed).value;
    assert Answers(n, w.users, key, name);
    forall k | Answers(n, w.users, k, name) ensures k == key {
      OneAnswers(n, w.users, name, k, key);
    }
  }

  /**
    Salt stability: from the moment an account first has a password, by registering,
    by claiming the space or by setting one, through any renames, password changes and
    doings of other accounts, the salt for its current name is the handle fixed then, as
    long as it keeps a password.
  */
  lemma SaltIsFixedWhenPasswordIsSet(n: Names, before: seq<Action>, a: Action, after: seq<Action>, key: string, typed: string)
    requires Sane(n) && !HasPassword(Run(n, START, before), key)
    requires KeepsPassword(n, Step(n, Run(n, START, before), a), after, key)
    ensures
      var w := Run(n, Step(n, Run(n, START, before), a), after);
      && a.key == key && key in w.users && FirstHandle(n, a).Some?
      && (FoundBy(n, w.users[key], typed) ==> SaltInput(n, w.users, typed) == FirstHandle(n, a))
  {
    hide Inv;
    var w0 := Run(n, START, before);
    RunKeepsInv(n, START, before) by {
      StartIsSound(n);
    }
    StepKeepsInv(n, w0, a);
    HandleStays(n, Step(n, w0, a), after, key);
    FirstSetFixesHandle(n, w0, a, key);
    var w := Run(n, Step(n, w0, a), after);
    if FoundBy(n, w.users[key], typed) {
      SaltIsHandle(n, w, key, typed);
    }
  }

  /** The handle an action fixes when it gives an account its first password: its name at that time, in lower case. */
  function FirstHandle(n: Names, a: Action): Option<string> {
    match a
    case SetPassword(_, asName, _, _, _) => Some(n.goLower(asName))
    case Register(_, typed, _, _, _) => if n.normalize(typed).Some? then Some(n.goLower(n.normalize(typed).value)) else None
    case Claim(_, typed, _, _, _) => if n.normalize(typed).Some? then Some(n.goLower(n.normalize(typed).value)) else None
    case _ => None
  }

  lemma StartIsSound(n: Names)
    ensures Inv(n, START)
  {
  }

  lemma FirstSetFixesHandle(n: Names, w: World, a: Action, key: string)
    requires Sane(n) && !HasPassword(w, key) && HasPassword(Step(n, w, a), key)
    ensures a.key == key && FirstHandle(n, a).Some? && Step(n, w, a).users[key].handle == FirstHandle(n, a)
  {
    hide NameHeld;
  }

  /** Somebody else answers to the name, and has this handle. */
  ghost predicate SharedBy(n: Names, users: Users, name: string, handle: Option<string>) {
    exists k :: Answers(n, users, k, name) && users[k].handle == handle
  }

  /**
    Exactly when a typed name gets the salt of an account: when it finds the account,
    or, finding another, that one has the same handle, or, finding none, its lower case
    happens to be the handle.
  */
  lemma SaltIsHandleIff(n: Names, w: World, key: string, typed: string)
    requires Inv(n, w) && HasPassword(w, key) && n.normalize(typed).Some?
    ensures
      var u, name := w.users[key], n.normalize(typed).value;
      SaltInput(n, w.users, typed) == u.handle <==>
      || FoundBy(n, u, typed)
      || SharedBy(n, w.users, name, u.handle)
      || (!SomeoneAnswers(n, w.users, name) && u.handle == Some(n.goLower(name)))
  {
    var u, name := w.users[key], n.normalize(typed).value;
    if FoundBy(n, u, typed) {
      SaltIsHandle(n, w, key, typed);
    } else if SomeoneAnswers(n, w.users, name) {
      var k :| Answers(n, w.users, k, name);
      SaltIsHandle(n, w, k, typed);
      forall j | Answers(n, w.users, j, name) ensures j == k {
        OneAnswers(n, w.users, name, j, k);
      }
    }
  }

  // Names are trimmed everywhere but in a join.

  predicate Trimmed(n: Names, name: string) {
    n.normalize(name) == Some(name)
  }

  ghost predicate JoinsTrimmed(n: Names, actions: seq<Action>, key: string) {
    forall name :: Join(key, name) in actions ==> Trimmed(n, name)
  }

  lemma StepKeepsTrimmed(n: Names, w: World, a: Action, key: string)
    requires forall s :: n.normalize(s).Some? ==> Trimmed(n, n.normalize(s).value)
    requires key in w.users ==> Trimmed(n, w.users[key].username)
    requires a.Join? && a.key == key ==> Trimmed(n, a.name)
    ensures key in Step(n, w, a).users ==> Trimmed(n, Step(n, w, a).users[key].username)
  {
    hide NameHeld;
  }

  /** An account that did not join under an untrimmed name always finds its salt by its current name. */
  lemma {:induction false} TrimmedNameIsFound(n: Names, w: World, actions: seq<Action>, key: string)
    requires forall s :: n.normalize(s).Some? ==> Trimmed(n, n.normalize(s).value)
    requires key in w.users ==> Trimmed(n, w.users[key].username)
    requires JoinsTrimmed(n, actions, key)
    ensures
      var users := Run(n, w, actions).users;
      key in users ==> Trimmed(n, users[key].username) && FoundBy(n, users[key], users[key].username)
    decreases |actions|
  {
    hide Step, Trimmed;
    if actions != [] {
      var a := actions[0];
      assert a in actions && (a.Join? ==> a == Join(a.key, a.name));
      StepKeepsTrimmed(n, w, a, key);
      assert JoinsTrimmed(n, actions[1..], key);
      TrimmedNameIsFound(n, Step(n, w, a), actions[1..], key);
    } else if key in w.users {
      TrimmedFinds(n, w.users[key]);
    }
  }

  lemma TrimmedFinds(n: Names, u: User)
    requires Trimmed(n, u.username)
    ensures FoundBy(n, u, u.username)
  {
  }

  /**
    With no other account in the way: a name taken over unchecked from a join gets the
    salt of its own handle if and only if the database finds it trimmed, or trimming
    does not change its lower case.
  */
  lemma JoinedNameGetsItsSaltIff(n: Names, key: string, name: string, verifier: string)
    requires Sane(n) && name != "" && verifier != "" && n.normalize(name).Some?
    ensures
      var users, trimmed := Run(n, START, [Join(key, name), SetPassword(key, name, verifier, "", "")]).users, n.normalize(name).value;
      && key in users && users[key].username == name && users[key].handle == Some(n.goLower(name))
      && SaltInput(n, users, name) == Some(n.goLower(if n.sqlLower(trimmed) == n.sqlLower(name) then name else trimmed))
      && (SaltInput(n, users, name) == users[key].handle <==>
          n.sqlLower(trimmed) == n.sqlLower(name) || n.goLower(trimmed) == n.goLower(name))
  {
    var join, set_ := Join(key, name), SetPassword(key, name, verifier, "", "");
    RunKeepsInv(n, START, [join, set_]) by {
      StartIsSound(n);
    }
    var w1 := Step(n, START, join);
    assert w1.users == map[key := Plain(name)];
    var w2 := Step(n, w1, set_);
    assert w2.users == map[key := User(name, Some(verifier), Some(n.goLower(name)), None, None, None, 0, "")];
    TwoSteps(n, START, join, set_);
    SaltIsHandleIff(n, w2, key, name);
    var trimmed := n.normalize(name).value;
    assert SharedBy(n, w2.users, trimmed, w2.users[key].handle) ==> Answers(n, w2.users, key, trimmed);
    assert SomeoneAnswers(n, w2.users, trimmed) ==> Answers(n, w2.users, key, trimmed);
  }

  lemma TwoSteps(n: Names, w: World, first: Action, second: Action)
    ensures Run(n, w, [first, second]) == Step(n, Step(n, w, first), second)
  {
    hide Step;
    assert [first, second][1..] == [second] && [second][1..] == [];
    assert Run(n, Step(n, w, first), [second]) == Run(n, Step(n, Step(n, w, first), second), []);
  }

  // ----- bindings -----

  lemma {:induction false} StringOrder(a: string, b: string, c: string)
    ensures !StringLess(a, a)
    ensures StringLess(a, b) && StringLess(b, c) ==> StringLess(a, c)
    ensures StringLess(a, b) || StringLess(b, a) || a == b
    decreases |a| + |b| + |c|
  {
    if a != "" {
      StringOrder(a[1..], if b == "" then "" else b[1..], if c == "" then "" else c[1..]);
    }
    if a != "" && b != "" && a[0] == b[0] {
      assert a == [a[0]] + a[1..] && b == [b[0]] + b[1..];
    }
  }

  /** `(iat', sub')` is not before `(iat, sub)`. */
  predicate NotBefore(iat': int, sub': string, iat: int, sub: string) {
    !BindingLess(iat', sub', iat, sub)
  }

  lemma StepKeepsPair(n: Names, w: World, a: Action, key: string)
    requires key in w.users
    ensures
      var w' := Step(n, w, a);
      && key in w'.users
      && ((w'.users[key].iat, w'.users[key].sub) == (w.users[key].iat, w.users[key].sub)
          || BindingLess(w.users[key].iat, w.users[key].sub, w'.users[key].iat, w'.users[key].sub))
  {
    hide NameHeld, StringLess;
  }

  /** Over every run the stored pair of an account never decreases. */
  lemma {:induction false} BindingNeverDecreases(n: Names, w: World, actions: seq<Action>, key: string)
    requires key in w.users
    ensures
      var w' := Run(n, w, actions);
      key in w'.users && NotBefore(w'.users[key].iat, w'.users[key].sub, w.users[key].iat, w.users[key].sub)
    decreases |actions|
  {
    hide Step;
    StringOrder(w.users[key].sub, w.users[key].sub, w.users[key].sub);
    if actions != [] {
      var w1 := Step(n, w, actions[0]);
      StepKeepsPair(n, w, actions[0], key);
      BindingNeverDecreases(n, w1, actions[1..], key);
      var u, u1, u2 := w.users[key], w1.users[key], Run(n, w1, actions[1..]).users[key];
      StringOrder(u.sub, u1.sub, u2.sub);
      StringOrder(u1.sub, u2.sub, u.sub);
      StringOrder(u2.sub, u.sub, u1.sub);
    }
  }

  datatype Binding = Binding(signed: string, iat: int, sub: string)

  /** Bindings arriving one after another. */
  function Folded(n: Names, users: Users, key: string, bindings: seq<Binding>): Users
    decreases |bindings|
  {
    if bindings == [] then users
    else
      var b := bindings[0];
      Folded(n, BindingAccepted(n, users, key, b.signed, b.iat, b.sub).0, key, bindings[1..])
  }

  ghost predicate Foreign(n: Names, bindings: seq<Binding>) {
    forall b :: b in bindings ==> b.sub != n.ownKey
  }

  /** The account after a newer binding to another space: the same whatever came before. */
  function Moved(u: User, iat: int, sub: string): User {
    u.(binding := None, iat := iat, sub := sub, keyBlob := None, stateBlob := None, verifier := None)
  }

  /** `(iat, sub)` is the greatest of the stored pair and the arriving ones. */
  ghost predicate IsGreatest(u: User, bindings: seq<Binding>, iat: int, sub: string) {
    && ((iat, sub) == (u.iat, u.sub) || exists b :: b in bindings && (iat, sub) == (b.iat, b.sub))
    && NotBefore(iat, sub, u.iat, u.sub)
    && forall b :: b in bindings ==> NotBefore(iat, sub, b.iat, b.sub)
  }

  /** Bindings to other spaces end at the greatest, and if that is a new one the escrow is gone. */
  lemma {:induction false} FoldEndsAtGreatest(n: Names, users: Users, key: string, bindings: seq<Binding>)
    requires key in users && Foreign(n, bindings)
    ensures
      var users' := Folded(n, users, key, bindings);
      && key in users'
      && var u, u' := users[key], users'[key];
         && IsGreatest(u, bindings, u'.iat, u'.sub)
         && (if (u'.iat, u'.sub) == (u.iat, u.sub) then u' == u else u'.(binding := None) == Moved(u, u'.iat, u'.sub))
         && users' == users[key := u']
    decreases |bindings|
  {
    hide StringLess;
    StringOrder(users[key].sub, users[key].sub, users[key].sub);
    if bindings != [] {
      var b, rest := bindings[0], bindings[1..];
      var users1 := BindingAccepted(n, users, key, b.signed, b.iat, b.sub).0;
      assert b in bindings && Foreign(n, rest);
      FoldEndsAtGreatest(n, users1, key, rest);
      var u, u1, u2 := users[key], users1[key], Folded(n, users1, key, rest)[key];
      GreatestOfBoth(u, u1, u2, b, rest);
      assert bindings == [b] + rest;
    }
  }

  lemma GreatestOfBoth(u: User, u1: User, u2: User, b: Binding, rest: seq<Binding>)
    requires IsGreatest(u1, rest, u2.iat, u2.sub)
    requires if BindingLess(u.iat, u.sub, b.iat, b.sub) then (u1.iat, u1.sub) == (b.iat, b.sub) else (u1.iat, u1.sub) == (u.iat, u.sub)
    ensures IsGreatest(u, [b] + rest, u2.iat, u2.sub)
    ensures (u2.iat, u2.sub) == (u.iat, u.sub) ==> (u1.iat, u1.sub) == (u.iat, u.sub)
  {
    hide StringLess;
    StringOrder(u.sub, b.sub, u2.sub);
    StringOrder(b.sub, u2.sub, u.sub);
    StringOrder(u2.sub, u.sub, b.sub);
    StringOrder(u2.sub, b.sub, u.sub);
    if (u2.iat, u2.sub) != (u1.iat, u1.sub) {
      var c :| c in rest && (u2.iat, u2.sub) == (c.iat, c.sub);
      assert c in [b] + rest;
    } else {
      assert b in [b] + rest;
    }
  }

  /**
    Bindings that name other spaces end in the same account whatever their order and
    however often they come, except for which of two signatures over the same time and
    space is kept.
  */
  lemma BindingOrderIsIrrelevant(n: Names, users: Users, key: string, bs: seq<Binding>, cs: seq<Binding>)
    requires key in users && Foreign(n, bs)
    requires forall b :: b in bs <==> b in cs
    ensures
      var ub, uc := Folded(n, users, key, bs), Folded(n, users, key, cs);
      key in ub && key in uc && ub[key].(binding := None) == uc[key].(binding := None)
  {
    FoldEndsAtGreatest(n, users, key, bs);
    FoldEndsAtGreatest(n, users, key, cs);
    var u, ub, uc := users[key], Folded(n, users, key, bs)[key], Folded(n, users, key, cs)[key];
    StringOrder(ub.sub, uc.sub, u.sub);
    assert NotBefore(ub.iat, ub.sub, uc.iat, uc.sub) && NotBefore(uc.iat, uc.sub, ub.iat, ub.sub);
  }

  /** The other binding, accepted first, takes away the account key that the binding to this space needs. */
  predicate Conflict(u: User, own: Binding, other: Binding) {
    && u.keyBlob.Some?
    && BindingLess(u.iat, u.sub, other.iat, other.sub)
    && BindingLess(other.iat, other.sub, own.iat, own.sub)
  }

  /**
    A binding to this space and one to another leave the same accounts in either
    order, except exactly when the account's key is in escrow, the other binding is
    newer than the stored one, and the one to this space newer still.
  */
  lemma OwnBindingCommutesIff(n: Names, users: Users, key: string, own: Binding, other: Binding)
    requires own.sub == n.ownKey && other.sub != n.ownKey
    ensures
      Folded(n, users, key, [own, other]) == Folded(n, users, key, [other, own]) <==>
      key !in users || !Conflict(users[key], own, other)
  {
    hide StringLess;
    TwoBindings(n, users, key, own, other);
    TwoBindings(n, users, key, other, own);
    if key in users {
      var u := users[key];
      StringOrder(u.sub, own.sub, other.sub);
      StringOrder(u.sub, other.sub, own.sub);
      StringOrder(own.sub, other.sub, own.sub);
      StringOrder(other.sub, own.sub, u.sub);
      var u1, u2 := Folded(n, users, key, [own, other])[key], Folded(n, users, key, [other, own])[key];
      assert Folded(n, users, key, [own, other]) == users[key := u1];
      assert Folded(n, users, key, [other, own]) == users[key := u2];
      assert u1 == u2 <==> !Conflict(u, own, other);
    }
  }

  /** In the conflicting case the first of the two decides. */
  lemma OwnBindingOrderMatters(n: Names, users: Users, key: string, own: Binding, other: Binding)
    requires key in users && own.sub == n.ownKey && other.sub != n.ownKey && Conflict(users[key], own, other)
    ensures
      var ownFirst, otherFirst := Folded(n, users, key, [own, other]), Folded(n, users, key, [other, own]);
      && key in ownFirst && ownFirst[key].sub == n.ownKey && ownFirst[key].keyBlob == users[key].keyBlob
      && key in otherFirst && otherFirst[key].sub == other.sub && otherFirst[key].keyBlob == None
  {
    hide StringLess;
    TwoBindings(n, users, key, own, other);
    TwoBindings(n, users, key, other, own);
    StringOrder(users[key].sub, other.sub, own.sub);
    StringOrder(own.sub, other.sub, own.sub);
    StringOrder(own.sub, own.sub, own.sub);
  }

  lemma TwoBindings(n: Names, users: Users, key: string, a: Binding, b: Binding)
    ensures Folded(n, users, key, [a, b]) ==
            BindingAccepted(n, BindingAccepted(n, users, key, a.signed, a.iat, a.sub).0, key, b.signed, b.iat, b.sub).0
  {
    var users1 := BindingAccepted(n, users, key, a.signed, a.iat, a.sub).0;
    assert [a, b][1..] == [b] && [b][1..] == [];
    assert Folded(n, users1, key, [b]) == Folded(n, BindingAccepted(n, users1, key, b.signed, b.iat, b.sub).0, key, []);
  }
}
