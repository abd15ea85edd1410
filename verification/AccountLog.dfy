/**
  An account is what was last done to it: over every run, each column of a row read
  off the accepted requests alone, the last word first.
*/
module AccountLog {
  import opened Common
  import opened Accounts
  import opened AccountRuns

  /** The request is accepted in this state; otherwise it changes nothing. */
  ghost predicate Takes(n: Names, w: World, a: Action) {
    var users, key := w.users, a.key;
    match a
    case Join(_, name) => name != "" && key !in users
    case Register(_, typed, verifier, keyBlob, _) =>
      && n.normalize(typed) != None && verifier != "" && keyBlob != ""
      && key !in users && NameFree(n, users, n.normalize(typed).value, key)
    case Claim(_, typed, verifier, _, _) =>
      && n.normalize(typed) != None && !w.claimed
      && key !in users && (verifier != "" ==> NameFree(n, users, n.normalize(typed).value, key))
    case Rename(_, typed) =>
      && n.normalize(typed) != None
      && key in users && (users[key].verifier != None ==> NameFree(n, users, n.normalize(typed).value, key))
    case SetPassword(_, asName, verifier, keyBlob, _) =>
      && asName != "" && verifier != ""
      && key in users && (users[key].sub == n.ownKey ==> keyBlob != "") && NameFree(n, users, users[key].username, key)
    case SetState(_, _) => key in users
    case ClearEscrow(_) => key in users && users[key].sub != n.ownKey
    case Accept(_, _, iat, sub) =>
      && iat > 0 && sub != "" && key in users && BindingLess(users[key].iat, users[key].sub, iat, sub)
      && (sub == n.ownKey ==> users[key].keyBlob != None)
  }

  /** The accepted requests about the account, in order. */
  ghost function Journal(n: Names, w: World, actions: seq<Action>, key: string): seq<Action>
    decreases |actions|
  {
    if actions == [] then []
    else
      (if actions[0].key == key && Takes(n, w, actions[0]) then [actions[0]] else []) + Journal(n, Step(n, w, actions[0]), actions[1..], key)
  }

  function OrNone(s: string): Option<string> {
    if s == "" then None else Some(s)
  }

  /** The verifier of the last registration, claim or password change, unless the escrow was emptied since. */
  function VerifierBy(n: Names, js: seq<Action>): Option<string>
    decreases |js|
  {
    if js == [] then None
    else
      match Last(js)
      case Join(_, _) => None
      case Register(_, _, verifier, _, _) => Some(verifier)
      case Claim(_, _, verifier, _, _) => OrNone(verifier)
      case SetPassword(_, _, verifier, _, _) => Some(verifier)
      case ClearEscrow(_) => None
      case Accept(_, _, _, sub) => if sub == n.ownKey then VerifierBy(n, Front(js)) else None
      case _ => VerifierBy(n, Front(js))
  }

  function KeyBlobBy(n: Names, js: seq<Action>): Option<string>
    decreases |js|
  {
    if js == [] then None
    else
      match Last(js)
      case Join(_, _) => None
      case Register(_, _, _, keyBlob, _) => Some(keyBlob)
      case Claim(_, _, _, keyBlob, _) => OrNone(keyBlob)
      case SetPassword(_, _, _, keyBlob, _) => OrNone(keyBlob)
      case ClearEscrow(_) => None
      case Accept(_, _, _, sub) => if sub == n.ownKey then KeyBlobBy(n, Front(js)) else None
      case _ => KeyBlobBy(n, Front(js))
  }

  function StateBlobBy(n: Names, js: seq<Action>): Option<string>
    decreases |js|
  {
    if js == [] then None
    else
      match Last(js)
      case Join(_, _) => None
      case Register(_, _, _, _, stateBlob) => OrNone(stateBlob)
      case Claim(_, _, _, _, stateBlob) => OrNone(stateBlob)
      case SetPassword(_, _, _, _, stateBlob) => OrNone(stateBlob)
      case SetState(_, stateBlob) => OrNone(stateBlob)
      case ClearEscrow(_) => None
      case Accept(_, _, _, sub) => if sub == n.ownKey then StateBlobBy(n, Front(js)) else None
      case Rename(_, _) => StateBlobBy(n, Front(js))
  }

  /** The name it was created under, or the last it was renamed to. */
  function NameBy(n: Names, js: seq<Action>): Option<string>
    decreases |js|
  {
    if js == [] then None
    else
      match Last(js)
      case Join(_, name) => Some(name)
      case Register(_, typed, _, _, _) => n.normalize(typed)
      case Claim(_, typed, _, _, _) => n.normalize(typed)
      case Rename(_, typed) => n.normalize(typed)
      case _ => NameBy(n, Front(js))
  }

  /** The last accepted binding. */
  function BindingBy(js: seq<Action>): (Option<string>, int, string)
    decreases |js|
  {
    if js == [] then (None, 0, "")
    else if Last(js).Accept? then (Some(Last(js).binding), Last(js).iat, Last(js).sub)
    else BindingBy(Front(js))
  }

  /** The account is there exactly if something was accepted for it, and is as the requests say. */
  ghost predicate Told(n: Names, users: Users, key: string, js: seq<Action>) {
    && (key in users <==> js != [])
    && (key in users ==>
          var u := users[key];
          && Some(u.username) == NameBy(n, js) && u.verifier == VerifierBy(n, js)
          && u.keyBlob == KeyBlobBy(n, js) && u.stateBlob == StateBlobBy(n, js)
          && (u.binding, u.iat, u.sub) == BindingBy(js))
  }

  lemma RefusedChangesNothing(n: Names, w: World, a: Action)
    requires !Takes(n, w, a)
    ensures Step(n, w, a) == w
  {
  }

  lemma OthersStay(n: Names, w: World, a: Action, key: string)
    requires a.key != key
    ensures key in Step(n, w, a).users <==> key in w.users
    ensures key in w.users ==> Step(n, w, a).users[key] == w.users[key]
  {
    hide NameHeld, StringLess;
  }

  lemma CreatedTold(n: Names, w: World, a: Action, js: seq<Action>)
    requires Takes(n, w, a) && (a.Join? || a.Register? || a.Claim?) && Told(n, w.users, a.key, js)
    ensures Told(n, Step(n, w, a).users, a.key, js + [a])
  {
    LastOfAppended(js, a);
    assert js == [];
    assert js + [a] == [a];
  }

  lemma ChangedTold(n: Names, w: World, a: Action, js: seq<Action>)
    requires Takes(n, w, a) && !a.Join? && !a.Register? && !a.Claim? && Told(n, w.users, a.key, js)
    ensures Told(n, Step(n, w, a).users, a.key, js + [a])
  {
    hide StringLess;
    LastOfAppended(js, a);
    match a
    case Rename(key, typed) => NameIsSet(n, w.users, key, n.normalize(typed).value);
    case SetPassword(key, asName, verifier, keyBlob, stateBlob) =>
      PasswordIsSet(n, w.users, key, verifier, n.goLower(asName), keyBlob, stateBlob);
    case SetState(key, stateBlob) => StateIsSet(w.users, key, stateBlob);
    case ClearEscrow(key) => EscrowIsCleared(n, w.users, key);
    case Accept(_, _, _, _) =>
  }

  lemma StepTold(n: Names, w: World, a: Action, key: string, js: seq<Action>)
    requires Told(n, w.users, key, js)
    ensures Told(n, Step(n, w, a).users, key, if a.key == key && Takes(n, w, a) then js + [a] else js)
  {
    hide Step, Takes, NameBy, VerifierBy, KeyBlobBy, StateBlobBy, BindingBy;
    if a.key != key {
      OthersStay(n, w, a, key);
    } else if !Takes(n, w, a) {
      RefusedChangesNothing(n, w, a);
    } else if a.Join? || a.Register? || a.Claim? {
      CreatedTold(n, w, a, js);
    } else {
      ChangedTold(n, w, a, js);
    }
  }

  lemma {:induction false} RunTold(n: Names, w: World, actions: seq<Action>, key: string, js: seq<Action>)
    requires Told(n, w.users, key, js)
    ensures Told(n, Run(n, w, actions).users, key, js + Journal(n, w, actions, key))
    decreases |actions|
  {
    hide Told, Step, Takes;
    if actions == [] {
      assert js + [] == js;
    } else {
      var a := actions[0];
      StepTold(n, w, a, key, js);
      var js' := if a.key == key && Takes(n, w, a) then js + [a] else js;
      assert js + Journal(n, w, actions, key) == js' + Journal(n, Step(n, w, a), actions[1..], key);
      RunTold(n, Step(n, w, a), actions[1..], key, js');
    }
  }

  /**
    Over every run an account has the verifier and the key of its last accepted
    registration, claim or password change, and the state last given, unless a clear
    or a binding to another space emptied them since; the name it was last given; and
    the binding it last accepted.
  */
  lemma AccountsFollowRequests(n: Names, actions: seq<Action>, key: string)
    ensures
      var users, js := Run(n, START, actions).users, Journal(n, START, actions, key);
      && (key in users <==> js != [])
      && (key in users ==>
            var u := users[key];
            && Some(u.username) == NameBy(n, js) && u.verifier == VerifierBy(n, js)
            && u.keyBlob == KeyBlobBy(n, js) && u.stateBlob == StateBlobBy(n, js)
            && (u.binding, u.iat, u.sub) == BindingBy(js))
  {
    RunTold(n, START, actions, key, []);
    assert [] + Journal(n, START, actions, key) == Journal(n, START, actions, key);
  }
}
