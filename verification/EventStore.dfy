/**
  The event service over its tables, updated in place (internal/event,
  internal/application): each method is proved to do what `Events` says.
*/
module EventStore {
  import opened Common
  import opened Structure
  import opened Events
  import opened EventPages

  /** DeleteOlderThan never removes the newest row of an application or of a user-scoped creator, nor a top revision of a template. */
  predicate Anchor(log: Log, o: nat)
    requires o in log
  {
    || (log[o].app.Some? && forall p :: p in log && log[p].app == log[o].app ==> p <= o)
    || (log[o].app.None? && forall p :: p in log && log[p].app.None? && log[p].creator == log[o].creator ==> p <= o)
    || TopRevision(log, o)
  }

  predicate SameTemplate(a: Row, b: Row) {
    && a.app.None? && b.app.None?
    && a.body.TemplateChanged? && b.body.TemplateChanged?
    && a.creator == b.creator && a.body.templateId == b.body.templateId
  }

  predicate TopRevision(log: Log, o: nat)
    requires o in log
  {
    && SameTemplate(log[o], log[o])
    && forall p :: p in log && SameTemplate(log[p], log[o]) ==> log[p].body.rev <= log[o].body.rev
  }

  function Pruned(log: Log, cutoff: int): Log {
    map o | o in log && (log[o].createdAt >= cutoff || Anchor(log, o)) :: log[o]
  }

  /** The rows among which one is kept as the newest: those of the application, or the user-scoped ones of the creator. */
  ghost function Peers(log: Log, r: Row): set<nat> {
    if r.app.Some? then set p | p in log && log[p].app == r.app
    else set p | p in log && log[p].app.None? && log[p].creator == r.creator
  }

  ghost function Revisions(log: Log, creator: string, templateId: string): set<nat> {
    set p | p in log && log[p].app.None? && log[p].creator == creator && log[p].body.TemplateChanged? && log[p].body.templateId == templateId
      :: log[p].body.rev
  }

  /**
    Pruning changes no row, and takes one exactly if it is older than the cutoff, not
    the newest of its application or creator, and not of a template's greatest revision.
  */
  lemma PrunedExactly(log: Log, cutoff: int, o: nat)
    requires o in log
    ensures o in Pruned(log, cutoff) ==> Pruned(log, cutoff)[o] == log[o]
    ensures
      var r := log[o];
      && o in Peers(log, r)
      && (r.app.None? && r.body.TemplateChanged? ==> r.body.rev in Revisions(log, r.creator, r.body.templateId))
      && (o !in Pruned(log, cutoff) <==>
          && r.createdAt < cutoff && o != MaxOf(Peers(log, r))
          && (r.app.None? && r.body.TemplateChanged? ==> r.body.rev != MaxOf(Revisions(log, r.creator, r.body.templateId))))
  {
    hide Pruned, Anchor;
    var r := log[o];
    IsMax(Peers(log, r), o);
    AnchorIff(log, o);
    if r.app.None? && r.body.TemplateChanged? {
      IsMax(Revisions(log, r.creator, r.body.templateId), r.body.rev);
      TopIsGreatest(log, o);
    }
    KeptIff(log, cutoff, o);
  }

  lemma KeptIff(log: Log, cutoff: int, o: nat)
    requires o in log
    ensures o in Pruned(log, cutoff) <==> log[o].createdAt >= cutoff || Anchor(log, o)
    ensures o in Pruned(log, cutoff) ==> Pruned(log, cutoff)[o] == log[o]
  {
  }

  lemma AnchorIff(log: Log, o: nat)
    requires o in log
    ensures Anchor(log, o) <==> (forall p :: p in Peers(log, log[o]) ==> p <= o) || TopRevision(log, o)
  {
    if forall p :: p in Peers(log, log[o]) ==> p <= o {
      forall p | p in log && log[p].app == log[o].app && (log[o].app.Some? || log[p].creator == log[o].creator) ensures p <= o {
        assert p in Peers(log, log[o]);
      }
    }
  }

  lemma IsMax(s: set<nat>, x: nat)
    requires x in s
    ensures x == MaxOf(s) <==> forall y :: y in s ==> y <= x
  {
  }

  lemma TopIsGreatest(log: Log, o: nat)
    requires o in log && log[o].app.None? && log[o].body.TemplateChanged?
    ensures TopRevision(log, o) <==> forall v :: v in Revisions(log, log[o].creator, log[o].body.templateId) ==> v <= log[o].body.rev
  {
    var revs := Revisions(log, log[o].creator, log[o].body.templateId);
    if forall v :: v in revs ==> v <= log[o].body.rev {
      forall p | p in log && SameTemplate(log[p], log[o]) ensures log[p].body.rev <= log[o].body.rev {
        assert log[p].body.rev in revs;
      }
    }
  }

  class EventStore {
    var apps: map<string, App>
    var members: map<MemberKey, Member>
    const structure: StructureStore
    var log: Log
    var nextOrdinal: nat

    constructor ()
      ensures fresh(structure)
      ensures View() == Space(Tables(map[], map[], Rows(map[], map[])), map[], 1)
    {
      apps, members, log, nextOrdinal := map[], map[], map[], 1;
      structure := new StructureStore();
    }

    ghost function View(): Space
      reads this, structure
    {
      Space(Tables(apps, members, structure.View()), log, nextOrdinal)
    }

    method FindOrdinal(id: string) returns (found: Option<nat>)
      ensures found.None? <==> !HasId(log, id)
      ensures found.Some? ==> found.value in log && log[found.value].id == id
    {
      var todo := log.Keys;
      while todo != {}
        invariant todo <= log.Keys
        invariant forall o :: o in log && o !in todo ==> log[o].id != id
      {
        var o :| o in todo;
        if log[o].id == id {
          return Some(o);
        }
        todo := todo - {o};
      }
      return None;
    }

    method GetByID(id: string) returns (r: Option<Row>)
      requires UniqueIds(log)
      ensures r == RowOf(log, id)
    {
      var found := FindOrdinal(id);
      r := if found.Some? then Some(log[found.value]) else None;
    }

    method GetNextSequence(app: string) returns (n: nat)
      ensures n == NextSequence(View(), app)
    {
      var maxSeq := if app in apps then apps[app].lastSequence else 0;
      ghost var mark := maxSeq;
      var todo := log.Keys;
      while todo != {}
        invariant todo <= log.Keys
        invariant maxSeq in Numbers(log, app) + {mark}
        invariant mark <= maxSeq
        invariant forall o :: o in log && o !in todo && log[o].app == Some(app) ==> log[o].seqNo <= maxSeq
      {
        var o :| o in todo;
        if log[o].app == Some(app) && maxSeq < log[o].seqNo {
          maxSeq := log[o].seqNo;
        }
        todo := todo - {o};
      }
      n := maxSeq + 1;
    }

    method FindActive(app: string, key: string, now: int) returns (found: bool)
      ensures found <==> FindMember(View().tables, app, key, now).Some?
    {
      var k := MemberKey(app, key);
      found := k in members && Active(members[k], now);
    }

    method CanSee(r: Row, user: string, now: int) returns (visible: bool)
      ensures visible <==> Visible(View().tables, r, user, now)
    {
      if r.app.Some? {
        visible := FindActive(r.app.value, user, now);
      } else {
        visible := r.creator == user;
      }
    }

    method ExecuteEvent(app: string, b: Body, now: int) returns (err: Option<ExecError>)
      requires app in apps
      modifies this`apps, this`members, structure
      ensures app in apps
      ensures ExecBody(old(View().tables), app, b, now).Ok? <==> err.None?
      ensures err.None? ==> ExecBody(old(View().tables), app, b, now) == Ok(View().tables)
      ensures err.Some? ==> ExecBody(old(View().tables), app, b, now) == Err(err.value)
    {
      err := None;
      match b {
        case MemberAdded(key, role, expiresAt, _) =>
          members := members[MemberKey(app, key) := Member(role, expiresAt)];
        case MemberRemoved(key) =>
          var found := FindActive(app, key, now);
          if found {
            members := members - {MemberKey(app, key)};
          }
        case MemberRoleChanged(key, _, newRole) =>
          var found := FindActive(app, key, now);
          if !found {
            return Some(Unappliable);
          }
          var k := MemberKey(app, key);
          members := members[k := members[k].(role := newRole)];
        case ApplicationDataChanged(name) =>
          if apps[app].deleted {
            return Some(Internal);
          }
          apps := apps[app := apps[app].(name := name)];
        case ApplicationDeleted =>
          apps := apps[app := apps[app].(deleted := true)];
        case ComponentEdited(id, changedFields) =>
          if id == "" {
            return Some(Invalid);
          }
          err := structure.ApplyDelta(app, id, changedFields, Invalid);
        case EditModeChanged(changes) =>
          err := structure.ExecuteEdit(app, changes);
        case _ =>
      }
    }

    method UpdateAppVersion(app: string, seqNo: nat)
      requires app in apps
      modifies this`apps
      ensures View().tables == RaiseMark(old(View().tables), app, seqNo)
    {
      if !apps[app].deleted && apps[app].lastSequence < seqNo {
        apps := apps[app := apps[app].(lastSequence := seqNo)];
      }
    }

    /** One transaction: on an error after the insert, every table is put back; the ordinal that was drawn stays drawn. */
    method PersistAndApply(e: Event, now: int) returns (out: Outcome)
      requires WellFormed(View())
      modifies this, structure
      ensures (View(), out) == Persist(old(View()), e, now)
    {
      if e.app.Some? {
        if e.app.value !in apps || (apps[e.app.value].deleted && !e.body.ApplicationMoved?) {
          return Rejected(Unappliable);
        }
      }
      var stored := GetByID(e.id);
      if stored.Some? {
        return if IsRetryOf(stored.value, e) then Duplicate(stored.value) else Rejected(Unappliable);
      }
      var seqNo := 0;
      if e.app.Some? {
        seqNo := GetNextSequence(e.app.value);
      }
      var apps0, members0, log0, groups0, components0 := apps, members, log, structure.groups, structure.components;
      var row := Row(e.id, now, e.app, seqNo, e.creator, e.body);
      log := log[nextOrdinal := row];
      nextOrdinal := nextOrdinal + 1;
      if e.app.Some? {
        var err := ExecuteEvent(e.app.value, e.body, now);
        if err.Some? {
          apps, members, log := apps0, members0, log0;
          structure.groups, structure.components := groups0, components0;
          return Rejected(err.value);
        }
        UpdateAppVersion(e.app.value, seqNo);
      }
      return Stored(row);
    }

    method DeleteOlderThan(cutoff: int) returns (removed: nat)
      modifies this`log
      ensures log == Pruned(old(log), cutoff)
      ensures removed == |old(log)| - |log|
    {
      var kept := map o | o in log && (log[o].createdAt >= cutoff || Anchor(log, o)) :: log[o];
      SubsetCardinality(kept.Keys, log.Keys);
      removed := |log| - |kept|;
      log := kept;
    }

    /** The first `n + 1` visible rows after ordinal `c`, or all of them. */
    method Scan(user: string, now: int, c: nat, n: nat) returns (listed: seq<nat>)
      ensures listed <= Listing(View(), user, now, c)
      ensures |listed| <= n ==> listed == Listing(View(), user, now, c)
      ensures |listed| <= n + 1
    {
      hide Visible;
      listed := [];
      var o := c;
      ghost var s := View();
      while |listed| <= n && o + 1 < nextOrdinal
        invariant c <= o && |listed| <= n + 1
        invariant Listing(s, user, now, c) == listed + Listing(s, user, now, o)
        decreases nextOrdinal - o
      {
        ghost var rest := Listing(s, user, now, o + 1);
        assert Listing(s, user, now, o) == (if o + 1 in log && Visible(s.tables, log[o + 1], user, now) then [o + 1] + rest else rest);
        o := o + 1;
        if o in log {
          var visible := CanSee(log[o], user, now);
          if visible {
            listed := listed + [o];
          }
        }
      }
    }

    /** Nothing when the cursor's row is gone: the client has to start over. */
    method GetSince(user: string, since: string, limit: int, now: int) returns (page: Option<Page>, rows: seq<Row>)
      requires WellFormed(View())
      ensures page.None? <==> CursorOrdinal(log, since).None?
      ensures page.Some? ==> page.value == PageAt(View(), user, now, CursorOrdinal(log, since).value, limit)
      ensures if page.None? then rows == []
              else (forall o :: o in page.value.ordinals ==> o in log) && rows == RowsAt(log, page.value.ordinals)
    {
      hide Listing, Visible, PageLimit;
      var cursor := Some(0);
      if since != "" {
        cursor := FindOrdinal(since);
        if cursor.None? {
          return None, [];
        }
      }
      var n := PageLimit(limit);
      var listed := Scan(user, now, cursor.value, n);
      ListingIsExact(View(), user, now, cursor.value);
      ghost var all := Listing(View(), user, now, cursor.value);
      var hasMore := |listed| > n;
      if hasMore {
        listed := listed[..n];
        assert listed == all[..n];
      }
      assert forall o :: o in listed ==> o in all;
      page, rows := Some(Page(listed, hasMore)), RowsAt(log, listed);
    }
  }
}
