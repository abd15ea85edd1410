/**
  The tables are what the log says: components, members and applications read off the
  stored events, the registrations and the moves of a run, last word first, without
  going through the handlers.
*/
module Replay {
  import opened Common
  import opened Structure
  import opened Registration
  import opened Events
  import opened EventStore
  import opened EventRuns

  /** What a run leaves behind it. */
  datatype Entry =
    | Logged(row: Row)
    | Enrolled(app: string, name: string, groups: seq<GroupIn>)
    | Left(app: string)

  predicate RegistrationTakes(t: Tables, app: string, name: string, groups: seq<GroupIn>) {
    app != "" && name != "" && '\0' !in app && '\0' !in name && RegisterRows(t.rows, app, groups).Ok?
  }

  ghost function EntryOf(w: World, a: Action): seq<Entry> {
    match a
    case Submit(e, now) =>
      if ValidEvent(e) && Persist(w.space, e, now).1.Stored? then [Logged(Persist(w.space, e, now).1.row)] else []
    case Prune(_) => []
    case Register(app, name, groups) =>
      if RegistrationTakes(w.space.tables, app, name, groups) then [Enrolled(app, name, groups)] else []
    case Move(app) => if CanMove(w.space, app) then [Left(app)] else []
  }

  ghost function Entries(w: World, actions: seq<Action>): seq<Entry>
    decreases |actions|
  {
    if actions == [] then [] else EntryOf(w, actions[0]) + Entries(Step(w, actions[0]), actions[1..])
  }

  // ----- components -----

  /** What is written to a component: all of it, its place, or some fields of its data. */
  datatype Write = Whole(groupId: string, name: string, index: int, data: Data) | Place(index: int) | Fields(delta: map<string, FieldChange>)

  function ChangeWrites(c: Change, id: string): seq<Write> {
    if c.changeType == ComponentAdded && c.data.Some? && c.data.value.id == id then
      var d := c.data.value;
      [Whole(d.groupId, d.name, if d.index.Some? then d.index.value else 0, if d.data.Some? then d.data.value else map[])]
    else if c.changeType == ComponentReordered && c.entityId == id then [Place(if c.index.Some? then c.index.value else 0)]
    else if c.changeType == ComponentDataChanged && c.entityId == id && c.changedFields.Some? then [Fields(c.changedFields.value)]
    else []
  }

  function ChangesWrites(cs: seq<Change>, id: string): seq<Write>
    decreases |cs|
  {
    if cs == [] then [] else ChangeWrites(cs[0], id) + ChangesWrites(cs[1..], id)
  }

  function ComponentsWrites(groupId: string, cs: seq<ComponentIn>, id: string): seq<Write>
    decreases |cs|
  {
    if cs == [] then []
    else
      (if cs[0].id == id then [Whole(groupId, cs[0].name, cs[0].index, cs[0].data)] else []) + ComponentsWrites(groupId, cs[1..], id)
  }

  function GroupsWrites(gs: seq<GroupIn>, id: string): seq<Write>
    decreases |gs|
  {
    if gs == [] then [] else ComponentsWrites(gs[0].id, gs[0].components, id) + GroupsWrites(gs[1..], id)
  }

  /** What an entry writes to component `id` of `app`; a registration writes by id alone. */
  function EntryWrites(e: Entry, app: string, id: string): seq<Write> {
    match e
    case Logged(row) =>
      if row.app != Some(app) then []
      else if row.body.EditModeChanged? then ChangesWrites(row.body.changes, id)
      else if row.body.ComponentEdited? && row.body.componentId == id && row.body.changedFields.Some? then
        [Fields(row.body.changedFields.value)]
      else []
    case Enrolled(_, _, groups) => GroupsWrites(groups, id)
    case Left(_) => []
  }

  function Writes(entries: seq<Entry>, app: string, id: string): seq<Write>
    decreases |entries|
  {
    if entries == [] then []
    else Writes(Front(entries), app, id) + EntryWrites(Last(entries), app, id)
  }

  /** The field's value by the last write that names it, back to the last time the component was written whole. */
  function LastField(ws: seq<Write>, f: string): Option<Json>
    decreases |ws|
  {
    if ws == [] then None
    else
      match Last(ws)
      case Whole(_, _, _, data) => if f in data then Some(data[f]) else None
      case Place(_) => LastField(Front(ws), f)
      case Fields(delta) => if f in delta && delta[f].NewValue? then Some(delta[f].value) else LastField(Front(ws), f)
  }

  function LastPlace(ws: seq<Write>): Option<int>
    decreases |ws|
  {
    if ws == [] then None
    else
      match Last(ws)
      case Whole(_, _, index, _) => Some(index)
      case Place(index) => Some(index)
      case Fields(_) => LastPlace(Front(ws))
  }

  /** Group and name by the last time the component was written whole. */
  function LastWhole(ws: seq<Write>): Option<(string, string)>
    decreases |ws|
  {
    if ws == [] then None
    else if Last(ws).Whole? then Some((Last(ws).groupId, Last(ws).name))
    else LastWhole(Front(ws))
  }

  function Field(data: Data, f: string): Option<Json> {
    if f in data then Some(data[f]) else None
  }

  /** The component is as the writes say. */
  ghost predicate Told(k: Component, ws: seq<Write>) {
    && LastWhole(ws) == Some((k.groupId, k.name)) && LastPlace(ws) == Some(k.index)
    && forall f :: Field(k.data, f) == LastField(ws, f)
  }

  ghost predicate ToldIn(r: Rows, app: string, id: string, ws: seq<Write>) {
    ComponentInApp(r, app, id) ==> Told(r.components[id], ws)
  }

  lemma ToldWhole(k: Component, ws: seq<Write>)
    ensures Told(k, ws + [Whole(k.groupId, k.name, k.index, k.data)])
  {
    LastOfAppended(ws, Whole(k.groupId, k.name, k.index, k.data));
  }

  lemma ToldPlace(k: Component, ws: seq<Write>, index: int)
    requires Told(k, ws)
    ensures Told(k.(index := index), ws + [Place(index)])
  {
    LastOfAppended(ws, Place(index));
  }

  lemma ToldFields(k: Component, k': Component, ws: seq<Write>, delta: map<string, FieldChange>)
    requires Told(k, ws) && k' == k.(data := k'.data)
    requires forall f :: if f in delta && delta[f].NewValue? then Field(k'.data, f) == Some(delta[f].value) else Field(k'.data, f) == Field(k.data, f)
    ensures Told(k', ws + [Fields(delta)])
  {
    LastOfAppended(ws, Fields(delta));
  }

  lemma ChangeTold(r: Rows, app: string, c: Change, id: string, ws: seq<Write>)
    requires ToldIn(r, app, id, ws) && Exec(r, app, c).Ok?
    ensures ToldIn(Exec(r, app, c).value, app, id, ws + ChangeWrites(c, id))
  {
    hide Told;
    var r' := Exec(r, app, c).value;
    assert ws + [] == ws;
    if ComponentInApp(r', app, id) {
      var k' := r'.components[id];
      if c.changeType == ComponentAdded && c.data.value.id == id {
        ToldWhole(k', ws);
      } else if c.changeType == ComponentReordered && c.entityId == id {
        ToldPlace(r.components[id], ws, k'.index);
      } else if c.changeType == ComponentDataChanged && c.entityId == id {
        DataChangeSetsFields(r, app, c);
        ToldFields(r.components[id], k', ws, c.changedFields.value);
      } else {
        assert ComponentInApp(r, app, id) && k' == r.components[id];
      }
    }
  }

  lemma {:induction false} ChangesTold(r: Rows, app: string, cs: seq<Change>, id: string, ws: seq<Write>)
    requires ToldIn(r, app, id, ws) && ExecAll(r, app, cs).Ok?
    ensures ToldIn(ExecAll(r, app, cs).value, app, id, ws + ChangesWrites(cs, id))
    decreases |cs|
  {
    hide ToldIn, Exec;
    if cs == [] {
      assert ws + [] == ws;
    } else {
      ChangeTold(r, app, cs[0], id, ws);
      var first := ChangeWrites(cs[0], id);
      assert ws + ChangesWrites(cs, id) == (ws + first) + ChangesWrites(cs[1..], id);
      ChangesTold(Exec(r, app, cs[0]).value, app, cs[1..], id, ws + first);
    }
  }

  /** An edit of one application does not write to another's components, though it may take one away. */
  lemma {:induction false} ChangesSpare(r: Rows, app: string, cs: seq<Change>, other: string, id: string)
    requires other != app && ExecAll(r, app, cs).Ok?
    ensures
      var r' := ExecAll(r, app, cs).value;
      && (ComponentInApp(r', other, id) ==> ComponentInApp(r, other, id) && r'.components[id] == r.components[id])
      && (GroupInApp(r', other, id) ==> GroupInApp(r, other, id) && r'.groups[id] == r.groups[id])
    decreases |cs|
  {
    if cs != [] {
      ChangesSpare(Exec(r, app, cs[0]).value, app, cs[1..], other, id);
    }
  }

  lemma {:induction false} ComponentsTold(r: Rows, b: string, groupId: string, cs: seq<ComponentIn>, app: string, id: string, ws: seq<Write>)
    requires ToldIn(r, app, id, ws) && PutComponents(r, b, groupId, cs).Ok?
    ensures ToldIn(PutComponents(r, b, groupId, cs).value, app, id, ws + ComponentsWrites(groupId, cs, id))
    decreases |cs|
  {
    hide Told;
    if cs == [] {
      assert ws + [] == ws;
    } else {
      var c := cs[0];
      var r1 := PutComponent(r, b, groupId, c).value;
      var ws1 := if c.id == id then ws + [Whole(groupId, c.name, c.index, c.data)] else ws;
      ToldWhole(r1.components[c.id], ws);
      assert ws + ComponentsWrites(groupId, cs, id) == ws1 + ComponentsWrites(groupId, cs[1..], id);
      ComponentsTold(r1, b, groupId, cs[1..], app, id, ws1);
    }
  }

  lemma {:induction false} GroupsTold(r: Rows, b: string, gs: seq<GroupIn>, app: string, id: string, ws: seq<Write>)
    requires ToldIn(r, app, id, ws) && PutGroups(r, b, gs).Ok?
    ensures ToldIn(PutGroups(r, b, gs).value, app, id, ws + GroupsWrites(gs, id))
    decreases |gs|
  {
    hide Told, PutComponents, ComponentsWrites, Storable;
    if gs == [] {
      assert ws + [] == ws;
    } else {
      var g := gs[0];
      var r1 := PutGroup(r, b, g).value;
      assert r1.components == r.components;
      ComponentsTold(r1, b, g.id, g.components, app, id, ws);
      var ws1 := ws + ComponentsWrites(g.id, g.components, id);
      assert ws + GroupsWrites(gs, id) == ws1 + GroupsWrites(gs[1..], id);
      GroupsTold(PutComponents(r1, b, g.id, g.components).value, b, gs[1..], app, id, ws1);
    }
  }

  lemma BodyTold(t: Tables, row: Row, now: int, app: string, id: string, ws: seq<Write>)
    requires row.app.Some? && row.app.value in t.apps && ExecBody(t, row.app.value, row.body, now).Ok?
    requires ToldIn(t.rows, app, id, ws)
    ensures ToldIn(ExecBody(t, row.app.value, row.body, now).value.rows, app, id, ws + EntryWrites(Logged(row), app, id))
  {
    hide Told;
    assert ws + [] == ws;
    var b, t' := row.app.value, ExecBody(t, row.app.value, row.body, now).value;
    match row.body {
      case EditModeChanged(changes) =>
        if b == app {
          ChangesTold(t.rows, app, changes, id, ws);
        } else {
          ChangesSpare(t.rows, b, changes, app, id);
        }
      case ComponentEdited(k, delta) =>
        EditSetsFields(t, b, k, delta, now);
        if k == id && b == app && ComponentInApp(t.rows, app, id) {
          ToldFields(t.rows.components[id], t'.rows.components[id], ws, delta.value);
        }
      case _ =>
    }
  }

  lemma StepTold(w: World, a: Action, app: string, id: string, ws: seq<Write>)
    requires ToldIn(w.space.tables.rows, app, id, ws)
    ensures ToldIn(Step(w, a).space.tables.rows, app, id, ws + Writes(EntryOf(w, a), app, id))
  {
    hide Told, EntryWrites;
    assert ws + [] == ws;
    assert forall e :: [e][..0] == [] && Writes([e], app, id) == EntryWrites(e, app, id);
    match a
    case Submit(e, now) => SubmitTold(w.space, e, now, app, id, ws);
    case Prune(_) =>
    case Register(b, name, groups) =>
      if RegistrationTakes(w.space.tables, b, name, groups) {
        GroupsTold(w.space.tables.rows, b, groups, app, id, ws);
        EnrolledWrites(b, name, groups, app, id);
      }
    case Move(b) =>
      EnrolledWrites(b, "", [], app, id);
  }

  lemma EnrolledWrites(b: string, name: string, groups: seq<GroupIn>, app: string, id: string)
    ensures EntryWrites(Enrolled(b, name, groups), app, id) == GroupsWrites(groups, id)
    ensures EntryWrites(Left(b), app, id) == []
  {
  }

  lemma SubmitTold(s: Space, e: Event, now: int, app: string, id: string, ws: seq<Write>)
    requires ToldIn(s.tables.rows, app, id, ws)
    ensures
      var (s', out) := Persist(s, e, now);
      if out.Stored? then ToldIn(s'.tables.rows, app, id, ws + EntryWrites(Logged(out.row), app, id)) else s'.tables == s.tables
  {
    hide Told, ExecBody, EntryWrites;
    var (s', out) := Persist(s, e, now);
    if out.Stored? {
      if e.app.Some? {
        BodyTold(s.tables, out.row, now, app, id, ws);
      } else {
        UserScopedWrites(out.row, app, id);
        assert ws + [] == ws;
      }
    }
  }

  lemma UserScopedWrites(row: Row, app: string, id: string)
    requires row.app.None?
    ensures EntryWrites(Logged(row), app, id) == []
  {
  }

  lemma {:induction false} WritesConcat(a: seq<Entry>, b: seq<Entry>, app: string, id: string)
    ensures Writes(a + b, app, id) == Writes(a, app, id) + Writes(b, app, id)
    decreases |b|
  {
    hide EntryWrites;
    if b == [] {
      assert a + b == a;
    } else {
      assert Last(a + b) == Last(b);
      assert (a + b)[..|a + b| - 1] == a + b[..|b| - 1];
      WritesConcat(a, b[..|b| - 1], app, id);
    }
  }

  lemma {:induction false} RunTold(w: World, actions: seq<Action>, app: string, id: string, ws: seq<Write>)
    requires ToldIn(w.space.tables.rows, app, id, ws)
    ensures ToldIn(Run(w, actions).space.tables.rows, app, id, ws + Writes(Entries(w, actions), app, id))
    decreases |actions|
  {
    hide ToldIn, Step, EntryOf, EntryWrites;
    if actions == [] {
      assert ws + [] == ws;
    } else {
      var first, rest := EntryOf(w, actions[0]), Entries(Step(w, actions[0]), actions[1..]);
      StepTold(w, actions[0], app, id, ws);
      WritesConcat(first, rest, app, id);
      assert ws + Writes(first + rest, app, id) == (ws + Writes(first, app, id)) + Writes(rest, app, id);
      RunTold(Step(w, actions[0]), actions[1..], app, id, ws + Writes(first, app, id));
    }
  }

  /**
    Over every run, a component is what the log says: its group and name are those it
    was last written whole with, its place the last one it was given, and every field
    of its data has the value of the last stored change that names it since then.
  */
  lemma ComponentsFollowLog(actions: seq<Action>, id: string)
    ensures
      var components := Run(START, actions).space.tables.rows.components;
      id in components ==>
        var k := components[id];
        var ws := Writes(Entries(START, actions), k.appId, id);
        && LastWhole(ws) == Some((k.groupId, k.name)) && LastPlace(ws) == Some(k.index)
        && forall f :: Field(k.data, f) == LastField(ws, f)
  {
    hide Writes, LastField, LastPlace, LastWhole;
    var components := Run(START, actions).space.tables.rows.components;
    if id in components {
      var app := components[id].appId;
      RunTold(START, actions, app, id, []);
      assert [] + Writes(Entries(START, actions), app, id) == Writes(Entries(START, actions), app, id);
    }
  }

  /** The stored events among the entries are exactly the rows ever stored. */
  lemma {:induction false} LoggedAreStored(w: World, actions: seq<Action>, row: Row)
    requires Sound(w)
    ensures row in Run(w, actions).history.Values <==> row in w.history.Values || Logged(row) in Entries(w, actions)
    decreases |actions|
  {
    hide Step, EntryOf, Sound;
    if actions != [] {
      StepSound(w, actions[0]);
      StepLogs(w, actions[0], row);
      LoggedAreStored(Step(w, actions[0]), actions[1..], row);
    }
  }

  lemma StepLogs(w: World, a: Action, row: Row)
    requires Sound(w)
    ensures row in Step(w, a).history.Values <==> row in w.history.Values || Logged(row) in EntryOf(w, a)
  {
    hide Persist;
    var w' := Step(w, a);
    if a.Submit? && ValidEvent(a.event) && Persist(w.space, a.event, a.now).1.Stored? {
      var o, stored := w.space.nextOrdinal, Persist(w.space, a.event, a.now).1.row;
      assert w'.history == w.history[o := stored] && w'.history[o] == stored;
      if row in w.history.Values {
        var p :| p in w.history && w.history[p] == row;
        assert w'.history[p] == row;
      }
    }
  }

  // ----- groups -----

  /** What is written to a group: its name, its place, or both. */
  datatype GroupWrite = GroupWrite(name: Option<string>, index: Option<int>)

  function GroupChangeWrites(c: Change, id: string): seq<GroupWrite> {
    if c.changeType == GroupAdded && c.data.Some? && c.data.value.id == id then
      [GroupWrite(Some(c.data.value.name), Some(if c.data.value.index.Some? then c.data.value.index.value else 0))]
    else if c.changeType == GroupReordered && c.entityId == id then
      [GroupWrite(None, Some(if c.index.Some? then c.index.value else 0))]
    else if c.changeType == GroupChanged && c.entityId == id && c.data.Some? then
      [GroupWrite(if c.data.value.name != "" then Some(c.data.value.name) else None, c.data.value.index)]
    else []
  }

  function GroupChangesWrites(cs: seq<Change>, id: string): seq<GroupWrite>
    decreases |cs|
  {
    if cs == [] then [] else GroupChangeWrites(cs[0], id) + GroupChangesWrites(cs[1..], id)
  }

  function GroupRequestWrites(gs: seq<GroupIn>, id: string): seq<GroupWrite>
    decreases |gs|
  {
    if gs == [] then []
    else (if gs[0].id == id then [GroupWrite(Some(gs[0].name), Some(gs[0].index))] else []) + GroupRequestWrites(gs[1..], id)
  }

  function GroupEntryWrites(e: Entry, app: string, id: string): seq<GroupWrite> {
    match e
    case Logged(row) => if row.app == Some(app) && row.body.EditModeChanged? then GroupChangesWrites(row.body.changes, id) else []
    case Enrolled(_, _, groups) => GroupRequestWrites(groups, id)
    case Left(_) => []
  }

  function GroupWritesOf(entries: seq<Entry>, app: string, id: string): seq<GroupWrite>
    decreases |entries|
  {
    if entries == [] then []
    else GroupWritesOf(Front(entries), app, id) + GroupEntryWrites(Last(entries), app, id)
  }

  function LastName(ws: seq<GroupWrite>): Option<string>
    decreases |ws|
  {
    if ws == [] then None else if Last(ws).name.Some? then Last(ws).name else LastName(Front(ws))
  }

  function LastIndex(ws: seq<GroupWrite>): Option<int>
    decreases |ws|
  {
    if ws == [] then None else if Last(ws).index.Some? then Last(ws).index else LastIndex(Front(ws))
  }

  ghost predicate GroupTold(r: Rows, app: string, id: string, ws: seq<GroupWrite>) {
    GroupInApp(r, app, id) ==> LastName(ws) == Some(r.groups[id].name) && LastIndex(ws) == Some(r.groups[id].index)
  }

  lemma LastAfter(ws: seq<GroupWrite>, w: GroupWrite)
    ensures LastName(ws + [w]) == if w.name.Some? then w.name else LastName(ws)
    ensures LastIndex(ws + [w]) == if w.index.Some? then w.index else LastIndex(ws)
  {
    LastOfAppended(ws, w);
  }

  lemma GroupChangeTold(r: Rows, app: string, c: Change, id: string, ws: seq<GroupWrite>)
    requires GroupTold(r, app, id, ws) && Exec(r, app, c).Ok?
    ensures GroupTold(Exec(r, app, c).value, app, id, ws + GroupChangeWrites(c, id))
  {
    hide LastName, LastIndex, Storable;
    assert ws + [] == ws;
    var now := GroupChangeWrites(c, id);
    if now != [] {
      LastAfter(ws, now[0]);
    }
  }

  lemma {:induction false} GroupChangesTold(r: Rows, app: string, cs: seq<Change>, id: string, ws: seq<GroupWrite>)
    requires GroupTold(r, app, id, ws) && ExecAll(r, app, cs).Ok?
    ensures GroupTold(ExecAll(r, app, cs).value, app, id, ws + GroupChangesWrites(cs, id))
    decreases |cs|
  {
    hide GroupTold, Exec;
    if cs == [] {
      assert ws + [] == ws;
    } else {
      GroupChangeTold(r, app, cs[0], id, ws);
      var first := GroupChangeWrites(cs[0], id);
      assert ws + GroupChangesWrites(cs, id) == (ws + first) + GroupChangesWrites(cs[1..], id);
      GroupChangesTold(Exec(r, app, cs[0]).value, app, cs[1..], id, ws + first);
    }
  }

  lemma {:induction false} ComponentsKeepGroups(r: Rows, owner: string, groupId: string, cs: seq<ComponentIn>)
    requires PutComponents(r, owner, groupId, cs).Ok?
    ensures PutComponents(r, owner, groupId, cs).value.groups == r.groups
    decreases |cs|
  {
    if cs != [] {
      ComponentsKeepGroups(PutComponent(r, owner, groupId, cs[0]).value, owner, groupId, cs[1..]);
    }
  }

  lemma {:induction false} GroupRequestTold(r: Rows, owner: string, gs: seq<GroupIn>, app: string, id: string, ws: seq<GroupWrite>)
    requires GroupTold(r, app, id, ws) && PutGroups(r, owner, gs).Ok?
    ensures GroupTold(PutGroups(r, owner, gs).value, app, id, ws + GroupRequestWrites(gs, id))
    decreases |gs|
  {
    hide LastName, LastIndex;
    if gs == [] {
      assert ws + [] == ws;
    } else {
      var g := gs[0];
      var r1 := PutGroup(r, owner, g).value;
      ComponentsKeepGroups(r1, owner, g.id, g.components);
      var ws1 := if g.id == id then ws + [GroupWrite(Some(g.name), Some(g.index))] else ws;
      LastAfter(ws, GroupWrite(Some(g.name), Some(g.index)));
      assert ws + GroupRequestWrites(gs, id) == ws1 + GroupRequestWrites(gs[1..], id);
      GroupRequestTold(PutComponents(r1, owner, g.id, g.components).value, owner, gs[1..], app, id, ws1);
    }
  }

  lemma GroupBodyTold(t: Tables, row: Row, now: int, app: string, id: string, ws: seq<GroupWrite>)
    requires row.app.Some? && row.app.value in t.apps && ExecBody(t, row.app.value, row.body, now).Ok?
    requires GroupTold(t.rows, app, id, ws)
    ensures GroupTold(ExecBody(t, row.app.value, row.body, now).value.rows, app, id, ws + GroupEntryWrites(Logged(row), app, id))
  {
    hide LastName, LastIndex;
    assert ws + [] == ws;
    match row.body {
      case EditModeChanged(changes) =>
        if row.app.value == app {
          GroupChangesTold(t.rows, app, changes, id, ws);
        } else {
          ChangesSpare(t.rows, row.app.value, changes, app, id);
        }
      case ComponentEdited(k, delta) =>
        EditSetsFields(t, row.app.value, k, delta, now);
      case _ =>
    }
  }

  lemma StepGroupTold(w: World, a: Action, app: string, id: string, ws: seq<GroupWrite>)
    requires GroupTold(w.space.tables.rows, app, id, ws)
    ensures
      var es := EntryOf(w, a);
      && |es| <= 1
      && GroupTold(Step(w, a).space.tables.rows, app, id, if es == [] then ws else ws + GroupEntryWrites(es[0], app, id))
  {
    hide ExecBody, LastName, LastIndex;
    assert ws + [] == ws;
    match a
    case Submit(e, now) =>
      var out := Persist(w.space, e, now).1;
      if ValidEvent(e) && out.Stored? && e.app.Some? {
        GroupBodyTold(w.space.tables, out.row, now, app, id, ws);
      }
    case Prune(_) =>
    case Register(owner, name, groups) =>
      if RegistrationTakes(w.space.tables, owner, name, groups) {
        GroupRequestTold(w.space.tables.rows, owner, groups, app, id, ws);
      }
    case Move(_) =>
  }

  /** `Entries` grows at its end. */
  lemma {:induction false} EntriesGrow(w: World, actions: seq<Action>)
    requires actions != []
    ensures Run(w, actions) == Step(Run(w, Front(actions)), Last(actions))
    ensures Entries(w, actions) == Entries(w, Front(actions)) + EntryOf(Run(w, Front(actions)), Last(actions))
    decreases |actions|
  {
    hide Step, EntryOf;
    if |actions| == 1 {
      assert actions[1..] == [] && Front(actions) == [];
    } else {
      var w1 := Step(w, actions[0]);
      EntriesGrow(w1, actions[1..]);
      assert Front(actions)[1..] == Front(actions[1..]) && Last(actions[1..]) == Last(actions);
    }
  }

  /** Over every run, a group's name and place are those it was last given. */
  lemma {:induction false} GroupsFollowLog(actions: seq<Action>, app: string, id: string)
    ensures
      var groups := Run(START, actions).space.tables.rows.groups;
      var ws := GroupWritesOf(Entries(START, actions), app, id);
      id in groups && groups[id].appId == app ==>
        LastName(ws) == Some(groups[id].name) && LastIndex(ws) == Some(groups[id].index)
    decreases |actions|
  {
    hide Step, EntryOf, GroupEntryWrites, LastName, LastIndex;
    if actions != [] {
      var before, es := Front(actions), Entries(START, Front(actions));
      GroupsFollowLog(before, app, id);
      StepGroupTold(Run(START, before), Last(actions), app, id, GroupWritesOf(es, app, id));
      EntriesGrow(START, actions);
      var now := EntryOf(Run(START, before), Last(actions));
      if now == [] {
        assert es + now == es;
      } else {
        assert now == [now[0]];
        LastOfAppended(es, now[0]);
      }
    }
  }

  // ----- members -----

  /** The member row an application has for a key, by the last stored event about it. */
  function MemberBy(entries: seq<Entry>, k: MemberKey): Option<Member>
    decreases |entries|
  {
    if entries == [] then None
    else
      var before := MemberBy(Front(entries), k);
      if !Last(entries).Logged? || Last(entries).row.app != Some(k.app) then before
      else
        var row := Last(entries).row;
        match row.body
        case MemberAdded(key, role, expiresAt, _) => if key == k.key then Some(Member(role, expiresAt)) else before
        case MemberRemoved(key) =>
          // a row that has run out is not found, and stays
          if key == k.key && before.Some? && (before.value.expiresAt.Some? ==> row.createdAt < before.value.expiresAt.value) then None
          else before
        case MemberRoleChanged(key, _, newRole) =>
          if key == k.key && before.Some? then Some(Member(newRole, before.value.expiresAt)) else before
        case _ => before
  }

  function RowAt<K, V>(m: map<K, V>, k: K): Option<V> {
    if k in m then Some(m[k]) else None
  }

  lemma BodyMember(t: Tables, row: Row, es: seq<Entry>, k: MemberKey)
    requires row.app.Some? && row.app.value in t.apps && ExecBody(t, row.app.value, row.body, row.createdAt).Ok?
    requires RowAt(t.members, k) == MemberBy(es, k)
    ensures RowAt(ExecBody(t, row.app.value, row.body, row.createdAt).value.members, k) == MemberBy(es + [Logged(row)], k)
  {
    LastOfAppended(es, Logged(row));
    match row.body {
      case MemberAdded(_, _, _, _) =>
      case MemberRemoved(_) =>
      case MemberRoleChanged(_, _, _) =>
      case _ =>
        assert ExecBody(t, row.app.value, row.body, row.createdAt).value.members == t.members;
    }
  }

  lemma OtherEntryMember(es: seq<Entry>, e: Entry, k: MemberKey)
    requires e.Logged? ==> e.row.app.None?
    ensures MemberBy(es + [e], k) == MemberBy(es, k)
  {
    LastOfAppended(es, e);
  }

  lemma StepMember(w: World, a: Action, es: seq<Entry>, k: MemberKey)
    requires RowAt(w.space.tables.members, k) == MemberBy(es, k)
    ensures RowAt(Step(w, a).space.tables.members, k) == MemberBy(es + EntryOf(w, a), k)
  {
    hide ExecBody, MemberBy;
    assert es + [] == es;
    match a
    case Submit(e, now) =>
      var out := Persist(w.space, e, now).1;
      if ValidEvent(e) && out.Stored? {
        if e.app.Some? {
          BodyMember(w.space.tables, out.row, es, k);
        } else {
          OtherEntryMember(es, Logged(out.row), k);
        }
      }
    case Prune(_) =>
    case Register(app, name, groups) => OtherEntryMember(es, Enrolled(app, name, groups), k);
    case Move(app) => OtherEntryMember(es, Left(app), k);
  }

  /** Over every run, the members of every application are exactly those the stored events say. */
  lemma {:induction false} MembersFollowLog(actions: seq<Action>, k: MemberKey)
    ensures RowAt(Run(START, actions).space.tables.members, k) == MemberBy(Entries(START, actions), k)
    decreases |actions|
  {
    hide Step, EntryOf;
    if actions != [] {
      MembersFollowLog(Front(actions), k);
      StepMember(Run(START, Front(actions)), Last(actions), Entries(START, Front(actions)), k);
      EntriesGrow(START, actions);
    }
  }

  // ----- applications -----

  /** An application's name, and whether it is deleted, by the last entry that says so. */
  function AppBy(entries: seq<Entry>, app: string): Option<(string, bool)>
    decreases |entries|
  {
    if entries == [] then None
    else
      var before := AppBy(Front(entries), app);
      match Last(entries)
      case Enrolled(id, name, _) => if id == app then Some((name, false)) else before
      case Left(id) => if id == app && before.Some? then Some((before.value.0, true)) else before
      case Logged(row) =>
        if row.app != Some(app) || before.None? then before
        else if row.body.ApplicationDataChanged? then Some((row.body.name, before.value.1))
        else if row.body.ApplicationDeleted? then Some((before.value.0, true))
        else before
  }

  function NameAndState(apps: map<string, App>, app: string): Option<(string, bool)> {
    if app in apps then Some((apps[app].name, apps[app].deleted)) else None
  }

  lemma BodyApp(t: Tables, row: Row, es: seq<Entry>, app: string)
    requires row.app.Some? && row.app.value in t.apps && ExecBody(t, row.app.value, row.body, row.createdAt).Ok?
    requires NameAndState(t.apps, app) == AppBy(es, app)
    ensures NameAndState(ExecBody(t, row.app.value, row.body, row.createdAt).value.apps, app) == AppBy(es + [Logged(row)], app)
  {
    LastOfAppended(es, Logged(row));
    match row.body {
      case ApplicationDataChanged(_) =>
      case ApplicationDeleted =>
      case _ =>
        assert ExecBody(t, row.app.value, row.body, row.createdAt).value.apps == t.apps;
    }
  }

  lemma OtherEntryApp(es: seq<Entry>, e: Entry, app: string)
    requires e.Logged? ==> e.row.app.None?
    ensures AppBy(es + [e], app) ==
            if e.Enrolled? && e.app == app then Some((e.name, false))
            else if e.Left? && e.app == app && AppBy(es, app).Some? then Some((AppBy(es, app).value.0, true))
            else AppBy(es, app)
  {
    LastOfAppended(es, e);
  }

  lemma StepApp(w: World, a: Action, es: seq<Entry>, app: string)
    requires NameAndState(w.space.tables.apps, app) == AppBy(es, app)
    ensures NameAndState(Step(w, a).space.tables.apps, app) == AppBy(es + EntryOf(w, a), app)
  {
    hide ExecBody, AppBy;
    assert es + [] == es;
    match a
    case Submit(e, now) =>
      var out := Persist(w.space, e, now).1;
      if ValidEvent(e) && out.Stored? {
        if e.app.Some? {
          BodyApp(w.space.tables, out.row, es, app);
          ExecKeepsMark(w.space.tables, e.app.value, e.body, now);
        } else {
          OtherEntryApp(es, Logged(out.row), app);
        }
      }
    case Prune(_) =>
    case Register(id, name, groups) => OtherEntryApp(es, Enrolled(id, name, groups), app);
    case Move(id) => OtherEntryApp(es, Left(id), app);
  }

  /** Over every run, the applications, their names and which are deleted are what the entries say. */
  lemma {:induction false} ApplicationsFollowLog(actions: seq<Action>, app: string)
    ensures NameAndState(Run(START, actions).space.tables.apps, app) == AppBy(Entries(START, actions), app)
    decreases |actions|
  {
    hide Step, EntryOf;
    if actions != [] {
      ApplicationsFollowLog(Front(actions), app);
      StepApp(Run(START, Front(actions)), Last(actions), Entries(START, Front(actions)), app);
      EntriesGrow(START, actions);
    }
  }
}
