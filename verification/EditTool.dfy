/**
  The loop of the `edit_app` tool (internal/mcp/edit_app.go) as it runs: group
  records shared by two maps and updated in place. It computes
  `EditCompiler.Compile`.
*/
module EditTool {
  import opened Common
  import opened Structure
  import opened EditCompiler

  /** A group as the tool tracks it; `groups` and `compGroup` below share these objects. */
  class WorkGroup {
    const id: string
    var index: int
    var comps: seq<string>

    constructor (id: string, index: int)
      ensures this.id == id && this.index == index && comps == []
    {
      this.id := id;
      this.index := index;
      this.comps := [];
    }
  }

  ghost function WorkOf(groups: map<string, WorkGroup>, compGroup: map<string, WorkGroup>, minted: seq<string>): Work
    reads groups.Values
  {
    Work(map g | g in groups :: WorkGroupView(groups[g].index, groups[g].comps),
         map c | c in compGroup :: compGroup[c].id,
         minted)
  }

  /** One object per group, and a component points at the live object of the group that lists it. */
  ghost predicate Sharing(groups: map<string, WorkGroup>, compGroup: map<string, WorkGroup>)
    reads groups.Values
  {
    && (forall g :: g in groups ==> groups[g].id == g)
    && (forall c :: c in compGroup ==>
          && compGroup[c].id in groups
          && groups[compGroup[c].id] == compGroup[c]
          && c in compGroup[c].comps)
  }

  method LoadComponents(wg: WorkGroup, ids: seq<string>, known: map<string, WorkGroup>) returns (compGroup: map<string, WorkGroup>)
    requires wg.comps == []
    modifies wg
    ensures wg.index == old(wg.index) && wg.comps == ids
    ensures compGroup == known + map c | c in ids :: wg
  {
    compGroup := known;
    var j := 0;
    while j < |ids|
      invariant 0 <= j <= |ids|
      invariant wg.index == old(wg.index) && wg.comps == ids[..j]
      invariant compGroup == known + map c | c in ids[..j] :: wg
    {
      wg.comps := wg.comps + [ids[j]];
      compGroup := compGroup[ids[j] := wg];
      assert ids[..j + 1] == ids[..j] + [ids[j]];
      j := j + 1;
    }
    assert ids[..j] == ids;
  }

  ghost predicate IdsFrom(groups: map<string, WorkGroup>, view: seq<GroupView>) {
    forall g :: g in groups ==> HasGroup(view, g)
  }

  lemma IdsFromNext(groups: map<string, WorkGroup>, view: seq<GroupView>, v: GroupView, wg: WorkGroup)
    requires IdsFrom(groups, view)
    ensures IdsFrom(groups[v.id := wg], view + [v])
  {
    forall g | g in groups[v.id := wg] ensures HasGroup(view + [v], g) {
      if g == v.id {
        assert (view + [v])[|view|].id == g;
      } else {
        var k :| 0 <= k < |view| && view[k].id == g;
        assert (view + [v])[k].id == g;
      }
    }
  }

  lemma NextIsNew(groups: map<string, WorkGroup>, view: seq<GroupView>, i: nat)
    requires i < |view| && SeparateGroups(view) && IdsFrom(groups, view[..i])
    ensures view[i].id !in groups
  {
    assert forall j :: 0 <= j < i ==> view[..i][j].id == view[j].id != view[i].id;
    assert !HasGroup(view[..i], view[i].id);
  }

  lemma LoadedWork(groups: map<string, WorkGroup>, known: map<string, WorkGroup>, v: GroupView, wg: WorkGroup)
    requires wg.id == v.id && wg.index == v.index && wg.comps == v.components
    ensures WorkOf(groups[v.id := wg], known + map c | c in v.components :: wg, []) == Loaded(WorkOf(groups, known, []), v)
  {
    var w := WorkOf(groups[v.id := wg], known + map c | c in v.components :: wg, []);
    var l := Loaded(WorkOf(groups, known, []), v);
    assert w.groups == l.groups;
    assert w.compGroup == l.compGroup;
  }

  lemma LoadedSharing(groups: map<string, WorkGroup>, known: map<string, WorkGroup>, v: GroupView, wg: WorkGroup)
    requires wg.id == v.id && wg.comps == v.components && v.id !in groups
    requires Sharing(groups, known)
    ensures Sharing(groups[v.id := wg], known + map c | c in v.components :: wg)
  {
  }

  lemma EmptyWork()
    ensures WorkOf(map[], map[], []) == InitialWork([])
    ensures Sharing(map[], map[])
  {
  }

  method Load(view: seq<GroupView>) returns (groups: map<string, WorkGroup>, compGroup: map<string, WorkGroup>)
    requires SeparateGroups(view)
    ensures forall g :: g in groups ==> fresh(groups[g])
    ensures Sharing(groups, compGroup)
    ensures WorkOf(groups, compGroup, []) == InitialWork(view)
    ensures IdsFrom(groups, view)
  {
    hide WorkOf, Sharing, Loaded;
    groups, compGroup := map[], map[];
    EmptyWork();
    var i := 0;
    while i < |view|
      invariant 0 <= i <= |view|
      invariant forall g :: g in groups ==> fresh(groups[g])
      invariant Sharing(groups, compGroup)
      invariant WorkOf(groups, compGroup, []) == InitialWork(view[..i])
      invariant IdsFrom(groups, view[..i])
    {
      var v := view[i];
      NextIsNew(groups, view, i);
      var wg := new WorkGroup(v.id, v.index);
      IdsFromNext(groups, view[..i], v, wg);
      ghost var known := compGroup;
      compGroup := LoadComponents(wg, v.components, compGroup);
      LoadedWork(groups, known, v, wg);
      LoadedSharing(groups, known, v, wg);
      groups := groups[v.id := wg];
      assert view[..i + 1] == view[..i] + [v];
      i := i + 1;
    }
    assert view[..i] == view;
  }

  method Lookup(groups: map<string, WorkGroup>, ghost compGroup: map<string, WorkGroup>, minted: seq<string>, ref: string)
    returns (g: Option<WorkGroup>)
    requires Sharing(groups, compGroup)
    ensures g.None? <==> FindGroup(WorkOf(groups, compGroup, minted), ref).None?
    ensures g.Some? ==>
              FindGroup(WorkOf(groups, compGroup, minted), ref) == Some(g.value.id) && g.value.id in groups && groups[g.value.id] == g.value
  {
    var id := Resolve(ref, minted);
    if id.None? || id.value !in groups {
      return None;
    }
    return Some(groups[id.value]);
  }

  /** Keeps the components of `g` other than `id`, in order. */
  method Filter(ids: seq<string>, id: string) returns (kept: seq<string>)
    ensures kept == Without(ids, id)
  {
    kept := [];
    var i := 0;
    while i < |ids|
      invariant 0 <= i <= |ids|
      invariant Without(ids, id) == kept + Without(ids[i..], id)
    {
      if ids[i] != id {
        kept := kept + [ids[i]];
      }
      assert ids[i..][1..] == ids[i + 1..];
      i := i + 1;
    }
  }

  lemma {:induction false} WithoutKeeps(ids: seq<string>, id: string, c: string)
    requires c in ids && c != id
    ensures c in Without(ids, id)
  {
    if ids[0] != c {
      WithoutKeeps(ids[1..], id, c);
    }
  }

  method Reindex(groups: map<string, WorkGroup>, ghost compGroup: map<string, WorkGroup>, ghost minted: seq<string>, g: WorkGroup, index: int)
    requires Sharing(groups, compGroup) && g.id in groups && groups[g.id] == g
    modifies g
    ensures Sharing(groups, compGroup)
    ensures
      var w := old(WorkOf(groups, compGroup, minted));
      WorkOf(groups, compGroup, minted) == w.(groups := w.groups[g.id := w.groups[g.id].(index := index)])
  {
    ghost var w := WorkOf(groups, compGroup, minted);
    g.index := index;
    assert WorkOf(groups, compGroup, minted).groups == w.groups[g.id := w.groups[g.id].(index := index)];
  }

  method DropGroup(groups: map<string, WorkGroup>, compGroup: map<string, WorkGroup>, ghost minted: seq<string>, g: WorkGroup)
    returns (groups': map<string, WorkGroup>, compGroup': map<string, WorkGroup>, changes: seq<Change>)
    requires Sharing(groups, compGroup) && g.id in groups && groups[g.id] == g
    ensures Sharing(groups', compGroup')
    ensures groups' == groups - {g.id}
    ensures
      var w := WorkOf(groups, compGroup, minted);
      WorkOf(groups', compGroup', minted) == w.(groups := w.groups - {g.id}, compGroup := w.compGroup - set c | c in g.comps)
    ensures changes == [Change(GroupRemoved, g.id, None, None, None)] + Removals(g.comps)
  {
    groups' := groups - {g.id};
    compGroup' := compGroup;
    changes := [Change(GroupRemoved, g.id, None, None, None)];
    var i := 0;
    while i < |g.comps|
      invariant 0 <= i <= |g.comps|
      invariant compGroup' == compGroup - set c | c in g.comps[..i]
      invariant changes == [Change(GroupRemoved, g.id, None, None, None)] + Removals(g.comps[..i])
    {
      compGroup' := compGroup' - {g.comps[i]};
      changes := changes + [Change(ComponentRemoved, g.comps[i], None, None, None)];
      assert g.comps[..i + 1] == g.comps[..i] + [g.comps[i]];
      i := i + 1;
    }
    assert g.comps[..i] == g.comps;
    ghost var w, w' := WorkOf(groups, compGroup, minted), WorkOf(groups', compGroup', minted);
    assert w'.groups == w.groups - {g.id};
    assert w'.compGroup == w.compGroup - set c | c in g.comps;
  }

  method Enlist(groups: map<string, WorkGroup>, compGroup: map<string, WorkGroup>, ghost minted: seq<string>, g: WorkGroup, id: string)
    returns (compGroup': map<string, WorkGroup>)
    requires Sharing(groups, compGroup) && g.id in groups && groups[g.id] == g
    modifies g
    ensures Sharing(groups, compGroup')
    ensures
      var w := old(WorkOf(groups, compGroup, minted));
      WorkOf(groups, compGroup', minted) ==
      w.(groups := w.groups[g.id := w.groups[g.id].(comps := w.groups[g.id].comps + [id])], compGroup := w.compGroup[id := g.id])
  {
    ghost var w := WorkOf(groups, compGroup, minted);
    g.comps := g.comps + [id];
    compGroup' := compGroup[id := g];
    ghost var w' := WorkOf(groups, compGroup', minted);
    assert w'.groups == w.groups[g.id := w.groups[g.id].(comps := w.groups[g.id].comps + [id])];
    assert w'.compGroup == w.compGroup[id := g.id];
  }

  method Strike(groups: map<string, WorkGroup>, compGroup: map<string, WorkGroup>, ghost minted: seq<string>, id: string)
    returns (compGroup': map<string, WorkGroup>)
    requires Sharing(groups, compGroup) && id in compGroup
    modifies compGroup[id]
    ensures Sharing(groups, compGroup')
    ensures
      var w := old(WorkOf(groups, compGroup, minted));
      var g := w.compGroup[id];
      g in w.groups &&
      WorkOf(groups, compGroup', minted) ==
      w.(groups := w.groups[g := w.groups[g].(comps := Without(w.groups[g].comps, id))], compGroup := w.compGroup - {id})
  {
    ghost var w := WorkOf(groups, compGroup, minted);
    var g := compGroup[id];
    compGroup' := compGroup - {id};
    ghost var before := g.comps;
    g.comps := Filter(g.comps, id);
    forall c | c in compGroup' ensures c in compGroup'[c].comps {
      if compGroup[c] == g {
        WithoutKeeps(before, id, c);
      }
    }
    ghost var w' := WorkOf(groups, compGroup', minted);
    assert w'.groups == w.groups[g.id := w.groups[g.id].(comps := Without(before, id))];
    assert w'.compGroup == w.compGroup - {id};
  }

  method AddNewGroup(groups: map<string, WorkGroup>, compGroup: map<string, WorkGroup>, ghost minted: seq<string>, id: string, index: int)
    returns (groups': map<string, WorkGroup>)
    requires Sharing(groups, compGroup) && id !in groups
    ensures Sharing(groups', compGroup)
    ensures id in groups' && fresh(groups'[id]) && groups' == groups[id := groups'[id]]
    ensures
      var w := old(WorkOf(groups, compGroup, minted));
      WorkOf(groups', compGroup, minted + [id]) == w.(groups := w.groups[id := WorkGroupView(index, [])], minted := minted + [id])
  {
    ghost var w := WorkOf(groups, compGroup, minted);
    var g := new WorkGroup(id, index);
    groups' := groups[id := g];
    ghost var w' := WorkOf(groups', compGroup, minted + [id]);
    assert w'.groups == w.groups[id := WorkGroupView(index, [])];
    assert w'.compGroup == w.compGroup;
  }

  /** One turn of the loop over the operations. */
  method CompileStep(groups: map<string, WorkGroup>, compGroup: map<string, WorkGroup>, minted: seq<string>,
                     op: Op, newId: string, app: string, cat: Catalog)
    returns (r: Result<(Option<string>, seq<Change>), EditError>,
             groups': map<string, WorkGroup>, compGroup': map<string, WorkGroup>, minted': seq<string>)
    requires Sharing(groups, compGroup) && newId !in groups
    modifies groups.Values
    ensures
      var e := CompileOp(old(WorkOf(groups, compGroup, minted)), op, newId, app, cat);
      if e.Err? then r == Err(e.error)
      else
        && r == Ok((e.value.id, e.value.changes))
        && WorkOf(groups', compGroup', minted') == e.value.work
    ensures Sharing(groups', compGroup')
    ensures forall g :: g in groups' ==> g in groups || g == newId
    ensures forall g :: g in groups' ==> groups'[g] in groups.Values || fresh(groups'[g])
  {
    groups', compGroup', minted' := groups, compGroup, minted;
    ghost var w := WorkOf(groups, compGroup, minted);
    assert w.groups.Keys == groups.Keys && w.compGroup.Keys == compGroup.Keys;
    if op.index.Some? && op.index.value < 0 {
      return Err(NegativeIndex), groups', compGroup', minted';
    }
    match op.kind {
      case OpAddGroup =>
        if op.name == "" {
          return Err(NameRequired), groups', compGroup', minted';
        }
        var index := |groups|;
        assert |groups| == |groups.Keys| == |w.groups.Keys| == |w.groups|;
        if op.index.Some? {
          index := op.index.value;
        }
        groups' := AddNewGroup(groups, compGroup, minted, newId, index);
        minted' := minted + [newId];
        r := Ok((Some(newId), [Change(GroupAdded, newId, Some(Payload(newId, app, "", op.name, Some(index), None)), None, None)]));
      case OpRenameGroup =>
        var g := Lookup(groups, compGroup, minted, op.groupRef);
        if g.None? {
          return Err(NotFound), groups', compGroup', minted';
        }
        if op.name == "" {
          return Err(NameRequired), groups', compGroup', minted';
        }
        r := Ok((None, [Change(GroupChanged, g.value.id, Some(Payload("", "", "", op.name, Some(g.value.index), None)), None, None)]));
      case OpMoveGroup =>
        var g := Lookup(groups, compGroup, minted, op.groupRef);
        if g.None? {
          return Err(NotFound), groups', compGroup', minted';
        }
        if op.index.None? {
          return Err(IndexRequired), groups', compGroup', minted';
        }
        Reindex(groups, compGroup, minted, g.value, op.index.value);
        r := Ok((None, [Change(GroupReordered, g.value.id, None, op.index, None)]));
      case OpRemoveGroup =>
        var g := Lookup(groups, compGroup, minted, op.groupRef);
        if g.None? {
          return Err(NotFound), groups', compGroup', minted';
        }
        var changes;
        groups', compGroup', changes := DropGroup(groups, compGroup, minted, g.value);
        r := Ok((None, changes));
      case OpAddComponent =>
        var g := Lookup(groups, compGroup, minted, op.groupRef);
        if g.None? {
          return Err(NotFound), groups', compGroup', minted';
        }
        if op.ctype !in cat.types {
          return Err(UnknownType), groups', compGroup', minted';
        }
        var data := cat.prepare(op.ctype, op.data);
        if data.None? {
          return Err(BadComponentData), groups', compGroup', minted';
        }
        var index := |g.value.comps|;
        if op.index.Some? {
          index := op.index.value;
        }
        compGroup' := Enlist(groups, compGroup, minted, g.value, newId);
        r := Ok((Some(newId), [Change(ComponentAdded, newId, Some(Payload(newId, app, g.value.id, op.ctype, Some(index), data)), None, None)]));
      case OpMoveComponent =>
        if op.componentId !in compGroup {
          return Err(NotFound), groups', compGroup', minted';
        }
        if op.index.None? {
          return Err(IndexRequired), groups', compGroup', minted';
        }
        r := Ok((None, [Change(ComponentReordered, op.componentId, None, op.index, None)]));
      case OpRemoveComponent =>
        if op.componentId !in compGroup {
          return Err(NotFound), groups', compGroup', minted';
        }
        compGroup' := Strike(groups, compGroup, minted, op.componentId);
        r := Ok((None, [Change(ComponentRemoved, op.componentId, None, None, None)]));
      case OpUnknown =>
        r := Err(UnknownOp);
    }
  }

  function After(ids: seq<Option<string>>, changes: seq<Change>, rest: Result<Compiled, EditError>): Result<Compiled, EditError> {
    if rest.Err? then rest else Ok(Compiled(ids + rest.value.ids, changes + rest.value.changes))
  }

  lemma AfterStep(ids: seq<Option<string>>, changes: seq<Change>, w: Work, ops: seq<Op>, newIds: seq<string>, app: string, cat: Catalog, i: nat)
    requires i < |ops| == |newIds|
    ensures
      After(ids, changes, CompileFrom(w, ops[i..], newIds[i..], app, cat)) ==
      var e := CompileOp(w, ops[i], newIds[i], app, cat);
      if e.Err? then Err(e.error)
      else After(ids + [e.value.id], changes + e.value.changes, CompileFrom(e.value.work, ops[i + 1..], newIds[i + 1..], app, cat))
  {
    hide CompileOp;
    assert ops[i..][0] == ops[i] && ops[i..][1..] == ops[i + 1..];
    assert newIds[i..][0] == newIds[i] && newIds[i..][1..] == newIds[i + 1..];
    var e := CompileOp(w, ops[i], newIds[i], app, cat);
    if e.Ok? {
      var rest := CompileFrom(e.value.work, ops[i + 1..], newIds[i + 1..], app, cat);
      if rest.Ok? {
        assert ids + ([e.value.id] + rest.value.ids) == ids + [e.value.id] + rest.value.ids;
        assert changes + (e.value.changes + rest.value.changes) == changes + e.value.changes + rest.value.changes;
      }
    }
  }

  /**
    The tool: two maps sharing group records, the ids minted so far, and the changes
    emitted so far. It computes `Compile`. New ids are UUIDs, so they are all
    different and none of them is the id of a group.
  */
  method CompileEdits(view: seq<GroupView>, ops: seq<Op>, newIds: seq<string>, app: string, cat: Catalog)
    returns (r: Result<Compiled, EditError>)
    requires |newIds| == |ops| && SeparateGroups(view)
    requires NoDup(newIds) && forall i :: 0 <= i < |newIds| ==> !HasGroup(view, newIds[i])
    ensures r == Compile(view, ops, newIds, app, cat)
  {
    hide CompileOp, WorkOf, Sharing, InitialWork;
    if ops == [] {
      return Err(NoChanges);
    }
    if |ops| > MAX_CHANGES {
      return Err(TooManyChanges);
    }
    var groups, compGroup := Load(view);
    var minted: seq<string> := [];
    var ids: seq<Option<string>> := [];
    var changes: seq<Change> := [];
    var i := 0;
    ghost var whole := CompileFrom(InitialWork(view), ops, newIds, app, cat);
    assert ops[0..] == ops && newIds[0..] == newIds;
    assert After(ids, changes, whole) == whole by {
      if whole.Ok? {
        assert [] + whole.value.ids == whole.value.ids && [] + whole.value.changes == whole.value.changes;
      }
    }
    while i < |ops|
      invariant 0 <= i <= |ops|
      invariant forall g :: g in groups ==> fresh(groups[g])
      invariant Sharing(groups, compGroup)
      invariant forall k :: i <= k < |ops| ==> newIds[k] !in groups
      invariant Compile(view, ops, newIds, app, cat) ==
                After(ids, changes, CompileFrom(WorkOf(groups, compGroup, minted), ops[i..], newIds[i..], app, cat))
    {
      AfterStep(ids, changes, WorkOf(groups, compGroup, minted), ops, newIds, app, cat, i);
      var step;
      step, groups, compGroup, minted := CompileStep(groups, compGroup, minted, ops[i], newIds[i], app, cat);
      if step.Err? {
        return Err(step.error);
      }
      ids := ids + [step.value.0];
      changes := changes + step.value.1;
      i := i + 1;
    }
    assert ops[i..] == [] && ids + [] == ids && changes + [] == changes;
    r := Ok(Compiled(ids, changes));
  }
}
