/**
  The `edit_app` tool (internal/mcp/edit_app.go) compiles a list of operations,
  with `$N` back-references and default positions, into structure changes that
  another component validates and executes later (module Structure).

  `Compile` is that compiler, working on ids and positions only. `Interpret` is
  what the operations mean, said directly on the rows. `EditIsCorrect` connects
  the two through the executor.
*/
module EditCompiler {
  import opened Common
  import opened Numerals
  import opened Structure

  datatype OpKind =
    | OpAddGroup
    | OpRenameGroup
    | OpMoveGroup
    | OpRemoveGroup
    | OpAddComponent
    | OpMoveComponent
    | OpRemoveComponent
    | OpUnknown

  datatype Op = Op(kind: OpKind, groupRef: string, componentId: string, name: string, ctype: string, index: Option<int>, data: Data)

  /** The component types the space knows, and what it makes of the initial data of one (None: refused). */
  datatype Catalog = Catalog(types: set<string>, prepare: (string, Data) -> Option<Data>)

  datatype EditError = NoChanges | TooManyChanges | NegativeIndex | NameRequired | IndexRequired | NotFound | UnknownType | BadComponentData | UnknownOp

  const MAX_CHANGES := 100

  // ----- references -----

  /** strconv.Atoi: an optional sign, then one or more decimal digits. */
  function Atoi(s: string): Option<int> {
    var signed := s != "" && s[0] in {'-', '+'};
    var digits := if signed then s[1..] else s;
    if digits == "" || !Digits(digits) then None
    else Some(if signed && s[0] == '-' then 0 - Value(digits) else Value(digits))
  }

  /** A group reference: an id, or `$N` for the N-th group added by this call. */
  function Resolve(ref: string, minted: seq<string>): Option<string> {
    if ref != "" && ref[0] == '$' then
      var n := Atoi(ref[1..]);
      if n.None? || n.value < 0 || n.value >= |minted| then None else Some(minted[n.value])
    else Some(ref)
  }

  /** The text is a number in decimal, perhaps after zeros or a plus sign; of the negative ones only -0 is no less than 0. */
  ghost predicate NamesIndex(text: string, n: nat) {
    || Reads(text, n)
    || (text != "" && text[0] == '+' && Reads(text[1..], n))
    || (text != "" && text[0] == '-' && n == 0 && Reads(text[1..], 0))
  }

  /** A reference `$N` is the N-th id minted so far, nothing when there is none, and nothing when N is not a number. */
  lemma BackReference(text: string, n: nat, minted: seq<string>)
    ensures NamesIndex(text, n) ==> Resolve("$" + text, minted) == if n < |minted| then Some(minted[n]) else None
    ensures (forall k: nat :: !NamesIndex(text, k)) ==> Resolve("$" + text, minted) == None
  {
    hide Reads;
    assert ("$" + text)[1..] == text;
    var signed := text != "" && text[0] in {'-', '+'};
    var digits := if signed then text[1..] else text;
    ReadingIsDigits(text, n);
    ReadingIsDigits(digits, n);
    if digits != "" && Digits(digits) {
      DigitsReadTheirValue(digits, n);
      DigitsReadTheirValue(digits, 0);
      ReadsItsValue(digits);
      assert Value(digits) == 0 || !signed || text[0] == '+' ==> NamesIndex(text, Value(digits));
    }
  }

  lemma ReadingIsDigits(s: string, n: nat)
    ensures Reads(s, n) ==> s != "" && Digits(s)
  {
    if Reads(s, n) {
      ReadsIsDigits(s, n);
    }
  }

  // ----- the compiler -----

  /** What the compiler reads of the application: groups in order, each with its component ids in order. */
  datatype GroupView = GroupView(id: string, index: int, components: seq<string>)

  datatype Work = Work(groups: map<string, WorkGroupView>, compGroup: map<string, string>, minted: seq<string>)

  datatype WorkGroupView = WorkGroupView(index: int, comps: seq<string>)

  function InitialWork(view: seq<GroupView>): Work {
    if view == [] then Work(map[], map[], [])
    else Loaded(InitialWork(view[..|view| - 1]), view[|view| - 1])
  }

  function Loaded(w: Work, v: GroupView): Work {
    w.(groups := w.groups[v.id := WorkGroupView(v.index, v.components)],
       compGroup := w.compGroup + map c | c in v.components :: v.id)
  }

  datatype Emitted = Emitted(work: Work, id: Option<string>, changes: seq<Change>)

  function Removals(ids: seq<string>): seq<Change> {
    seq(|ids|, i requires 0 <= i < |ids| => Change(ComponentRemoved, ids[i], None, None, None))
  }

  function Without(ids: seq<string>, id: string): seq<string> {
    if ids == [] then []
    else if ids[0] == id then Without(ids[1..], id)
    else [ids[0]] + Without(ids[1..], id)
  }

  function FindGroup(w: Work, ref: string): Option<string> {
    var id := Resolve(ref, w.minted);
    if id.Some? && id.value in w.groups then id else None
  }

  function CompileOp(w: Work, op: Op, newId: string, app: string, cat: Catalog): Result<Emitted, EditError> {
    if op.index.Some? && op.index.value < 0 then Err(NegativeIndex)
    else match op.kind
      case OpAddGroup =>
        if op.name == "" then Err(NameRequired)
        else
          var index := if op.index.Some? then op.index.value else |w.groups|;
          Ok(Emitted(w.(groups := w.groups[newId := WorkGroupView(index, [])], minted := w.minted + [newId]), Some(newId),
                     [Change(GroupAdded, newId, Some(Payload(newId, app, "", op.name, Some(index), None)), None, None)]))
      case OpRenameGroup =>
        var g := FindGroup(w, op.groupRef);
        if g.None? then Err(NotFound)
        else if op.name == "" then Err(NameRequired)
        else Ok(Emitted(w, None,
                        [Change(GroupChanged, g.value, Some(Payload("", "", "", op.name, Some(w.groups[g.value].index), None)), None, None)]))
      case OpMoveGroup =>
        var g := FindGroup(w, op.groupRef);
        if g.None? then Err(NotFound)
        else if op.index.None? then Err(IndexRequired)
        else Ok(Emitted(w.(groups := w.groups[g.value := w.groups[g.value].(index := op.index.value)]), None,
                        [Change(GroupReordered, g.value, None, op.index, None)]))
      case OpRemoveGroup =>
        var g := FindGroup(w, op.groupRef);
        if g.None? then Err(NotFound)
        else
          var comps := w.groups[g.value].comps;
          Ok(Emitted(w.(groups := w.groups - {g.value}, compGroup := w.compGroup - set c | c in comps), None,
                     [Change(GroupRemoved, g.value, None, None, None)] + Removals(comps)))
      case OpAddComponent =>
        var g := FindGroup(w, op.groupRef);
        if g.None? then Err(NotFound)
        else if op.ctype !in cat.types then Err(UnknownType)
        else
          var data := cat.prepare(op.ctype, op.data);
          if data.None? then Err(BadComponentData)
          else
            var wg := w.groups[g.value];
            var index := if op.index.Some? then op.index.value else |wg.comps|;
            Ok(Emitted(w.(groups := w.groups[g.value := wg.(comps := wg.comps + [newId])], compGroup := w.compGroup[newId := g.value]), Some(newId),
                       [Change(ComponentAdded, newId, Some(Payload(newId, app, g.value, op.ctype, Some(index), data)), None, None)]))
      case OpMoveComponent =>
        if op.componentId !in w.compGroup then Err(NotFound)
        else if op.index.None? then Err(IndexRequired)
        else Ok(Emitted(w, None, [Change(ComponentReordered, op.componentId, None, op.index, None)]))
      case OpRemoveComponent =>
        if op.componentId !in w.compGroup then Err(NotFound)
        else
          var g := w.compGroup[op.componentId];
          var groups := if g in w.groups then w.groups[g := w.groups[g].(comps := Without(w.groups[g].comps, op.componentId))] else w.groups;
          Ok(Emitted(w.(groups := groups, compGroup := w.compGroup - {op.componentId}), None,
                     [Change(ComponentRemoved, op.componentId, None, None, None)]))
      case OpUnknown => Err(UnknownOp)
  }

  datatype Compiled = Compiled(ids: seq<Option<string>>, changes: seq<Change>)

  /** The new id of the i-th operation, should it need one, is newIds[i]. */
  function CompileFrom(w: Work, ops: seq<Op>, newIds: seq<string>, app: string, cat: Catalog): Result<Compiled, EditError>
    requires |newIds| == |ops|
    decreases |ops|
  {
    if ops == [] then Ok(Compiled([], []))
    else
      var e := CompileOp(w, ops[0], newIds[0], app, cat);
      if e.Err? then Err(e.error)
      else
        var rest := CompileFrom(e.value.work, ops[1..], newIds[1..], app, cat);
        if rest.Err? then rest
        else Ok(Compiled([e.value.id] + rest.value.ids, e.value.changes + rest.value.changes))
  }

  function Compile(view: seq<GroupView>, ops: seq<Op>, newIds: seq<string>, app: string, cat: Catalog): Result<Compiled, EditError>
    requires |newIds| == |ops|
  {
    if ops == [] then Err(NoChanges)
    else if |ops| > MAX_CHANGES then Err(TooManyChanges)
    else CompileFrom(InitialWork(view), ops, newIds, app, cat)
  }

  // ----- what the operations mean -----

  /** The components of one group, as the rows have them. */
  function Inside(r: Rows, group: string): set<string> {
    set c | c in r.components && r.components[c].groupId == group
  }

  datatype Meaning = Meaning(rows: Rows, minted: seq<string>, ids: seq<Option<string>>)

  /** The group an operation names, in the application as it stands when the operation's turn comes. */
  function Named(m: Meaning, app: string, op: Op): Option<string> {
    var id := Resolve(op.groupRef, m.minted);
    if id.Some? && GroupInApp(m.rows, app, id.value) then id else None
  }

  /** Where an add puts its item: where it is told, or after the ones that are there. */
  function Placed(op: Op, present: nat): int {
    if op.index.Some? then op.index.value else present
  }

  function Mean(m: Meaning, op: Op, newId: string, app: string, cat: Catalog): Result<Meaning, EditError> {
    var r := m.rows;
    var target := Named(m, app, op);
    var none := m.(ids := m.ids + [None]);
    if op.index.Some? && op.index.value < 0 then Err(NegativeIndex)
    else match op.kind
      case OpAddGroup =>
        if op.name == "" then Err(NameRequired)
        else Ok(Meaning(r.(groups := r.groups[newId := Group(app, op.name, Placed(op, |GroupsOf(r, app)|))]),
                        m.minted + [newId], m.ids + [Some(newId)]))
      case OpRenameGroup =>
        if target.None? then Err(NotFound)
        else if op.name == "" then Err(NameRequired)
        else Ok(none.(rows := r.(groups := r.groups[target.value := r.groups[target.value].(name := op.name)])))
      case OpMoveGroup =>
        if target.None? then Err(NotFound)
        else if op.index.None? then Err(IndexRequired)
        else Ok(none.(rows := r.(groups := r.groups[target.value := r.groups[target.value].(index := op.index.value)])))
      case OpRemoveGroup =>
        if target.None? then Err(NotFound)
        else Ok(none.(rows := Rows(r.groups - {target.value}, r.components - Inside(r, target.value))))
      case OpAddComponent =>
        if target.None? then Err(NotFound)
        else if op.ctype !in cat.types then Err(UnknownType)
        else if cat.prepare(op.ctype, op.data).None? then Err(BadComponentData)
        else
          var k := Component(target.value, app, op.ctype, cat.prepare(op.ctype, op.data).value, Placed(op, |Inside(r, target.value)|));
          Ok(Meaning(r.(components := r.components[newId := k]), m.minted, m.ids + [Some(newId)]))
      case OpMoveComponent =>
        if !ComponentInApp(r, app, op.componentId) then Err(NotFound)
        else if op.index.None? then Err(IndexRequired)
        else Ok(none.(rows := r.(components := r.components[op.componentId := r.components[op.componentId].(index := op.index.value)])))
      case OpRemoveComponent =>
        if !ComponentInApp(r, app, op.componentId) then Err(NotFound)
        else Ok(none.(rows := r.(components := r.components - {op.componentId})))
      case OpUnknown => Err(UnknownOp)
  }

  /** But for the rows named, everything is as it was. */
  ghost predicate OnlyTouches(r: Rows, r': Rows, groups: set<string>, components: set<string>) {
    && (forall g :: g !in groups ==> (g in r.groups <==> g in r'.groups) && (g in r.groups ==> r'.groups[g] == r.groups[g]))
    && (forall c :: c !in components ==> (c in r.components <==> c in r'.components) && (c in r.components ==> r'.components[c] == r.components[c]))
  }

  /**
    What each operation on a group comes to: one group is new, or has another name or
    another position and nothing else new, or is gone with all that is in it; every
    other row stays.
  */
  lemma GroupOperationsMean(m: Meaning, op: Op, newId: string, app: string, cat: Catalog)
    requires Mean(m, op, newId, app, cat).Ok?
    ensures
      var r, r', g := m.rows, Mean(m, op, newId, app, cat).value.rows, Resolve(op.groupRef, m.minted);
      && (op.kind == OpAddGroup ==>
            && OnlyTouches(r, r', {newId}, {}) && newId in r'.groups && r'.groups[newId].appId == app && r'.groups[newId].name == op.name
            && (op.index.Some? ==> r'.groups[newId].index == op.index.value))
      && (op.kind == OpRenameGroup ==>
            && g.Some? && GroupInApp(r, app, g.value) && OnlyTouches(r, r', {g.value}, {})
            && g.value in r'.groups && r'.groups[g.value] == Group(app, op.name, r.groups[g.value].index) && op.name != "")
      && (op.kind == OpMoveGroup ==>
            && g.Some? && GroupInApp(r, app, g.value) && OnlyTouches(r, r', {g.value}, {})
            && g.value in r'.groups && Some(r'.groups[g.value].index) == op.index && r'.groups[g.value].name == r.groups[g.value].name
            && r'.groups[g.value].appId == app)
      && (op.kind == OpRemoveGroup ==>
            && g.Some? && GroupInApp(r, app, g.value) && g.value !in r'.groups
            && OnlyTouches(r, r', {g.value}, Inside(r, g.value)) && forall c :: c in r'.components ==> r'.components[c].groupId != g.value)
  {
    hide Resolve;
  }

  lemma ComponentOperationsMean(m: Meaning, op: Op, newId: string, app: string, cat: Catalog)
    requires Mean(m, op, newId, app, cat).Ok?
    ensures
      var r, r', g := m.rows, Mean(m, op, newId, app, cat).value.rows, Resolve(op.groupRef, m.minted);
      && (op.kind == OpAddComponent ==>
            && g.Some? && GroupInApp(r, app, g.value) && OnlyTouches(r, r', {}, {newId}) && newId in r'.components
            && op.ctype in cat.types
            && var k := r'.components[newId];
               && k.groupId == g.value && k.appId == app && k.name == op.ctype && Some(k.data) == cat.prepare(op.ctype, op.data)
               && (op.index.Some? ==> k.index == op.index.value))
      && (op.kind == OpMoveComponent ==>
            && ComponentInApp(r, app, op.componentId) && OnlyTouches(r, r', {}, {op.componentId})
            && op.componentId in r'.components && op.index.Some?
            && r'.components[op.componentId] == r.components[op.componentId].(index := op.index.value))
      && (op.kind == OpRemoveComponent ==>
            && ComponentInApp(r, app, op.componentId) && OnlyTouches(r, r', {}, {op.componentId}) && op.componentId !in r'.components)
  {
    hide Resolve;
  }

  /** When an operation has a meaning: positions from 0, a group or component of the application, and what its kind needs. */
  lemma OperationHasMeaningIff(m: Meaning, op: Op, newId: string, app: string, cat: Catalog)
    ensures
      var r, g := m.rows, Resolve(op.groupRef, m.minted);
      var ownGroup, ownComponent := g.Some? && GroupInApp(r, app, g.value), ComponentInApp(r, app, op.componentId);
      Mean(m, op, newId, app, cat).Ok? <==>
      && (op.index.Some? ==> op.index.value >= 0) && op.kind != OpUnknown
      && (op.kind in {OpRenameGroup, OpMoveGroup, OpRemoveGroup, OpAddComponent} ==> ownGroup)
      && (op.kind in {OpMoveComponent, OpRemoveComponent} ==> ownComponent)
      && (op.kind in {OpAddGroup, OpRenameGroup} ==> op.name != "")
      && (op.kind in {OpMoveGroup, OpMoveComponent} ==> op.index.Some?)
      && (op.kind == OpAddComponent ==> op.ctype in cat.types && cat.prepare(op.ctype, op.data).Some?)
  {
    hide Resolve;
  }

  /** What is added without a position goes last, if those that are there have the positions below their number. */
  lemma AddedGoesLast(m: Meaning, op: Op, newId: string, app: string, cat: Catalog)
    requires Mean(m, op, newId, app, cat).Ok? && op.index == None
    ensures
      var r, r' := m.rows, Mean(m, op, newId, app, cat).value.rows;
      && (op.kind == OpAddGroup && (forall g :: g in GroupsOf(r, app) ==> r.groups[g].index < |GroupsOf(r, app)|) ==>
            newId in r'.groups && forall g :: g in GroupsOf(r, app) && g != newId ==> r'.groups[g].index < r'.groups[newId].index)
      && (op.kind == OpAddComponent ==>
            && newId in r'.components
            && var inside := Inside(r, r'.components[newId].groupId);
               (forall c :: c in inside ==> r.components[c].index < |inside|) ==>
                 forall c :: c in inside && c != newId ==> c in r'.components && r'.components[c].index < r'.components[newId].index)
  {
    hide Resolve;
  }

  function Interpret(m: Meaning, ops: seq<Op>, newIds: seq<string>, app: string, cat: Catalog): Result<Meaning, EditError>
    requires |newIds| == |ops|
    decreases |ops|
  {
    if ops == [] then Ok(m)
    else
      var next := Mean(m, ops[0], newIds[0], app, cat);
      if next.Err? then next else Interpret(next.value, ops[1..], newIds[1..], app, cat)
  }

  /**
    What the compiler does not check about an accepted operation: the position and
    the name must fit their columns, and no row it touches may have an empty id.
  */
  predicate Fits(m: Meaning, op: Op, app: string) {
    var target := Named(m, app, op);
    match op.kind
    case OpAddGroup => Storable(op.name, Placed(op, |GroupsOf(m.rows, app)|))
    case OpRenameGroup => target != Some("") && '\0' !in op.name
    case OpMoveGroup => target != Some("") && Storable("", IndexOr0(op.index))
    case OpRemoveGroup => target != Some("") && (target.Some? ==> "" !in Inside(m.rows, target.value))
    case OpAddComponent => Storable(op.ctype, Placed(op, if target.Some? then |Inside(m.rows, target.value)| else 0))
    case OpMoveComponent => op.componentId != "" && Storable("", IndexOr0(op.index))
    case OpRemoveComponent => op.componentId != ""
    case OpUnknown => true
  }

  predicate AllFit(m: Meaning, ops: seq<Op>, newIds: seq<string>, app: string, cat: Catalog)
    requires |newIds| == |ops|
    decreases |ops|
  {
    ops == [] ||
    (var next := Mean(m, ops[0], newIds[0], app, cat);
     Fits(m, ops[0], app) && (next.Ok? ==> AllFit(next.value, ops[1..], newIds[1..], app, cat)))
  }

  // ----- the two sides agree -----

  /** What the database holds anyway: every stored row fits its columns. */
  ghost predicate InColumns(r: Rows) {
    && (forall g :: g in r.groups ==> Storable(r.groups[g].name, r.groups[g].index))
    && (forall c :: c in r.components ==> Storable(r.components[c].name, r.components[c].index))
  }

  /** UUIDs: not empty, not in use, all different. */
  ghost predicate Fresh(newIds: seq<string>, r: Rows) {
    && NoDup(newIds)
    && forall i :: 0 <= i < |newIds| ==> newIds[i] != "" && newIds[i] !in r.groups && newIds[i] !in r.components
  }

  /** The compiler's working state mirrors the rows of the application. */
  ghost predicate Mirrors(groups: map<string, WorkGroupView>, compGroup: map<string, string>, r: Rows, app: string) {
    && groups.Keys == GroupsOf(r, app).Keys
    && compGroup.Keys == ComponentsOf(r, app).Keys
    && (forall g :: g in groups ==> groups[g].index == r.groups[g].index && Enumerates(groups[g].comps, Inside(r, g)))
    && (forall c :: c in compGroup ==> compGroup[c] == r.components[c].groupId)
  }

  ghost predicate HasGroup(view: seq<GroupView>, g: string) {
    exists i :: 0 <= i < |view| && view[i].id == g
  }

  ghost predicate HasComponent(view: seq<GroupView>, c: string) {
    exists i :: 0 <= i < |view| && c in view[i].components
  }

  /** The view is the application: its groups once each, their components once each. */
  ghost predicate Lists(view: seq<GroupView>, r: Rows, app: string) {
    && (forall i, j :: 0 <= i < j < |view| ==> view[i].id != view[j].id)
    && (forall i :: 0 <= i < |view| ==>
          && GroupInApp(r, app, view[i].id)
          && view[i].index == r.groups[view[i].id].index
          && Enumerates(view[i].components, Inside(r, view[i].id)))
    && (forall g :: GroupInApp(r, app, g) ==> HasGroup(view, g))
  }

  ghost predicate ReflectsGroups(w: Work, view: seq<GroupView>) {
    && (forall i :: 0 <= i < |view| ==>
          view[i].id in w.groups && w.groups[view[i].id] == WorkGroupView(view[i].index, view[i].components))
    && (forall g :: g in w.groups ==> HasGroup(view, g))
    && w.minted == []
  }

  ghost predicate ReflectsComponents(w: Work, view: seq<GroupView>) {
    && (forall i, c :: 0 <= i < |view| && c in view[i].components ==> c in w.compGroup && w.compGroup[c] == view[i].id)
    && (forall c :: c in w.compGroup ==> HasComponent(view, c))
  }

  ghost predicate SeparateGroups(view: seq<GroupView>) {
    forall i, j :: 0 <= i < j < |view| ==> view[i].id != view[j].id
  }

  ghost predicate SeparateComponents(view: seq<GroupView>) {
    forall i, j, c :: 0 <= i < j < |view| && c in view[i].components ==> c !in view[j].components
  }

  lemma LoadedReflectsGroups(w: Work, view: seq<GroupView>, v: GroupView)
    requires SeparateGroups(view + [v])
    requires ReflectsGroups(w, view)
    ensures ReflectsGroups(Loaded(w, v), view + [v])
  {
    var all, w' := view + [v], Loaded(w, v);
    forall i | 0 <= i < |view| ensures all[i] == view[i] && view[i].id != v.id {
      assert all[i].id != all[|view|].id;
    }
    forall g | g in w'.groups ensures HasGroup(all, g) {
      if g == v.id {
        assert all[|view|].id == g;
      } else {
        var i :| 0 <= i < |view| && view[i].id == g;
        assert all[i].id == g;
      }
    }
  }

  lemma LoadedReflectsComponents(w: Work, view: seq<GroupView>, v: GroupView)
    requires SeparateComponents(view + [v])
    requires ReflectsComponents(w, view)
    ensures ReflectsComponents(Loaded(w, v), view + [v])
  {
    var all, w' := view + [v], Loaded(w, v);
    assert forall i :: 0 <= i < |view| ==> all[i] == view[i];
    assert all[|view|] == v;
    forall i, c | 0 <= i < |all| && c in all[i].components ensures c in w'.compGroup && w'.compGroup[c] == all[i].id {
      if i < |view| {
        assert c in view[i].components;
        assert c !in all[|view|].components;
      }
    }
    forall c | c in w'.compGroup ensures HasComponent(all, c) {
      if c in v.components {
        assert c in all[|view|].components;
      } else {
        var i :| 0 <= i < |view| && c in view[i].components;
        assert c in all[i].components;
      }
    }
  }

  lemma {:induction false} InitialReflects(view: seq<GroupView>)
    requires SeparateGroups(view) && SeparateComponents(view)
    ensures ReflectsGroups(InitialWork(view), view) && ReflectsComponents(InitialWork(view), view)
  {
    if view != [] {
      var n := |view| - 1;
      InitialReflects(view[..n]);
      assert view == view[..n] + [view[n]];
      LoadedReflectsGroups(InitialWork(view[..n]), view[..n], view[n]);
      LoadedReflectsComponents(InitialWork(view[..n]), view[..n], view[n]);
    }
  }

  lemma ListedApart(view: seq<GroupView>, r: Rows, app: string)
    requires Lists(view, r, app)
    ensures SeparateComponents(view)
  {
    forall i, j, c | 0 <= i < j < |view| && c in view[i].components ensures c !in view[j].components {
      assert c in Elements(view[i].components);
      assert c !in Elements(view[j].components);
    }
  }

  lemma InitialMirrorsGroups(view: seq<GroupView>, w: Work, r: Rows, app: string)
    requires Lists(view, r, app) && ReflectsGroups(w, view)
    ensures w.groups.Keys == GroupsOf(r, app).Keys
    ensures forall g :: g in w.groups ==>
              && w.groups[g].index == r.groups[g].index
              && Enumerates(w.groups[g].comps, Inside(r, g))
  {
    forall g | g in GroupsOf(r, app) ensures g in w.groups {
      assert GroupInApp(r, app, g);
    }
    forall g | g in w.groups
      ensures g in GroupsOf(r, app)
      ensures w.groups[g].index == r.groups[g].index && Enumerates(w.groups[g].comps, Inside(r, g))
    {
      var i :| 0 <= i < |view| && view[i].id == g;
    }
  }

  lemma InitialMirrorsComponents(view: seq<GroupView>, w: Work, r: Rows, app: string)
    requires Closed(r) && Lists(view, r, app) && ReflectsComponents(w, view)
    ensures w.compGroup.Keys == ComponentsOf(r, app).Keys
    ensures forall c :: c in w.compGroup ==> w.compGroup[c] == r.components[c].groupId
  {
    forall c | c in w.compGroup ensures c in ComponentsOf(r, app) && w.compGroup[c] == r.components[c].groupId {
      var i :| 0 <= i < |view| && c in view[i].components;
      assert c in Elements(view[i].components);
    }
    forall c | c in ComponentsOf(r, app) ensures c in w.compGroup {
      assert GroupInApp(r, app, r.components[c].groupId);
      var i :| 0 <= i < |view| && view[i].id == r.components[c].groupId;
      assert c in Inside(r, view[i].id);
      assert c in Elements(view[i].components);
    }
  }

  lemma InitialMirrors(view: seq<GroupView>, r: Rows, app: string)
    requires Closed(r) && Lists(view, r, app)
    ensures Mirrors(InitialWork(view).groups, InitialWork(view).compGroup, r, app)
    ensures InitialWork(view).minted == []
  {
    ListedApart(view, r, app);
    InitialReflects(view);
    InitialMirrorsGroups(view, InitialWork(view), r, app);
    InitialMirrorsComponents(view, InitialWork(view), r, app);
  }

  /** The compiler and the interpreter stand at the same point. */
  ghost predicate Linked(w: Work, m: Meaning, app: string) {
    Mirrors(w.groups, w.compGroup, m.rows, app) && w.minted == m.minted && Closed(m.rows)
  }

  /** The event carrying these changes is validated and executed without error. */
  predicate Passes(r: Rows, app: string, cs: seq<Change>) {
    ValidChanges(cs) && ExecAll(r, app, cs).Ok?
  }

  ghost predicate StepAgrees(w: Work, m: Meaning, op: Op, newId: string, app: string, cat: Catalog) {
    var e, n := CompileOp(w, op, newId, app, cat), Mean(m, op, newId, app, cat);
    && (e.Ok? <==> n.Ok?)
    && (e.Err? ==> e.error == n.error)
    && (e.Ok? ==>
          && n.value.ids == m.ids + [e.value.id]
          && Linked(e.value.work, n.value, app)
          && (InColumns(m.rows) ==>
                && (Passes(m.rows, app, e.value.changes) <==> Fits(m, op, app))
                && (Fits(m, op, app) ==>
                      ExecAll(m.rows, app, e.value.changes) == Ok(n.value.rows) && InColumns(n.value.rows))))
  }

  ghost predicate Unused(id: string, r: Rows) {
    id != "" && id !in r.groups && id !in r.components
  }

  lemma ExecOne(r: Rows, app: string, c: Change)
    ensures ExecAll(r, app, [c]) == Exec(r, app, c)
    ensures ValidChanges([c]) <==> ValidChange(c)
  {
    assert [c][1..] == [];
    if Exec(r, app, c).Ok? {
      assert ExecAll(Exec(r, app, c).value, app, []) == Exec(r, app, c);
    }
    assert [c][0] == c;
  }

  lemma SameTarget(w: Work, m: Meaning, app: string, op: Op)
    requires Linked(w, m, app)
    ensures FindGroup(w, op.groupRef) == Named(m, app, op)
  {
    var id := Resolve(op.groupRef, w.minted);
    if id.Some? {
      assert id.value in w.groups.Keys <==> id.value in GroupsOf(m.rows, app).Keys;
    }
  }

  /** What the mirror shows: the same groups in the same places, as many components in each, the same components. */
  lemma Counterparts(w: Work, m: Meaning, app: string)
    requires Linked(w, m, app)
    ensures |w.groups| == |GroupsOf(m.rows, app)|
    ensures forall g :: g in w.groups <==> GroupInApp(m.rows, app, g)
    ensures forall g :: g in w.groups ==>
              w.groups[g].index == m.rows.groups[g].index && |w.groups[g].comps| == |Inside(m.rows, g)|
    ensures forall c :: c in w.compGroup <==> ComponentInApp(m.rows, app, c)
  {
    assert |w.groups| == |w.groups.Keys| == |GroupsOf(m.rows, app).Keys| == |GroupsOf(m.rows, app)|;
    forall g ensures g in w.groups <==> GroupInApp(m.rows, app, g) {
      assert g in w.groups.Keys <==> g in GroupsOf(m.rows, app).Keys;
    }
    forall c ensures c in w.compGroup <==> ComponentInApp(m.rows, app, c) {
      assert c in w.compGroup.Keys <==> c in ComponentsOf(m.rows, app).Keys;
    }
    forall g | g in w.groups ensures |w.groups[g].comps| == |Inside(m.rows, g)| {
      NoDupCardinality(w.groups[g].comps);
    }
  }

  lemma PutGroupSets(r: Rows, app: string, id: string, g: Group)
    requires g.appId == app && Closed(r)
    ensures
      var r' := r.(groups := r.groups[id := g]);
      && GroupsOf(r', app).Keys == GroupsOf(r, app).Keys + {id}
      && ComponentsOf(r', app) == ComponentsOf(r, app)
      && (forall h :: Inside(r', h) == Inside(r, h))
      && (id !in r.groups ==> Inside(r', id) == {})
  {
  }

  lemma PutGroupMirrors(w: Work, r: Rows, app: string, id: string, wg: WorkGroupView, g: Group)
    requires Mirrors(w.groups, w.compGroup, r, app) && Closed(r)
    requires if id in w.groups then wg.comps == w.groups[id].comps else id !in r.groups && wg.comps == []
    requires g.appId == app && g.index == wg.index
    ensures Mirrors(w.groups[id := wg], w.compGroup, r.(groups := r.groups[id := g]), app)
    ensures Closed(r.(groups := r.groups[id := g]))
  {
    hide Inside, Enumerates;
    PutGroupSets(r, app, id, g);
    NothingEnumerated();
    assert id in w.groups.Keys <==> id in GroupsOf(r, app).Keys;
  }

  lemma NothingEnumerated()
    ensures Enumerates<string>([], {})
  {
  }

  lemma AddGroupAgrees(w: Work, m: Meaning, op: Op, newId: string, app: string, cat: Catalog)
    requires op.kind == OpAddGroup && Linked(w, m, app) && Unused(newId, m.rows)
    ensures StepAgrees(w, m, op, newId, app, cat)
  {
    hide Mirrors, Closed, Inside, GroupsOf;
    Counterparts(w, m, app);
    var e := CompileOp(w, op, newId, app, cat);
    if e.Ok? {
      ExecOne(m.rows, app, e.value.changes[0]);
      var index := Placed(op, |w.groups|);
      PutGroupMirrors(w, m.rows, app, newId, WorkGroupView(index, []), Group(app, op.name, index));
    }
  }

  lemma RenameGroupAgrees(w: Work, m: Meaning, op: Op, newId: string, app: string, cat: Catalog)
    requires op.kind == OpRenameGroup && Linked(w, m, app)
    ensures StepAgrees(w, m, op, newId, app, cat)
  {
    hide Mirrors, Closed, Inside, GroupsOf;
    Counterparts(w, m, app);
    SameTarget(w, m, app, op);
    var e := CompileOp(w, op, newId, app, cat);
    if e.Ok? {
      ExecOne(m.rows, app, e.value.changes[0]);
      var g := Named(m, app, op).value;
      PutGroupMirrors(w, m.rows, app, g, w.groups[g], m.rows.groups[g].(name := op.name));
      assert w.groups[g := w.groups[g]] == w.groups;
    }
  }

  lemma MoveGroupAgrees(w: Work, m: Meaning, op: Op, newId: string, app: string, cat: Catalog)
    requires op.kind == OpMoveGroup && Linked(w, m, app)
    ensures StepAgrees(w, m, op, newId, app, cat)
  {
    hide Mirrors, Closed, Inside, GroupsOf;
    Counterparts(w, m, app);
    SameTarget(w, m, app, op);
    var e := CompileOp(w, op, newId, app, cat);
    if e.Ok? {
      ExecOne(m.rows, app, e.value.changes[0]);
      var g, index := Named(m, app, op).value, op.index.value;
      PutGroupMirrors(w, m.rows, app, g, w.groups[g].(index := index), m.rows.groups[g].(index := index));
    }
  }

  /** The component removals that follow a group removal find their rows gone, and are skipped. */
  lemma {:induction false} StaleRemovalsAreSkipped(r: Rows, app: string, ids: seq<string>)
    requires forall i :: 0 <= i < |ids| ==> ids[i] !in r.components
    ensures ExecAll(r, app, Removals(ids)) == Ok(r)
    decreases |ids|
  {
    if ids != [] {
      assert Removals(ids)[1..] == Removals(ids[1..]);
      StaleRemovalsAreSkipped(r, app, ids[1..]);
    }
  }

  lemma RemoveGroupAgrees(w: Work, m: Meaning, op: Op, newId: string, app: string, cat: Catalog)
    requires op.kind == OpRemoveGroup && Linked(w, m, app)
    ensures StepAgrees(w, m, op, newId, app, cat)
  {
    SameTarget(w, m, app, op);
    var e := CompileOp(w, op, newId, app, cat);
    if e.Ok? {
      var g := Named(m, app, op).value;
      var comps := w.groups[g].comps;
      var head := Change(GroupRemoved, g, None, None, None);
      var r' := Cascade(m.rows, g);
      assert Mean(m, op, newId, app, cat).value.rows == r' by {
        assert r'.components == m.rows.components - Inside(m.rows, g);
      }
      ExecOne(m.rows, app, head);
      ExecAllConcat(m.rows, app, [head], Removals(comps));
      forall i | 0 <= i < |comps| ensures comps[i] !in r'.components {
        assert comps[i] in Elements(comps);
      }
      StaleRemovalsAreSkipped(r', app, comps);
      RemovalsValid(g, comps);
      assert (set c | c in comps) == Elements(comps) == Inside(m.rows, g);
      CascadeMirrors(w, m.rows, app, g);
    }
  }

  lemma RemovalsValid(g: string, comps: seq<string>)
    ensures ValidChanges([Change(GroupRemoved, g, None, None, None)] + Removals(comps)) <==> g != "" && "" !in Elements(comps)
  {
    var cs := [Change(GroupRemoved, g, None, None, None)] + Removals(comps);
    if g != "" && "" !in Elements(comps) {
      forall i | 0 <= i < |cs| ensures ValidChange(cs[i]) {
        if i > 0 {
          assert cs[i].entityId == comps[i - 1];
          assert comps[i - 1] in Elements(comps);
        }
      }
    } else if ValidChanges(cs) {
      assert cs[0].entityId == g;
      assert ValidChange(cs[0]);
      forall j | 0 <= j < |comps| ensures comps[j] != "" {
        assert cs[j + 1].entityId == comps[j];
        assert ValidChange(cs[j + 1]);
      }
    }
  }

  lemma CascadeMirrors(w: Work, r: Rows, app: string, g: string)
    requires Mirrors(w.groups, w.compGroup, r, app) && Closed(r) && GroupInApp(r, app, g)
    ensures Mirrors(w.groups - {g}, w.compGroup - Inside(r, g), Cascade(r, g), app)
    ensures Closed(Cascade(r, g)) && (InColumns(r) ==> InColumns(Cascade(r, g)))
  {
    var r' := Cascade(r, g);
    assert GroupsOf(r', app).Keys == GroupsOf(r, app).Keys - {g};
    assert ComponentsOf(r', app).Keys == ComponentsOf(r, app).Keys - Inside(r, g);
    assert forall h :: h != g ==> Inside(r', h) == Inside(r, h);
  }

  lemma AddComponentSets(r: Rows, app: string, id: string, k: Component)
    requires Unused(id, r) && k.appId == app
    ensures
      var r' := r.(components := r.components[id := k]);
      && (forall g :: Inside(r', g) == if g == k.groupId then Inside(r, g) + {id} else Inside(r, g))
      && GroupsOf(r', app) == GroupsOf(r, app)
      && ComponentsOf(r', app).Keys == ComponentsOf(r, app).Keys + {id}
  {
  }

  /** A change to component `id`, of group `g`, leaves the mirror intact if it is intact for that group and that component. */
  lemma MirrorsByGroup(w: Work, r: Rows, w': Work, r': Rows, app: string, g: string, id: string)
    requires Mirrors(w.groups, w.compGroup, r, app) && g in w.groups && r'.groups == r.groups
    requires g in w'.groups && w'.groups == w.groups[g := w'.groups[g]] && w'.groups[g].index == w.groups[g].index
    requires Enumerates(w'.groups[g].comps, Inside(r', g))
    requires forall h :: h != g ==> Inside(r', h) == Inside(r, h)
    requires w'.compGroup.Keys == ComponentsOf(r', app).Keys
    requires forall c :: c != id && c in w'.compGroup ==>
               c in w.compGroup && w'.compGroup[c] == w.compGroup[c] && c in r'.components && r'.components[c] == r.components[c]
    requires id in w'.compGroup ==> w'.compGroup[id] == r'.components[id].groupId
    ensures Mirrors(w'.groups, w'.compGroup, r', app)
  {
    hide Enumerates, Inside;
    assert GroupsOf(r', app) == GroupsOf(r, app);
    forall h | h in w'.groups ensures h in r'.groups && w'.groups[h].index == r'.groups[h].index {
      assert h in GroupsOf(r, app).Keys;
    }
  }

  lemma AddComponentMirrors(w: Work, r: Rows, app: string, g: string, id: string, k: Component)
    requires Mirrors(w.groups, w.compGroup, r, app) && Closed(r) && g in w.groups && Unused(id, r)
    requires k.appId == app && k.groupId == g
    ensures
      var w' := w.(groups := w.groups[g := w.groups[g].(comps := w.groups[g].comps + [id])], compGroup := w.compGroup[id := g]);
      Mirrors(w'.groups, w'.compGroup, r.(components := r.components[id := k]), app)
    ensures Closed(r.(components := r.components[id := k]))
  {
    var r' := r.(components := r.components[id := k]);
    var w' := w.(groups := w.groups[g := w.groups[g].(comps := w.groups[g].comps + [id])], compGroup := w.compGroup[id := g]);
    assert g in GroupsOf(r, app).Keys;
    assert Closed(r');
    AddComponentSets(r, app, id, k);
    AppendEnumerates(w.groups[g].comps, Inside(r, g), id);
    MirrorsByGroup(w, r, w', r', app, g, id);
  }

  lemma AddComponentAgrees(w: Work, m: Meaning, op: Op, newId: string, app: string, cat: Catalog)
    requires op.kind == OpAddComponent && Linked(w, m, app) && Unused(newId, m.rows)
    ensures StepAgrees(w, m, op, newId, app, cat)
  {
    hide Mirrors, Closed, Inside, GroupsOf;
    Counterparts(w, m, app);
    SameTarget(w, m, app, op);
    var e := CompileOp(w, op, newId, app, cat);
    if e.Ok? {
      var g := Named(m, app, op).value;
      ExecOne(m.rows, app, e.value.changes[0]);
      AddComponentMirrors(w, m.rows, app, g, newId, Mean(m, op, newId, app, cat).value.rows.components[newId]);
    }
  }

  lemma WithoutEnumerates(ids: seq<string>, s: set<string>, id: string)
    requires Enumerates(ids, s)
    ensures Enumerates(Without(ids, id), s - {id})
  {
    WithoutElements(ids, id);
  }

  /** Changing a component's place in its group moves no component between groups. */
  lemma MoveComponentMirrors(w: Work, r: Rows, app: string, id: string, index: int)
    requires Mirrors(w.groups, w.compGroup, r, app) && Closed(r) && ComponentInApp(r, app, id)
    ensures
      var r' := r.(components := r.components[id := r.components[id].(index := index)]);
      Mirrors(w.groups, w.compGroup, r', app) && Closed(r')
  {
    var r' := r.(components := r.components[id := r.components[id].(index := index)]);
    assert GroupsOf(r', app) == GroupsOf(r, app);
    assert ComponentsOf(r', app).Keys == ComponentsOf(r, app).Keys;
    assert forall g :: Inside(r', g) == Inside(r, g);
  }

  lemma MoveComponentAgrees(w: Work, m: Meaning, op: Op, newId: string, app: string, cat: Catalog)
    requires op.kind == OpMoveComponent && Linked(w, m, app)
    ensures StepAgrees(w, m, op, newId, app, cat)
  {
    hide Mirrors, Closed, Inside, GroupsOf;
    Counterparts(w, m, app);
    var e := CompileOp(w, op, newId, app, cat);
    if e.Ok? {
      ExecOne(m.rows, app, e.value.changes[0]);
      MoveComponentMirrors(w, m.rows, app, op.componentId, op.index.value);
    }
  }

  lemma {:induction false} WithoutElements(ids: seq<string>, id: string)
    requires NoDup(ids)
    ensures Enumerates(Without(ids, id), Elements(ids) - {id})
  {
    if ids != [] {
      WithoutElements(ids[1..], id);
      assert ids == [ids[0]] + ids[1..];
      assert Elements(ids) == {ids[0]} + Elements(ids[1..]);
      assert ids[0] !in Elements(ids[1..]);
      if ids[0] != id {
        var rest := Without(ids[1..], id);
        assert Elements([ids[0]] + rest) == {ids[0]} + Elements(rest);
        assert ids[0] !in Elements(rest);
      }
    }
  }

  lemma RemoveComponentMirrors(w: Work, r: Rows, app: string, id: string)
    requires Mirrors(w.groups, w.compGroup, r, app) && Closed(r) && id in w.compGroup
    ensures
      var g := w.compGroup[id];
      g in w.groups &&
      var w' := w.(groups := w.groups[g := w.groups[g].(comps := Without(w.groups[g].comps, id))], compGroup := w.compGroup - {id});
      Mirrors(w'.groups, w'.compGroup, r.(components := r.components - {id}), app) && Closed(r.(components := r.components - {id}))
  {
    assert id in ComponentsOf(r, app).Keys;
    var g := w.compGroup[id];
    assert g in GroupsOf(r, app).Keys;
    WithoutEnumerates(w.groups[g].comps, Inside(r, g), id);
    RemoveComponentSets(r, app, id);
    var r' := r.(components := r.components - {id});
    var w' := w.(groups := w.groups[g := w.groups[g].(comps := Without(w.groups[g].comps, id))], compGroup := w.compGroup - {id});
    MirrorsByGroup(w, r, w', r', app, g, id);
  }

  lemma RemoveComponentSets(r: Rows, app: string, id: string)
    requires ComponentInApp(r, app, id)
    ensures
      var r' := r.(components := r.components - {id});
      && (forall g :: Inside(r', g) == if g == r.components[id].groupId then Inside(r, g) - {id} else Inside(r, g))
      && GroupsOf(r', app) == GroupsOf(r, app)
      && ComponentsOf(r', app).Keys == ComponentsOf(r, app).Keys - {id}
  {
  }

  lemma RemoveComponentAgrees(w: Work, m: Meaning, op: Op, newId: string, app: string, cat: Catalog)
    requires op.kind == OpRemoveComponent && Linked(w, m, app)
    ensures StepAgrees(w, m, op, newId, app, cat)
  {
    hide Mirrors, Closed, Inside, GroupsOf;
    Counterparts(w, m, app);
    var id := op.componentId;
    var e := CompileOp(w, op, newId, app, cat);
    if e.Ok? {
      ExecOne(m.rows, app, e.value.changes[0]);
      RemoveComponentMirrors(w, m.rows, app, id);
    }
  }

  lemma OpAgrees(w: Work, m: Meaning, op: Op, newId: string, app: string, cat: Catalog)
    requires Linked(w, m, app) && Unused(newId, m.rows)
    ensures StepAgrees(w, m, op, newId, app, cat)
  {
    match op.kind
    case OpAddGroup => AddGroupAgrees(w, m, op, newId, app, cat);
    case OpRenameGroup => RenameGroupAgrees(w, m, op, newId, app, cat);
    case OpMoveGroup => MoveGroupAgrees(w, m, op, newId, app, cat);
    case OpRemoveGroup => RemoveGroupAgrees(w, m, op, newId, app, cat);
    case OpAddComponent => AddComponentAgrees(w, m, op, newId, app, cat);
    case OpMoveComponent => MoveComponentAgrees(w, m, op, newId, app, cat);
    case OpRemoveComponent => RemoveComponentAgrees(w, m, op, newId, app, cat);
    case OpUnknown =>
  }

  lemma StillFresh(newIds: seq<string>, m: Meaning, op: Op, app: string, cat: Catalog)
    requires newIds != [] && Fresh(newIds, m.rows)
    requires Mean(m, op, newIds[0], app, cat).Ok?
    ensures Fresh(newIds[1..], Mean(m, op, newIds[0], app, cat).value.rows)
  {
    var r' := Mean(m, op, newIds[0], app, cat).value.rows;
    forall i | 0 <= i < |newIds| - 1
      ensures newIds[1..][i] != "" && newIds[1..][i] !in r'.groups && newIds[1..][i] !in r'.components
    {
      assert newIds[1..][i] == newIds[i + 1] && newIds[0] != newIds[i + 1];
    }
  }

  lemma ValidConcat(a: seq<Change>, b: seq<Change>)
    ensures ValidChanges(a + b) <==> ValidChanges(a) && ValidChanges(b)
  {
    if ValidChanges(a + b) {
      forall i | 0 <= i < |a| ensures ValidChange(a[i]) { assert (a + b)[i] == a[i]; }
      forall i | 0 <= i < |b| ensures ValidChange(b[i]) { assert (a + b)[|a| + i] == b[i]; }
    }
  }

  lemma OpVerdict(w: Work, m: Meaning, op: Op, newIds: seq<string>, app: string, cat: Catalog)
    requires newIds != [] && Linked(w, m, app) && Fresh(newIds, m.rows)
    ensures
      var e, n := CompileOp(w, op, newIds[0], app, cat), Mean(m, op, newIds[0], app, cat);
      && (e.Ok? <==> n.Ok?)
      && (e.Err? ==> e.error == n.error)
      && (e.Ok? ==>
            && n.value.ids == m.ids + [e.value.id]
            && Linked(e.value.work, n.value, app)
            && Fresh(newIds[1..], n.value.rows))
  {
    OpAgrees(w, m, op, newIds[0], app, cat);
    if Mean(m, op, newIds[0], app, cat).Ok? {
      StillFresh(newIds, m, op, app, cat);
    }
  }

  /** The compiler refuses an operation list exactly when it has no meaning, for the same reason, and hands out the same ids. */
  lemma {:induction false} SameVerdict(w: Work, m: Meaning, ops: seq<Op>, newIds: seq<string>, app: string, cat: Catalog)
    requires |newIds| == |ops|
    requires Linked(w, m, app) && Fresh(newIds, m.rows)
    ensures CompileFrom(w, ops, newIds, app, cat).Ok? <==> Interpret(m, ops, newIds, app, cat).Ok?
    ensures CompileFrom(w, ops, newIds, app, cat).Err? ==>
              CompileFrom(w, ops, newIds, app, cat).error == Interpret(m, ops, newIds, app, cat).error
    ensures CompileFrom(w, ops, newIds, app, cat).Ok? ==>
              Interpret(m, ops, newIds, app, cat).value.ids == m.ids + CompileFrom(w, ops, newIds, app, cat).value.ids
    decreases |ops|
  {
    hide CompileOp, Mean, Linked, Fresh;
    if ops != [] {
      OpVerdict(w, m, ops[0], newIds, app, cat);
      var e := CompileOp(w, ops[0], newIds[0], app, cat);
      if e.Ok? {
        SameVerdict(e.value.work, Mean(m, ops[0], newIds[0], app, cat).value, ops[1..], newIds[1..], app, cat);
      }
    }
  }

  /** The changes of an accepted list pass exactly when every operation fits, and then leave what the operations mean. */
  lemma {:induction false} SameEffect(w: Work, m: Meaning, ops: seq<Op>, newIds: seq<string>, app: string, cat: Catalog)
    requires |newIds| == |ops|
    requires Linked(w, m, app) && Fresh(newIds, m.rows) && InColumns(m.rows)
    requires CompileFrom(w, ops, newIds, app, cat).Ok?
    ensures
      var c, d := CompileFrom(w, ops, newIds, app, cat), Interpret(m, ops, newIds, app, cat);
      && (Passes(m.rows, app, c.value.changes) <==> AllFit(m, ops, newIds, app, cat))
      && (AllFit(m, ops, newIds, app, cat) ==> d.Ok? && ExecAll(m.rows, app, c.value.changes) == Ok(d.value.rows))
    decreases |ops|
  {
    if ops != [] {
      OpAgrees(w, m, ops[0], newIds[0], app, cat);
      StillFresh(newIds, m, ops[0], app, cat);
      var e := CompileOp(w, ops[0], newIds[0], app, cat).value;
      var n := Mean(m, ops[0], newIds[0], app, cat).value;
      var rest := CompileFrom(e.work, ops[1..], newIds[1..], app, cat).value;
      ValidConcat(e.changes, rest.changes);
      ExecAllConcat(m.rows, app, e.changes, rest.changes);
      if Fits(m, ops[0], app) {
        SameEffect(e.work, n, ops[1..], newIds[1..], app, cat);
      }
    }
  }

  /**
    Compiler correctness, from any application: a call of one to a hundred operations is
    refused exactly when the operations have no meaning; an accepted one passes validation
    and execution exactly when every operation fits, and then leaves exactly the
    rows, and returns exactly the ids, that the operations mean.
  */
  lemma EditIsCorrect(view: seq<GroupView>, r: Rows, ops: seq<Op>, newIds: seq<string>, app: string, cat: Catalog)
    requires |newIds| == |ops|
    requires Closed(r) && InColumns(r) && Lists(view, r, app) && Fresh(newIds, r)
    ensures
      var start := Meaning(r, [], []);
      var c, d := Compile(view, ops, newIds, app, cat), Interpret(start, ops, newIds, app, cat);
      && (|ops| == 0 ==> c == Err(NoChanges)) && (|ops| > 100 ==> c == Err(TooManyChanges))
      && (0 < |ops| <= 100 ==> (c.Ok? <==> d.Ok?) && (c.Err? ==> c.error == d.error))
      && (c.Ok? ==>
            && c.value.ids == d.value.ids
            && (Passes(r, app, c.value.changes) <==> AllFit(start, ops, newIds, app, cat))
            && (Passes(r, app, c.value.changes) ==> ExecAll(r, app, c.value.changes) == Ok(d.value.rows)))
  {
    InitialMirrors(view, r, app);
    var w, start := InitialWork(view), Meaning(r, [], []);
    SameVerdict(w, start, ops, newIds, app, cat);
    if CompileFrom(w, ops, newIds, app, cat).Ok? {
      SameEffect(w, start, ops, newIds, app, cat);
    }
  }

  /** Not every accepted call passes: a position one past the column's range compiles and is then refused as a whole. */
  lemma AcceptedThenRefused()
    ensures
      var r := Rows(map["g" := Group("a", "G", 0)], map[]);
      var cat := Catalog({}, (t, d) => None);
      var move := Op(OpMoveGroup, "g", "", "", "", Some(MAX_INT32 + 1), map[]);
      var c := Compile([GroupView("g", 0, [])], [move], ["n"], "a", cat);
      c.Ok? && ValidChanges(c.value.changes) && ExecAll(r, "a", c.value.changes) == Err(BadData)
  {
    var r := Rows(map["g" := Group("a", "G", 0)], map[]);
    var cat := Catalog({}, (t, d) => None);
    var move := Op(OpMoveGroup, "g", "", "", "", Some(MAX_INT32 + 1), map[]);
    var view := [GroupView("g", 0, [])];
    assert view[..0] == [];
    var w := InitialWork(view);
    assert w == Loaded(Work(map[], map[], []), view[0]);
    assert FindGroup(w, "g") == Some("g");
    var e := CompileOp(w, move, "n", "a", cat).value;
    assert CompileFrom(e.work, [], [], "a", cat) == Ok(Compiled([], []));
    assert CompileFrom(w, [move], ["n"], "a", cat) == Ok(Compiled([None] + [], e.changes + []));
    assert e.changes + [] == e.changes;
    ExecOne(r, "a", e.changes[0]);
    assert e.changes == [e.changes[0]];
  }

  /**
    A component with an empty id can get into the table, because the id that is
    validated is not the id that is stored. From then on the group it sits in can no
    longer be removed by this tool: the emitted cascade names the empty id.
  */
  lemma EmptyIdBlocksRemoval()
    ensures
      var r := Rows(map["g" := Group("a", "G", 0)], map[]);
      var add := Change(ComponentAdded, "x", Some(Payload("", "a", "g", "text", None, None)), None, None);
      var r' := Exec(r, "a", add);
      var cat := Catalog({}, (t, d) => None);
      var remove := Op(OpRemoveGroup, "g", "", "", "", None, map[]);
      && ValidChange(add)
      && r'.Ok? && "" in r'.value.components
      && Mean(Meaning(r'.value, [], []), remove, "n", "a", cat).Ok?
      && !Fits(Meaning(r'.value, [], []), remove, "a")
  {
    var r := Rows(map["g" := Group("a", "G", 0)], map[]);
    var add := Change(ComponentAdded, "x", Some(Payload("", "a", "g", "text", None, None)), None, None);
    var r' := Exec(r, "a", add).value;
    assert "" in Inside(r', "g");
  }
}
