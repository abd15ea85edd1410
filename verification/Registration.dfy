/**
  RegisterApplication (internal/application) on the structure tables: the groups
  and components of the request are upserted by id, and a row that already exists
  keeps the application it belongs to, whoever registers.
*/
module Registration {
  import opened Common
  import opened Structure

  datatype ComponentIn = ComponentIn(id: string, name: string, data: Data, index: int)

  datatype GroupIn = GroupIn(id: string, name: string, index: int, components: seq<ComponentIn>)

  predicate AllNamed(gs: seq<GroupIn>) {
    forall g :: g in gs ==> g.id != "" && forall c :: c in g.components ==> c.id != ""
  }

  /** ON CONFLICT (id): name and position are replaced, the application is not. */
  function PutGroup(r: Rows, app: string, g: GroupIn): Result<Rows, ExecError> {
    if !Storable(g.name, g.index) || '\0' in g.id then Err(BadData)
    else
      var owner := if g.id in r.groups then r.groups[g.id].appId else app;
      Ok(r.(groups := r.groups[g.id := Group(owner, g.name, g.index)]))
  }

  /** ON CONFLICT (id): everything but the application is replaced, the group too. */
  function PutComponent(r: Rows, app: string, groupId: string, c: ComponentIn): Result<Rows, ExecError> {
    if !Storable(c.name, c.index) || '\0' in c.id then Err(BadData)
    else
      var owner := if c.id in r.components then r.components[c.id].appId else app;
      Ok(r.(components := r.components[c.id := Component(groupId, owner, c.name, c.data, c.index)]))
  }

  function PutComponents(r: Rows, app: string, groupId: string, cs: seq<ComponentIn>): Result<Rows, ExecError>
    decreases |cs|
  {
    if cs == [] then Ok(r)
    else
      var first := PutComponent(r, app, groupId, cs[0]);
      if first.Err? then first else PutComponents(first.value, app, groupId, cs[1..])
  }

  function PutGroups(r: Rows, app: string, gs: seq<GroupIn>): Result<Rows, ExecError>
    decreases |gs|
  {
    if gs == [] then Ok(r)
    else
      var group := PutGroup(r, app, gs[0]);
      if group.Err? then group
      else
        var components := PutComponents(group.value, app, gs[0].id, gs[0].components);
        if components.Err? then components else PutGroups(components.value, app, gs[1..])
  }

  function RegisterRows(r: Rows, app: string, gs: seq<GroupIn>): Result<Rows, ExecError> {
    if !AllNamed(gs) then Err(Invalid) else PutGroups(r, app, gs)
  }

  ghost predicate ComponentFits(c: ComponentIn) {
    c.id != "" && '\0' !in c.id && TextAndPlaceFit(c.name, Some(c.index))
  }

  ghost predicate GroupFits(g: GroupIn) {
    g.id != "" && '\0' !in g.id && TextAndPlaceFit(g.name, Some(g.index)) && forall c :: c in g.components ==> ComponentFits(c)
  }

  lemma {:induction false} ComponentsAreTakenIff(r: Rows, app: string, groupId: string, cs: seq<ComponentIn>)
    requires forall c :: c in cs ==> c.id != ""
    ensures PutComponents(r, app, groupId, cs).Ok? <==> forall c :: c in cs ==> ComponentFits(c)
    decreases |cs|
  {
    if cs != [] {
      assert cs[0] in cs && cs == [cs[0]] + cs[1..];
      if PutComponent(r, app, groupId, cs[0]).Ok? {
        ComponentsAreTakenIff(PutComponent(r, app, groupId, cs[0]).value, app, groupId, cs[1..]);
      }
    }
  }

  lemma {:induction false} GroupsAreTakenIff(r: Rows, app: string, gs: seq<GroupIn>)
    requires AllNamed(gs)
    ensures PutGroups(r, app, gs).Ok? <==> forall g :: g in gs ==> GroupFits(g)
    decreases |gs|
  {
    if gs != [] {
      var g := gs[0];
      assert g in gs && gs == [g] + gs[1..];
      if PutGroup(r, app, g).Ok? {
        var r1 := PutGroup(r, app, g).value;
        ComponentsAreTakenIff(r1, app, g.id, g.components);
        if PutComponents(r1, app, g.id, g.components).Ok? {
          GroupsAreTakenIff(PutComponents(r1, app, g.id, g.components).value, app, gs[1..]);
        }
      }
    }
  }

  /** A request is taken, whatever the rows, exactly if everything in it has an id and fits the columns. */
  lemma RequestIsTakenIff(r: Rows, app: string, gs: seq<GroupIn>)
    ensures RegisterRows(r, app, gs).Ok? <==> forall g :: g in gs ==> GroupFits(g)
  {
    if AllNamed(gs) {
      GroupsAreTakenIff(r, app, gs);
    }
  }

  // ----- whose rows a registration touches -----

  predicate OwnComponents(r: Rows, app: string, cs: seq<ComponentIn>) {
    forall c :: c in cs && c.id in r.components ==> r.components[c.id].appId == app
  }

  /** No id of the request is that of another application's group or component. */
  predicate OwnIds(r: Rows, app: string, gs: seq<GroupIn>) {
    forall g :: g in gs ==> (g.id in r.groups ==> r.groups[g.id].appId == app) && OwnComponents(r, app, g.components)
  }

  lemma {:induction false} OwnComponentsIsolated(r: Rows, app: string, groupId: string, cs: seq<ComponentIn>)
    requires Closed(r) && GroupInApp(r, app, groupId) && OwnComponents(r, app, cs)
    requires PutComponents(r, app, groupId, cs).Ok?
    ensures
      var r' := PutComponents(r, app, groupId, cs).value;
      && Closed(r') && OthersSame(app, r, r') && r'.groups == r.groups
      && forall ds :: OwnComponents(r, app, ds) ==> OwnComponents(r', app, ds)
    decreases |cs|
  {
    if cs != [] {
      var r1 := PutComponent(r, app, groupId, cs[0]).value;
      PutComponentIsolated(r, app, cs[0].id, r1.components[cs[0].id]);
      OwnComponentsIsolated(r1, app, groupId, cs[1..]);
    }
  }

  /** With ids of its own only, a registration keeps the tables closed and leaves every other application alone. */
  lemma {:induction false} OwnIdsIsolated(r: Rows, app: string, gs: seq<GroupIn>)
    requires Closed(r) && OwnIds(r, app, gs) && PutGroups(r, app, gs).Ok?
    ensures Closed(PutGroups(r, app, gs).value) && OthersSame(app, r, PutGroups(r, app, gs).value)
    decreases |gs|
  {
    if gs != [] {
      var g := gs[0];
      var r1 := PutGroup(r, app, g).value;
      PutGroupIsolated(r, app, g.id, r1.groups[g.id]);
      assert g in gs;
      OwnComponentsIsolated(r1, app, g.id, g.components);
      OwnIdsIsolated(PutComponents(r1, app, g.id, g.components).value, app, gs[1..]);
    }
  }

  // ----- the same ids under another name -----

  function ComponentsAs(cs: seq<ComponentIn>, name: string): (r: seq<ComponentIn>)
    ensures |r| == |cs|
  {
    seq(|cs|, i requires 0 <= i < |cs| => ComponentIn(cs[i].id, name, map[], 0))
  }

  /** A request with the same ids, where everything is called `name`. */
  function RequestAs(gs: seq<GroupIn>, name: string): (r: seq<GroupIn>)
    ensures |r| == |gs|
  {
    seq(|gs|, i requires 0 <= i < |gs| => GroupIn(gs[i].id, name, 0, ComponentsAs(gs[i].components, name)))
  }

  ghost predicate SameComponentIds(cs: seq<ComponentIn>, ds: seq<ComponentIn>) {
    |cs| == |ds| && forall i :: 0 <= i < |cs| ==> cs[i].id == ds[i].id
  }

  ghost predicate SameIds(gs: seq<GroupIn>, hs: seq<GroupIn>) {
    && |gs| == |hs|
    && forall i :: 0 <= i < |gs| ==> gs[i].id == hs[i].id && SameComponentIds(gs[i].components, hs[i].components)
  }

  ghost predicate NoNulIds(gs: seq<GroupIn>) {
    forall g :: g in gs ==> '\0' !in g.id && forall c :: c in g.components ==> '\0' !in c.id
  }

  ghost predicate ComponentsNamed(cs: seq<ComponentIn>, name: string) {
    forall c :: c in cs ==> c.name == name && c.index == 0 && '\0' !in c.id
  }

  ghost predicate RequestNamed(gs: seq<GroupIn>, name: string) {
    forall g :: g in gs ==> g.name == name && g.index == 0 && '\0' !in g.id && ComponentsNamed(g.components, name)
  }

  /** `id` keeps its owner, and its name too unless that becomes `name`. */
  ghost predicate GroupIsOrBecomes(r: Rows, r': Rows, id: string, name: string) {
    id in r.groups ==>
      id in r'.groups && r'.groups[id].appId == r.groups[id].appId && r'.groups[id].name in {r.groups[id].name, name}
  }

  ghost predicate ComponentIsOrBecomes(r: Rows, r': Rows, id: string, name: string) {
    id in r.components ==>
      && id in r'.components && r'.components[id].appId == r.components[id].appId
      && r'.components[id].name in {r.components[id].name, name}
  }

  lemma {:induction false} ComponentsRenamed(r: Rows, app: string, groupId: string, cs: seq<ComponentIn>, name: string)
    requires ComponentsNamed(cs, name) && '\0' !in name
    ensures PutComponents(r, app, groupId, cs).Ok?
    ensures
      var r' := PutComponents(r, app, groupId, cs).value;
      && r'.groups == r.groups
      && (forall id :: ComponentIsOrBecomes(r, r', id, name))
      && forall c :: c in cs ==> c.id in r'.components && r'.components[c.id].name == name
    decreases |cs|
  {
    if cs != [] {
      var r1 := PutComponent(r, app, groupId, cs[0]).value;
      ComponentsRenamed(r1, app, groupId, cs[1..], name);
      var r' := PutComponents(r, app, groupId, cs).value;
      assert ComponentIsOrBecomes(r1, r', cs[0].id, name);
      forall id ensures ComponentIsOrBecomes(r, r', id, name) {
        assert ComponentIsOrBecomes(r1, r', id, name);
      }
    }
  }

  lemma {:induction false} RequestRenamed(r: Rows, app: string, gs: seq<GroupIn>, name: string)
    requires RequestNamed(gs, name) && '\0' !in name
    ensures PutGroups(r, app, gs).Ok?
    ensures
      var r' := PutGroups(r, app, gs).value;
      && (forall id :: GroupIsOrBecomes(r, r', id, name) && ComponentIsOrBecomes(r, r', id, name))
      && (forall g :: g in gs ==> g.id in r'.groups && r'.groups[g.id].name == name)
      && (forall g, c :: g in gs && c in g.components ==> c.id in r'.components && r'.components[c.id].name == name)
    decreases |gs|
  {
    if gs != [] {
      var g := gs[0];
      assert g in gs;
      var r1 := PutGroup(r, app, g).value;
      ComponentsRenamed(r1, app, g.id, g.components, name);
      var r2 := PutComponents(r1, app, g.id, g.components).value;
      RequestRenamed(r2, app, gs[1..], name);
      var r' := PutGroups(r, app, gs).value;
      assert GroupIsOrBecomes(r2, r', g.id, name);
      forall id ensures GroupIsOrBecomes(r, r', id, name) && ComponentIsOrBecomes(r, r', id, name) {
        assert GroupIsOrBecomes(r2, r', id, name) && ComponentIsOrBecomes(r2, r', id, name);
        assert ComponentIsOrBecomes(r1, r2, id, name);
      }
      forall c | c in g.components ensures c.id in r'.components && r'.components[c.id].name == name {
        assert ComponentIsOrBecomes(r2, r', c.id, name);
      }
    }
  }

  // ----- the exact condition -----

  /** A registration of `app` with these rows keeps the tables closed and other applications' rows as they are. */
  ghost predicate Harmless(r: Rows, app: string, gs: seq<GroupIn>) {
    RegisterRows(r, app, gs).Ok? ==>
      Closed(RegisterRows(r, app, gs).value) && OthersSame(app, r, RegisterRows(r, app, gs).value)
  }

  /** Some string other than this one. */
  function Unlike(s: string): (t: string)
    ensures t != s && '\0' !in t
  {
    if s == "" then "a" else ""
  }

  lemma RequestAsKeepsIds(gs: seq<GroupIn>, name: string)
    requires AllNamed(gs) && NoNulIds(gs)
    ensures SameIds(gs, RequestAs(gs, name)) && AllNamed(RequestAs(gs, name)) && RequestNamed(RequestAs(gs, name), name)
  {
    var hs := RequestAs(gs, name);
    forall h | h in hs
      ensures h.id != "" && '\0' !in h.id && h.name == name && h.index == 0 && ComponentsNamed(h.components, name)
      ensures forall c :: c in h.components ==> c.id != ""
    {
      var i :| 0 <= i < |hs| && hs[i] == h;
      assert gs[i] in gs;
      forall c | c in h.components ensures c.id != "" && '\0' !in c.id && c.name == name && c.index == 0 {
        var j :| 0 <= j < |h.components| && h.components[j] == c;
        assert gs[i].components[j] in gs[i].components;
      }
    }
  }

  lemma ForeignGroupIsRenamed(r: Rows, app: string, gs: seq<GroupIn>, i: nat) returns (hs: seq<GroupIn>)
    requires AllNamed(gs) && NoNulIds(gs)
    requires i < |gs| && gs[i].id in r.groups && r.groups[gs[i].id].appId != app
    ensures SameIds(gs, hs) && !Harmless(r, app, hs)
  {
    var id := gs[i].id;
    var name, b := Unlike(r.groups[id].name), r.groups[id].appId;
    hs := RequestAs(gs, name);
    RequestAsKeepsIds(gs, name);
    RequestRenamed(r, app, hs, name);
    var r' := RegisterRows(r, app, hs).value;
    assert hs[i] in hs && GroupIsOrBecomes(r, r', id, name);
    assert GroupsOf(r, b)[id] != GroupsOf(r', b)[id];
  }

  lemma ForeignComponentIsRenamed(r: Rows, app: string, gs: seq<GroupIn>, i: nat, j: nat) returns (hs: seq<GroupIn>)
    requires AllNamed(gs) && NoNulIds(gs)
    requires i < |gs| && j < |gs[i].components|
    requires gs[i].components[j].id in r.components && r.components[gs[i].components[j].id].appId != app
    ensures SameIds(gs, hs) && !Harmless(r, app, hs)
  {
    var id := gs[i].components[j].id;
    var name, b := Unlike(r.components[id].name), r.components[id].appId;
    hs := RequestAs(gs, name);
    RequestAsKeepsIds(gs, name);
    RequestRenamed(r, app, hs, name);
    var r' := RegisterRows(r, app, hs).value;
    assert hs[i] in hs && hs[i].components[j] in hs[i].components && ComponentIsOrBecomes(r, r', id, name);
    assert ComponentsOf(r, b)[id] != ComponentsOf(r', b)[id];
  }

  lemma ForeignIdIsRenamed(r: Rows, app: string, gs: seq<GroupIn>) returns (hs: seq<GroupIn>)
    requires AllNamed(gs) && NoNulIds(gs) && !OwnIds(r, app, gs)
    ensures SameIds(gs, hs) && !Harmless(r, app, hs)
  {
    hide Harmless, SameIds, AllNamed, NoNulIds;
    var g :| g in gs && !((g.id in r.groups ==> r.groups[g.id].appId == app) && OwnComponents(r, app, g.components));
    var i :| 0 <= i < |gs| && gs[i] == g;
    if g.id in r.groups && r.groups[g.id].appId != app {
      hs := ForeignGroupIsRenamed(r, app, gs, i);
    } else {
      var c :| c in g.components && c.id in r.components && r.components[c.id].appId != app;
      var j :| 0 <= j < |g.components| && g.components[j] == c;
      hs := ForeignComponentIsRenamed(r, app, gs, i, j);
    }
  }

  lemma {:induction false} AcceptedComponentsHaveNoNul(r: Rows, app: string, groupId: string, cs: seq<ComponentIn>)
    requires PutComponents(r, app, groupId, cs).Ok?
    ensures forall c :: c in cs ==> '\0' !in c.id
    decreases |cs|
  {
    if cs != [] {
      AcceptedComponentsHaveNoNul(PutComponent(r, app, groupId, cs[0]).value, app, groupId, cs[1..]);
    }
  }

  lemma {:induction false} AcceptedHasNoNul(r: Rows, app: string, gs: seq<GroupIn>)
    requires PutGroups(r, app, gs).Ok?
    ensures NoNulIds(gs)
    decreases |gs|
  {
    if gs != [] {
      var g := gs[0];
      var r1 := PutGroup(r, app, g).value;
      AcceptedComponentsHaveNoNul(r1, app, g.id, g.components);
      AcceptedHasNoNul(PutComponents(r1, app, g.id, g.components).value, app, gs[1..]);
    }
  }

  /** What depends on the ids alone is the same for two requests with the same ids. */
  lemma SameIdsAgree(r: Rows, app: string, gs: seq<GroupIn>, hs: seq<GroupIn>)
    requires SameIds(gs, hs)
    ensures AllNamed(hs) && NoNulIds(hs) ==> AllNamed(gs) && NoNulIds(gs)
    ensures OwnIds(r, app, gs) ==> OwnIds(r, app, hs)
  {
    forall i | 0 <= i < |gs| && AllNamed(hs) && NoNulIds(hs)
      ensures gs[i].id != "" && '\0' !in gs[i].id && forall c :: c in gs[i].components ==> c.id != "" && '\0' !in c.id
    {
      assert hs[i] in hs;
      forall j | 0 <= j < |gs[i].components| ensures gs[i].components[j].id != "" && '\0' !in gs[i].components[j].id {
        assert hs[i].components[j] in hs[i].components;
      }
    }
    forall i | 0 <= i < |hs| && OwnIds(r, app, gs)
      ensures (hs[i].id in r.groups ==> r.groups[hs[i].id].appId == app) && OwnComponents(r, app, hs[i].components)
    {
      assert gs[i] in gs;
      forall j | 0 <= j < |hs[i].components| && hs[i].components[j].id in r.components
        ensures r.components[hs[i].components[j].id].appId == app
      {
        assert gs[i].components[j] in gs[i].components;
      }
    }
  }

  /**
    With these ids, registering is harmless whatever else the request says, if and
    only if none of the ids is another application's (or the ids alone get it refused).
  */
  lemma RegistrationIsHarmlessIffOwn(r: Rows, app: string, gs: seq<GroupIn>)
    requires Closed(r)
    ensures
      (forall hs :: SameIds(gs, hs) ==> Harmless(r, app, hs)) <==>
      (AllNamed(gs) && NoNulIds(gs) ==> OwnIds(r, app, gs))
  {
    if AllNamed(gs) && NoNulIds(gs) && !OwnIds(r, app, gs) {
      var hs := ForeignIdIsRenamed(r, app, gs);
    } else {
      forall hs | SameIds(gs, hs) ensures Harmless(r, app, hs) {
        if RegisterRows(r, app, hs).Ok? {
          SameIdsAgree(r, app, gs, hs);
          AcceptedHasNoNul(r, app, hs);
          OwnIdsIsolated(r, app, hs);
        }
      }
    }
  }

  /** The loops over the request; on an error the transaction puts both tables back. */
  method RegisterStructure(store: StructureStore, app: string, gs: seq<GroupIn>) returns (err: Option<ExecError>)
    modifies store
    ensures RegisterRows(old(store.View()), app, gs) == if err.None? then Ok(store.View()) else Err(err.value)
    ensures err.Some? ==> store.View() == old(store.View())
  {
    if !AllNamed(gs) {
      return Some(Invalid);
    }
    var groups0, components0 := store.groups, store.components;
    var i := 0;
    while i < |gs|
      invariant 0 <= i <= |gs|
      invariant PutGroups(old(store.View()), app, gs) == PutGroups(store.View(), app, gs[i..])
    {
      var g := gs[i];
      if !Storable(g.name, g.index) || '\0' in g.id {
        store.groups, store.components := groups0, components0;
        return Some(BadData);
      }
      var owner := if g.id in store.groups then store.groups[g.id].appId else app;
      store.groups := store.groups[g.id := Group(owner, g.name, g.index)];
      err := PutAll(store, app, g.id, g.components);
      if err.Some? {
        store.groups, store.components := groups0, components0;
        return;
      }
      assert gs[i..][1..] == gs[i + 1..];
      i := i + 1;
    }
    err := None;
  }

  method PutAll(store: StructureStore, app: string, groupId: string, cs: seq<ComponentIn>) returns (err: Option<ExecError>)
    modifies store
    ensures PutComponents(old(store.View()), app, groupId, cs).Ok? <==> err.None?
    ensures err.None? ==> PutComponents(old(store.View()), app, groupId, cs) == Ok(store.View())
    ensures err.Some? ==> PutComponents(old(store.View()), app, groupId, cs) == Err(err.value)
  {
    var j := 0;
    while j < |cs|
      invariant 0 <= j <= |cs|
      invariant PutComponents(old(store.View()), app, groupId, cs) == PutComponents(store.View(), app, groupId, cs[j..])
    {
      var c := cs[j];
      if !Storable(c.name, c.index) || '\0' in c.id {
        return Some(BadData);
      }
      var owner := if c.id in store.components then store.components[c.id].appId else app;
      store.components := store.components[c.id := Component(groupId, owner, c.name, c.data, c.index)];
      assert cs[j..][1..] == cs[j + 1..];
      j := j + 1;
    }
    err := None;
  }
}
