/**
  The component and group rows of every application, and the handlers that
  change them (internal/event/event_service.go over internal/application).

  `Rows` and the `Exec*` functions say what one structural change does to the
  tables; the class `StructureStore` is the store itself, with the loops the
  handlers run, proved to do exactly that.
*/
module Structure {
  import opened Common

  datatype Json =
    | JNull
    | JBool(b: bool)
    | JNumber(n: int)
    | JString(s: string)
    | JArray(items: seq<Json>)
    | JObject(fields: map<string, Json>)

  type Data = map<string, Json>

  datatype Group = Group(appId: string, name: string, index: int)

  datatype Component = Component(groupId: string, appId: string, name: string, data: Data, index: int)

  datatype Rows = Rows(groups: map<string, Group>, components: map<string, Component>)

  datatype ChangeType =
    | ComponentAdded
    | ComponentRemoved
    | ComponentReordered
    | ComponentDataChanged
    | GroupAdded
    | GroupRemoved
    | GroupReordered
    | GroupChanged
    | UnsupportedChange

  /** The `data` object of a change: an absent or non-string text field reads as "". */
  datatype Payload = Payload(id: string, appId: string, groupId: string, name: string, index: Option<int>, data: Option<Data>)

  datatype FieldChange = NotAnObject | NewValue(value: Json)

  datatype Change = Change(
    changeType: ChangeType,
    entityId: string,
    data: Option<Payload>,
    index: Option<int>,
    changedFields: Option<map<string, FieldChange>>)

  datatype ExecError =
    | Unappliable  // ErrUnappliable
    | Invalid      // ErrValidation
    | BadData      // the database refuses the value
    | Internal     // any other error

  // ----- what a column can hold -----

  const MIN_INT32 := -0x8000_0000
  const MAX_INT32 := 0x7FFF_FFFF

  /** `index_order INTEGER NOT NULL` is 32 bits wide; TEXT refuses the NUL character. */
  predicate Storable(name: string, index: int) {
    MIN_INT32 <= index <= MAX_INT32 && '\0' !in name
  }

  // ----- validation before anything is persisted (event_validator.go) -----

  predicate ValidChange(c: Change) {
    && c.changeType != UnsupportedChange
    && c.entityId != ""
    && (c.changeType in {ComponentAdded, GroupAdded, GroupChanged} ==> c.data.Some?)
    && (c.changeType in {ComponentReordered, GroupReordered} ==> c.index.Some?)
    && (c.changeType == ComponentDataChanged ==> c.changedFields.Some?)
  }

  predicate ValidChanges(cs: seq<Change>) {
    forall i :: 0 <= i < |cs| ==> ValidChange(cs[i])
  }

  // ----- what one change does -----

  function IndexOr0(index: Option<int>): int {
    if index.Some? then index.value else 0
  }

  predicate ComponentInApp(r: Rows, app: string, id: string) {
    id in r.components && r.components[id].appId == app
  }

  predicate GroupInApp(r: Rows, app: string, id: string) {
    id in r.groups && r.groups[id].appId == app
  }

  /** upsertTarget: neither the payload nor an existing row may name another application. */
  predicate TargetOk(app: string, claimed: string, existingApp: Option<string>) {
    && (claimed == "" || claimed == app)
    && (existingApp.None? || existingApp.value == app)
  }

  function ComponentOwner(r: Rows, id: string): Option<string> {
    if id in r.components then Some(r.components[id].appId) else None
  }

  function GroupOwner(r: Rows, id: string): Option<string> {
    if id in r.groups then Some(r.groups[id].appId) else None
  }

  function AddComponent(r: Rows, app: string, c: Change): Result<Rows, ExecError> {
    if c.data.None? then Err(Internal)
    else
      var d := c.data.value;
      if !TargetOk(app, d.appId, ComponentOwner(r, d.id)) || !GroupInApp(r, app, d.groupId) then Err(Unappliable)
      else if !Storable(d.name, IndexOr0(d.index)) then Err(BadData)
      else
        var data := if d.data.Some? then d.data.value else map[];
        Ok(r.(components := r.components[d.id := Component(d.groupId, app, d.name, data, IndexOr0(d.index))]))
  }

  function RemoveComponent(r: Rows, app: string, id: string): Result<Rows, ExecError> {
    if !ComponentInApp(r, app, id) then Err(Unappliable) else Ok(r.(components := r.components - {id}))
  }

  function ReorderComponent(r: Rows, app: string, id: string, index: int): Result<Rows, ExecError> {
    if !ComponentInApp(r, app, id) then Err(Unappliable)
    else if !Storable("", index) then Err(BadData)
    else Ok(r.(components := r.components[id := r.components[id].(index := index)]))
  }

  /** The new values of a delta; an entry that is not an object is skipped. */
  function Applied(data: Data, delta: map<string, FieldChange>): Data {
    data + map f | f in delta && delta[f].NewValue? :: delta[f].value
  }

  function PatchComponent(r: Rows, app: string, id: string, delta: Option<map<string, FieldChange>>, missing: ExecError)
    : Result<Rows, ExecError>
  {
    if delta.None? then Err(missing)
    else if !ComponentInApp(r, app, id) then Err(Unappliable)
    else Ok(r.(components := r.components[id := r.components[id].(data := Applied(r.components[id].data, delta.value))]))
  }

  /** Only the data of the component differ: by the new values of the delta, and nothing else. */
  ghost predicate Patched(r: Rows, r': Rows, id: string, delta: map<string, FieldChange>) {
    && r'.groups == r.groups && r'.components.Keys == r.components.Keys && id in r.components
    && (forall k :: k in r.components && k != id ==> r'.components[k] == r.components[k])
    && var c, c' := r.components[id], r'.components[id];
       && c'.groupId == c.groupId && c'.appId == c.appId && c'.name == c.name && c'.index == c.index
       && forall f ::
            if f in delta && delta[f].NewValue? then f in c'.data && c'.data[f] == delta[f].value
            else (f in c'.data <==> f in c.data) && (f in c.data ==> c'.data[f] == c.data[f])
  }

  /** A change of field values succeeds exactly on a component of the application, and sets what it names. */
  lemma DataChangeSetsFields(r: Rows, app: string, c: Change)
    requires c.changeType == ComponentDataChanged
    ensures Exec(r, app, c).Ok? <==>
            c.changedFields.Some? && c.entityId in r.components && r.components[c.entityId].appId == app
    ensures Exec(r, app, c).Ok? ==> Patched(r, Exec(r, app, c).value, c.entityId, c.changedFields.value)
  {
  }

  function AddGroup(r: Rows, app: string, c: Change): Result<Rows, ExecError> {
    if c.data.None? then Err(Internal)
    else
      var d := c.data.value;
      if !TargetOk(app, d.appId, GroupOwner(r, d.id)) then Err(Unappliable)
      else if !Storable(d.name, IndexOr0(d.index)) then Err(BadData)
      else Ok(r.(groups := r.groups[d.id := Group(app, d.name, IndexOr0(d.index))]))
  }

  /** ON DELETE CASCADE: the components of the group go with it, whatever application they name. */
  function Cascade(r: Rows, id: string): Rows {
    Rows(r.groups - {id}, map c | c in r.components && r.components[c].groupId != id :: r.components[c])
  }

  function RemoveGroup(r: Rows, app: string, id: string): Result<Rows, ExecError> {
    if !GroupInApp(r, app, id) then Err(Unappliable) else Ok(Cascade(r, id))
  }

  function ReorderGroup(r: Rows, app: string, id: string, index: int): Result<Rows, ExecError> {
    if !GroupInApp(r, app, id) then Err(Unappliable)
    else if !Storable("", index) then Err(BadData)
    else Ok(r.(groups := r.groups[id := r.groups[id].(index := index)]))
  }

  /** An empty name keeps the stored one, an absent index the stored one. */
  function ChangeGroup(r: Rows, app: string, id: string, data: Option<Payload>): Result<Rows, ExecError> {
    if !GroupInApp(r, app, id) then Err(Unappliable)
    else
      var stored := r.groups[id];
      var name := if data.Some? && data.value.name != "" then data.value.name else stored.name;
      var index := if data.Some? && data.value.index.Some? then data.value.index.value else stored.index;
      if !Storable(name, index) then Err(BadData)
      else Ok(r.(groups := r.groups[id := Group(app, name, index)]))
  }

  function ExecStrict(r: Rows, app: string, c: Change): Result<Rows, ExecError> {
    match c.changeType
    case ComponentAdded => AddComponent(r, app, c)
    case ComponentRemoved => RemoveComponent(r, app, c.entityId)
    case ComponentReordered => ReorderComponent(r, app, c.entityId, IndexOr0(c.index))
    case ComponentDataChanged => PatchComponent(r, app, c.entityId, c.changedFields, Internal)
    case GroupAdded => AddGroup(r, app, c)
    case GroupRemoved => RemoveGroup(r, app, c.entityId)
    case GroupReordered => ReorderGroup(r, app, c.entityId, IndexOr0(c.index))
    case GroupChanged => ChangeGroup(r, app, c.entityId, c.data)
    case UnsupportedChange => Err(Invalid)
  }

  predicate ToleratesStale(t: ChangeType) {
    t in {ComponentRemoved, ComponentReordered, GroupRemoved, GroupReordered, GroupChanged}
  }

  /** One change of an edit: naming a row that is gone is skipped for the tolerant kinds. */
  function Exec(r: Rows, app: string, c: Change): Result<Rows, ExecError> {
    var res := ExecStrict(r, app, c);
    if res == Err(Unappliable) && ToleratesStale(c.changeType) then Ok(r) else res
  }

  function ExecAll(r: Rows, app: string, cs: seq<Change>): Result<Rows, ExecError>
    decreases |cs|
  {
    if cs == [] then Ok(r)
    else
      var first := Exec(r, app, cs[0]);
      if first.Err? then first else ExecAll(first.value, app, cs[1..])
  }

  // ----- validation against execution -----

  predicate LacksDetail(c: Change) {
    (c.changeType in {ComponentReordered, GroupReordered} && c.index.None?) || (c.changeType == GroupChanged && c.data.None?)
  }

  /**
    Validation lets through exactly the changes of a named entity that the executor
    never finds malformed, whatever the rows, less those it would carry out with an
    index of 0 or no new details.
  */
  lemma ValidIffNeverMalformed(r: Rows, app: string, c: Change)
    ensures ValidChange(c) <==> c.entityId != "" && !LacksDetail(c) && Exec(r, app, c) !in {Err(Internal), Err(Invalid)}
  {
  }

  /** The row a change is about: an added one is named by its data, the others by the change. */
  function Subject(c: Change): string {
    if c.changeType in {ComponentAdded, GroupAdded} && c.data.Some? then c.data.value.id else c.entityId
  }

  /** What the columns would hold after the change, where it gives a name or a position. */
  ghost predicate FitsColumns(r: Rows, c: Change) {
    match c.changeType
    case ComponentAdded => c.data.Some? && TextAndPlaceFit(c.data.value.name, c.data.value.index)
    case GroupAdded => c.data.Some? && TextAndPlaceFit(c.data.value.name, c.data.value.index)
    case ComponentReordered => TextAndPlaceFit("", c.index)
    case GroupReordered => TextAndPlaceFit("", c.index)
    case GroupChanged =>
      && c.entityId in r.groups
      && TextAndPlaceFit(if c.data.Some? && c.data.value.name != "" then c.data.value.name else r.groups[c.entityId].name,
                         if c.data.Some? && c.data.value.index.Some? then c.data.value.index else Some(r.groups[c.entityId].index))
    case _ => true
  }

  predicate TextAndPlaceFit(name: string, index: Option<int>) {
    (index.Some? ==> -2147483648 <= index.value < 2147483648) && forall i :: 0 <= i < |name| ==> name[i] != '\0'
  }

  /**
    A valid change is carried out exactly in these cases. Adding needs an id that is
    free or the application's, a payload that names no other application, and, for a
    component, a group of the application. Setting fields needs the component there.
    Everything else does nothing to a row that is gone or foreign, which is no error.
  */
  lemma ChangeSucceedsIff(r: Rows, app: string, c: Change)
    requires ValidChange(c)
    ensures
      var own := if c.changeType in {GroupAdded, GroupRemoved, GroupReordered, GroupChanged} then GroupInApp(r, app, Subject(c))
                 else ComponentInApp(r, app, Subject(c));
      var taken := if c.changeType == GroupAdded then Subject(c) in r.groups else Subject(c) in r.components;
      && (c.changeType in {ComponentAdded, GroupAdded} ==>
            (Exec(r, app, c).Ok? <==>
             && c.data.value.appId in {"", app} && (taken ==> own)
             && (c.changeType == ComponentAdded ==> GroupInApp(r, app, c.data.value.groupId)) && FitsColumns(r, c)))
      && (c.changeType == ComponentDataChanged ==> (Exec(r, app, c).Ok? <==> own))
      && (c.changeType in {ComponentRemoved, ComponentReordered, GroupRemoved, GroupReordered, GroupChanged} ==>
            && (Exec(r, app, c).Ok? <==> (own ==> FitsColumns(r, c)))
            && (!own ==> Exec(r, app, c) == Ok(r)))
  {
  }

  // ----- the invariant and what every handler keeps -----

  /** Every component sits in an existing group of its own application. */
  ghost predicate Closed(r: Rows) {
    forall c :: c in r.components ==>
      && r.components[c].groupId in r.groups
      && r.groups[r.components[c].groupId].appId == r.components[c].appId
  }

  function GroupsOf(r: Rows, app: string): map<string, Group> {
    map g | g in r.groups && r.groups[g].appId == app :: r.groups[g]
  }

  function ComponentsOf(r: Rows, app: string): map<string, Component> {
    map c | c in r.components && r.components[c].appId == app :: r.components[c]
  }

  /** Nothing that belongs to an application other than `app` differs. */
  ghost predicate OthersSame(app: string, r: Rows, r': Rows) {
    forall b :: b != app ==> GroupsOf(r', b) == GroupsOf(r, b) && ComponentsOf(r', b) == ComponentsOf(r, b)
  }

  /** One row of `app` written, in a group of `app`. */
  lemma PutComponentIsolated(r: Rows, app: string, id: string, k: Component)
    requires Closed(r)
    requires id in r.components ==> r.components[id].appId == app
    requires k.appId == app && GroupInApp(r, app, k.groupId)
    ensures Closed(r.(components := r.components[id := k]))
    ensures OthersSame(app, r, r.(components := r.components[id := k]))
  {
    var r' := r.(components := r.components[id := k]);
    forall b | b != app ensures ComponentsOf(r', b) == ComponentsOf(r, b) {
      assert ComponentsOf(r', b).Keys == ComponentsOf(r, b).Keys;
    }
  }

  lemma DropComponentIsolated(r: Rows, app: string, id: string)
    requires Closed(r) && ComponentInApp(r, app, id)
    ensures Closed(r.(components := r.components - {id}))
    ensures OthersSame(app, r, r.(components := r.components - {id}))
  {
    var r' := r.(components := r.components - {id});
    forall b | b != app ensures ComponentsOf(r', b) == ComponentsOf(r, b) {
      assert ComponentsOf(r', b).Keys == ComponentsOf(r, b).Keys;
    }
  }

  lemma PutGroupIsolated(r: Rows, app: string, id: string, g: Group)
    requires Closed(r)
    requires id in r.groups ==> r.groups[id].appId == app
    requires g.appId == app
    ensures Closed(r.(groups := r.groups[id := g]))
    ensures OthersSame(app, r, r.(groups := r.groups[id := g]))
  {
    var r' := r.(groups := r.groups[id := g]);
    forall b | b != app ensures GroupsOf(r', b) == GroupsOf(r, b) {
      assert GroupsOf(r', b).Keys == GroupsOf(r, b).Keys;
    }
  }

  /** Here the closure matters: it is why the cascade meets rows of `app` only. */
  lemma CascadeIsolated(r: Rows, app: string, id: string)
    requires Closed(r) && GroupInApp(r, app, id)
    ensures Closed(Cascade(r, id))
    ensures OthersSame(app, r, Cascade(r, id))
  {
    var r' := Cascade(r, id);
    forall b | b != app ensures GroupsOf(r', b) == GroupsOf(r, b) && ComponentsOf(r', b) == ComponentsOf(r, b) {
      assert GroupsOf(r', b).Keys == GroupsOf(r, b).Keys;
      assert ComponentsOf(r', b).Keys == ComponentsOf(r, b).Keys;
    }
  }

  lemma ExecIsolated(r: Rows, app: string, c: Change)
    requires Closed(r)
    requires Exec(r, app, c).Ok?
    ensures Closed(Exec(r, app, c).value)
    ensures OthersSame(app, r, Exec(r, app, c).value)
  {
    if ExecStrict(r, app, c).Ok? {
      var r' := Exec(r, app, c).value;
      var id := c.entityId;
      match c.changeType {
        case ComponentAdded => PutComponentIsolated(r, app, c.data.value.id, r'.components[c.data.value.id]);
        case ComponentRemoved => DropComponentIsolated(r, app, id);
        case ComponentReordered => PutComponentIsolated(r, app, id, r'.components[id]);
        case ComponentDataChanged => PutComponentIsolated(r, app, id, r'.components[id]);
        case GroupAdded => PutGroupIsolated(r, app, c.data.value.id, r'.groups[c.data.value.id]);
        case GroupRemoved => CascadeIsolated(r, app, id);
        case GroupReordered => PutGroupIsolated(r, app, id, r'.groups[id]);
        case GroupChanged => PutGroupIsolated(r, app, id, r'.groups[id]);
      }
    }
  }

  /** Whatever the changes are, an edit of one application keeps the closure and every other application's rows. */
  lemma {:induction false} ExecAllIsolated(r: Rows, app: string, cs: seq<Change>)
    requires Closed(r)
    requires ExecAll(r, app, cs).Ok?
    ensures Closed(ExecAll(r, app, cs).value)
    ensures OthersSame(app, r, ExecAll(r, app, cs).value)
    decreases |cs|
  {
    if cs != [] {
      ExecIsolated(r, app, cs[0]);
      ExecAllIsolated(Exec(r, app, cs[0]).value, app, cs[1..]);
    }
  }

  /**
    The cascade needs the closure: with a component of application "b" sitting in a
    group of "a", an edit of "a" deletes a row of "b".
  */
  lemma CascadeNeedsClosure()
    ensures exists r, c ::
              && !Closed(r)
              && Exec(r, "a", c).Ok?
              && !OthersSame("a", r, Exec(r, "a", c).value)
  {
    var k := Component("g", "b", "text", map[], 0);
    var r := Rows(map["g" := Group("a", "G", 0)], map["k" := k]);
    var c := Change(GroupRemoved, "g", None, None, None);
    var r' := Exec(r, "a", c).value;
    assert "k" in r.components && r.groups["g"].appId != r.components["k"].appId;
    assert "k" in ComponentsOf(r, "b") && "k" !in ComponentsOf(r', "b");
    assert !OthersSame("a", r, r') by {
      assert ComponentsOf(r', "b") != ComponentsOf(r, "b");
    }
  }

  lemma {:induction false} ExecAllConcat(r: Rows, app: string, a: seq<Change>, b: seq<Change>)
    ensures ExecAll(r, app, a + b) ==
            (var mid := ExecAll(r, app, a); if mid.Err? then mid else ExecAll(mid.value, app, b))
    decreases |a|
  {
    if a == [] {
      assert a + b == b;
    } else {
      assert (a + b)[0] == a[0] && (a + b)[1..] == a[1..] + b;
      if Exec(r, app, a[0]).Ok? {
        ExecAllConcat(Exec(r, app, a[0]).value, app, a[1..], b);
      }
    }
  }

  /** The in-place store: two tables, updated row by row. */
  class StructureStore {
    var groups: map<string, Group>
    var components: map<string, Component>

    constructor ()
      ensures View() == Rows(map[], map[])
    {
      groups := map[];
      components := map[];
    }

    ghost function View(): Rows
      reads this
    {
      Rows(groups, components)
    }

    method DeleteComponentGroup(id: string)
      modifies this
      ensures View() == Cascade(old(View()), id)
    {
      var doomed := set c | c in components && components[c].groupId == id;
      var todo := doomed;
      while todo != {}
        invariant groups == old(groups)
        invariant todo <= doomed
        invariant components == old(components) - (doomed - todo)
      {
        var c :| c in todo;
        components := components - {c};
        todo := todo - {c};
      }
      groups := groups - {id};
    }

    method ApplyDelta(app: string, id: string, delta: Option<map<string, FieldChange>>, missing: ExecError)
      returns (err: Option<ExecError>)
      modifies this
      ensures PatchComponent(old(View()), app, id, delta, missing) == if err.None? then Ok(View()) else Err(err.value)
      ensures err.Some? ==> View() == old(View())
      ensures err.None? ==> delta.Some? && Patched(old(View()), View(), id, delta.value)
    {
      if delta.None? {
        return Some(missing);
      }
      if id !in components || components[id].appId != app {
        return Some(Unappliable);
      }
      var data := components[id].data;
      var todo := delta.value.Keys;
      while todo != {}
        invariant todo <= delta.value.Keys
        invariant data == old(components)[id].data
                          + map f | f in delta.value && f !in todo && delta.value[f].NewValue? :: delta.value[f].value
      {
        var f :| f in todo;
        if delta.value[f].NewValue? {
          data := data[f := delta.value[f].value];
        }
        todo := todo - {f};
      }
      assert data == Applied(old(components)[id].data, delta.value);
      components := components[id := components[id].(data := data)];
      return None;
    }

    method ExecuteChange(app: string, c: Change) returns (err: Option<ExecError>)
      modifies this
      ensures Exec(old(View()), app, c) == if err.None? then Ok(View()) else Err(err.value)
      ensures err.Some? ==> View() == old(View())
    {
      err := None;
      match c.changeType {
        case ComponentAdded =>
          if c.data.None? {
            err := Some(Internal);
          } else {
            var d := c.data.value;
            var owner := if d.id in components then Some(components[d.id].appId) else None;
            if !TargetOk(app, d.appId, owner) || d.groupId !in groups || groups[d.groupId].appId != app {
              err := Some(Unappliable);
            } else if !Storable(d.name, IndexOr0(d.index)) {
              err := Some(BadData);
            } else {
              var data := if d.data.Some? then d.data.value else map[];
              components := components[d.id := Component(d.groupId, app, d.name, data, IndexOr0(d.index))];
            }
          }
        case ComponentRemoved =>
          if c.entityId !in components || components[c.entityId].appId != app {
            err := Some(Unappliable);
          } else {
            components := components - {c.entityId};
          }
        case ComponentReordered =>
          if c.entityId !in components || components[c.entityId].appId != app {
            err := Some(Unappliable);
          } else if !Storable("", IndexOr0(c.index)) {
            err := Some(BadData);
          } else {
            components := components[c.entityId := components[c.entityId].(index := IndexOr0(c.index))];
          }
        case ComponentDataChanged =>
          err := ApplyDelta(app, c.entityId, c.changedFields, Internal);
        case GroupAdded =>
          if c.data.None? {
            err := Some(Internal);
          } else {
            var d := c.data.value;
            var owner := if d.id in groups then Some(groups[d.id].appId) else None;
            if !TargetOk(app, d.appId, owner) {
              err := Some(Unappliable);
            } else if !Storable(d.name, IndexOr0(d.index)) {
              err := Some(BadData);
            } else {
              groups := groups[d.id := Group(app, d.name, IndexOr0(d.index))];
            }
          }
        case GroupRemoved =>
          if c.entityId !in groups || groups[c.entityId].appId != app {
            err := Some(Unappliable);
          } else {
            DeleteComponentGroup(c.entityId);
          }
        case GroupReordered =>
          if c.entityId !in groups || groups[c.entityId].appId != app {
            err := Some(Unappliable);
          } else if !Storable("", IndexOr0(c.index)) {
            err := Some(BadData);
          } else {
            groups := groups[c.entityId := groups[c.entityId].(index := IndexOr0(c.index))];
          }
        case GroupChanged =>
          if c.entityId !in groups || groups[c.entityId].appId != app {
            err := Some(Unappliable);
          } else {
            var name, index := groups[c.entityId].name, groups[c.entityId].index;
            if c.data.Some? && c.data.value.name != "" {
              name := c.data.value.name;
            }
            if c.data.Some? && c.data.value.index.Some? {
              index := c.data.value.index.value;
            }
            if !Storable(name, index) {
              err := Some(BadData);
            } else {
              groups := groups[c.entityId := Group(app, name, index)];
            }
          }
        case UnsupportedChange =>
          err := Some(Invalid);
      }
      if err == Some(Unappliable) && ToleratesStale(c.changeType) {
        err := None;
      }
    }

    /** On an error the store is left half-edited; the caller's transaction puts it back. */
    method ExecuteEdit(app: string, cs: seq<Change>) returns (err: Option<ExecError>)
      modifies this
      ensures ExecAll(old(View()), app, cs).Ok? <==> err.None?
      ensures err.None? ==> ExecAll(old(View()), app, cs) == Ok(View())
      ensures err.Some? ==> ExecAll(old(View()), app, cs) == Err(err.value)
    {
      var i := 0;
      while i < |cs|
        invariant 0 <= i <= |cs|
        invariant ExecAll(old(View()), app, cs) == ExecAll(View(), app, cs[i..])
      {
        err := ExecuteChange(app, cs[i]);
        if err.Some? {
          return;
        }
        assert cs[i..][1..] == cs[i + 1..];
        i := i + 1;
      }
      err := None;
    }
  }
}
