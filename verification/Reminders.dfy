/**
  Reminder rows (internal/reminder): a rule update replaces the rows of its rule,
  the scheduler fires and advances one row at a time.
*/
module Reminders {
  import opened Common
  import opened Offsets

  const TOMBSTONE := -1
  const GRACE_WINDOW := 86400

  datatype RowKey = RowKey(rule: string, index: int)

  datatype State = Pending | Done | Skipped | Cancelled

  /** A reminder_changed event. An empty recurrence means once. */
  datatype Update = Update(
    rule: string,
    app: string,
    component: string,
    targetKey: string,
    title: string,
    tz: string,
    rrule: string,
    dueAt: int,
    offsets: seq<string>,
    recipients: seq<string>,
    cancelled: bool,
    rev: int)

  datatype Row = Row(
    app: string,
    component: string,
    targetKey: string,
    title: string,
    tz: string,
    rrule: string,
    offset: string,
    anchorAt: int,
    dueAt: int,
    fireAt: int,
    recipients: seq<string>,
    state: State,
    rev: int)

  type Rows = map<RowKey, Row>

  /** `next(rrule, tz, anchor, current)`: the recurrence library; nothing when the series ends, or the rule does not parse. */
  datatype Calendar = Calendar(next: (string, string, int, int) -> Option<int>)

  function NextOccurrence(cal: Calendar, row: Row): Option<int> {
    if row.rrule == "" then None else cal.next(row.rrule, row.tz, row.anchorAt, row.dueAt)
  }

  function NewRow(u: Update, offset: string, fireAt: int, state: State): Row {
    Row(u.app, u.component, u.targetKey, u.title, u.tz, u.rrule, offset, u.dueAt, u.dueAt, fireAt, u.recipients, state, u.rev)
  }

  /** validateReminderChangedData, as far as it concerns the rows. */
  ghost predicate ValidUpdate(u: Update) {
    && u.rule != "" && u.component != "" && u.targetKey != "" && u.tz != ""
    && u.dueAt > 0 && u.rev >= 0 && u.offsets != []
    && forall i :: 0 <= i < |u.offsets| ==> IsOffset(u.offsets[i])
  }

  // ----- what an update does -----

  predicate Stale(rows: Rows, u: Update) {
    exists k :: k in rows && k.rule == u.rule && u.rev <= rows[k].rev
  }

  function Without(rows: Rows, rule: string): Rows {
    map k | k in rows && k.rule != rule :: rows[k]
  }

  function Fresh(u: Update): Rows
    requires u.cancelled || OffsetsParse(u)
  {
    if u.cancelled then map[RowKey(u.rule, TOMBSTONE) := NewRow(u, "PT0S", u.dueAt, Cancelled)]
    else FirstRows(u, |u.offsets|)
  }

  predicate Parses(u: Update, i: int) {
    0 <= i < |u.offsets| && FireAt(u.dueAt, u.offsets[i]).Some?
  }

  predicate OffsetsParse(u: Update) {
    forall i :: 0 <= i < |u.offsets| ==> Parses(u, i)
  }

  /** The row of the i-th offset as a rule update inserts it. */
  function OffsetRow(u: Update, i: int): Row
    requires Parses(u, i)
  {
    NewRow(u, u.offsets[i], FireAt(u.dueAt, u.offsets[i]).value, Pending)
  }

  function FirstRows(u: Update, n: nat): Rows
    requires forall i :: 0 <= i < n ==> Parses(u, i)
  {
    if n == 0 then map[] else FirstRows(u, n - 1)[RowKey(u.rule, n - 1) := OffsetRow(u, n - 1)]
  }

  lemma {:induction false} FirstRowAt(u: Update, n: nat, k: RowKey)
    requires forall i :: 0 <= i < n ==> Parses(u, i)
    ensures k in FirstRows(u, n) <==> k.rule == u.rule && 0 <= k.index < n
    ensures k in FirstRows(u, n) ==> FirstRows(u, n)[k] == OffsetRow(u, k.index)
  {
    hide Parses, OffsetRow;
    if n > 0 {
      FirstRowAt(u, n - 1, k);
    }
  }

  lemma ParsedRow(u: Update, i: nat)
    requires i < |u.offsets|
    ensures Parses(u, i) <==> FireAt(u.dueAt, u.offsets[i]).Some?
    ensures Parses(u, i) ==> OffsetRow(u, i) == NewRow(u, u.offsets[i], FireAt(u.dueAt, u.offsets[i]).value, Pending)
  {
  }

  lemma NoRows(rows: Rows, u: Update)
    ensures rows + FirstRows(u, 0) == rows
  {
  }

  lemma NextRow(rows: Rows, u: Update, n: nat)
    requires forall i :: 0 <= i <= n ==> Parses(u, i)
    ensures (rows + FirstRows(u, n))[RowKey(u.rule, n) := OffsetRow(u, n)] == rows + FirstRows(u, n + 1)
  {
    hide Parses, OffsetRow;
  }

  predicate NoNul(s: string) {
    '\0' !in s
  }

  /** What the table asks of every row: its component exists, and no text holds a NUL. */
  predicate Insertable(components: set<string>, u: Update) {
    && u.component in components
    && NoNul(u.rule) && NoNul(u.app) && NoNul(u.component) && NoNul(u.targetKey) && NoNul(u.title) && NoNul(u.tz) && NoNul(u.rrule)
    && (forall i :: 0 <= i < |u.offsets| ==> NoNul(u.offsets[i]))
    && forall i :: 0 <= i < |u.recipients| ==> NoNul(u.recipients[i])
  }

  /** A stale update changes nothing; a bad offset or a row the table refuses rolls everything back. */
  function Applied(rows: Rows, components: set<string>, u: Update): Result<Rows, ()> {
    if Stale(rows, u) then Ok(rows)
    else if !u.cancelled && !OffsetsParse(u) then Err(())
    else if (u.cancelled || u.offsets != []) && !Insertable(components, u) then Err(())
    else Ok(Without(rows, u.rule) + Fresh(u))
  }

  ghost predicate HasNul(s: string) {
    exists i :: 0 <= i < |s| && s[i] == '\0'
  }

  /** A valid update is taken exactly if it is stale, and then does nothing, or its component is there and no text of it holds a NUL. */
  lemma UpdateIsTakenIff(rows: Rows, components: set<string>, u: Update)
    requires ValidUpdate(u) && OffsetsParse(u)
    ensures
      var r := Applied(rows, components, u);
      var stale := exists k :: k in rows && k.rule == u.rule && rows[k].rev >= u.rev;
      && (stale ==> r == Ok(rows))
      && (!stale ==>
            (r.Ok? <==>
             && u.component in components
             && !HasNul(u.rule) && !HasNul(u.app) && !HasNul(u.component) && !HasNul(u.targetKey) && !HasNul(u.title)
             && !HasNul(u.tz) && !HasNul(u.rrule)
             && (forall i :: 0 <= i < |u.offsets| ==> !HasNul(u.offsets[i]))
             && (forall i :: 0 <= i < |u.recipients| ==> !HasNul(u.recipients[i]))))
  {
    hide Fresh, OffsetsParse;
    NulIsInText(u);
  }

  lemma NulIsInText(u: Update)
    ensures forall s :: NoNul(s) <==> !HasNul(s)
  {
    forall s ensures NoNul(s) <==> !HasNul(s) {
      if !NoNul(s) {
        assert '\0' in s;
      }
    }
  }

  // ----- what the scheduler does -----

  /** How `ProduceEvent` ends: stored, refused for good, or failed for now. */
  datatype Produced = Stored | Unappliable | Failed

  predicate WithinGrace(now: int, fireAt: int) {
    now - fireAt <= GRACE_WINDOW
  }

  function Advanced(cal: Calendar, row: Row): Option<Row> {
    var next := NextOccurrence(cal, row);
    if next.None? then Some(row.(state := State.Done))
    else
      var fireAt := FireAt(next.value, row.offset);
      if fireAt.None? then None else Some(row.(dueAt := next.value, fireAt := fireAt.value))
  }

  /** The row after processing, and whether an event was produced; an error leaves the row as it was. */
  function Processed(cal: Calendar, row: Row, now: int, produced: Produced): (Row, bool) {
    if row.state != Pending then (row, false)
    else if !WithinGrace(now, row.fireAt) then (row.(state := Skipped), false)
    else if Scan(row.offset).None? || produced.Failed? then (row, false)
    else if produced.Unappliable? then (row.(state := Skipped), false)
    else
      var row' := Advanced(cal, row);
      (if row'.None? then row else row'.value, true)
  }

  function Due(rows: Rows, now: int): (due: set<RowKey>)
    ensures due <= rows.Keys
  {
    set k | k in rows && rows[k].state == Pending && rows[k].fireAt <= now
  }

  const BATCH_SIZE := 100

  /** The worklist of a tick: due rows, earliest first, each once, as many as fit. */
  ghost predicate Worklist(rows: Rows, now: int, keys: seq<RowKey>) {
    && NoDup(keys) && |keys| == (if |Due(rows, now)| < BATCH_SIZE then |Due(rows, now)| else BATCH_SIZE)
    && (forall i :: 0 <= i < |keys| ==> keys[i] in Due(rows, now))
    && (forall i, j :: 0 <= i < j < |keys| ==> rows[keys[i]].fireAt <= rows[keys[j]].fireAt)
    && (forall i, k :: 0 <= i < |keys| && k in Due(rows, now) && k !in keys ==> rows[keys[i]].fireAt <= rows[k].fireAt)
  }

  /** A worklist is at most a hundred rows; a shorter one has every pending row whose time has come, and no other. */
  lemma WorklistIsDue(rows: Rows, now: int, keys: seq<RowKey>)
    requires Worklist(rows, now, keys)
    ensures |keys| <= 100
    ensures |keys| < 100 ==> forall k :: k in keys <==> k in rows && rows[k].state == Pending && rows[k].fireAt <= now
  {
    NoDupCardinality(keys);
    if |keys| < 100 {
      assert Elements(keys) <= Due(rows, now);
      SubsetIsWhole(Elements(keys), Due(rows, now));
    }
  }

  lemma SubsetIsWhole<T>(a: set<T>, b: set<T>)
    requires a <= b && |a| == |b|
    ensures a == b
  {
    SubsetCardinality(b - a, {});
  }

  class ReminderStore {
    var components: set<string>
    var rows: Rows

    constructor (components: set<string>)
      ensures this.components == components && rows == map[]
    {
      this.components, rows := components, map[];
    }

    method StoredRev(rule: string) returns (rev: Option<int>)
      ensures rev.None? <==> forall k :: k in rows ==> k.rule != rule
      ensures rev.Some? ==> (exists k :: k in rows && k.rule == rule && rows[k].rev == rev.value)
                            && forall k :: k in rows && k.rule == rule ==> rows[k].rev <= rev.value
    {
      rev := None;
      var todo := rows.Keys;
      while todo != {}
        invariant todo <= rows.Keys
        invariant rev.None? ==> forall k :: k in rows && k !in todo ==> k.rule != rule
        invariant rev.Some? ==> (exists k :: k in rows && k.rule == rule && rows[k].rev == rev.value)
                                && forall k :: k in rows && k !in todo && k.rule == rule ==> rows[k].rev <= rev.value
      {
        var k :| k in todo;
        todo := todo - {k};
        if k.rule == rule && (rev.None? || rev.value < rows[k].rev) {
          rev := Some(rows[k].rev);
        }
      }
    }

    /** One row for each offset, up to the first that does not parse or that the table refuses. */
    method InsertRows(u: Update) returns (ok: bool)
      modifies this`rows
      ensures ok <==> OffsetsParse(u) && (u.offsets != [] ==> Insertable(components, u))
      ensures ok ==> rows == old(rows) + FirstRows(u, |u.offsets|)
    {
      hide FireAt, FirstRows, NewRow, Insertable, Parses, OffsetRow;
      var i := 0;
      NoRows(rows, u);
      while i < |u.offsets|
        invariant 0 <= i <= |u.offsets|
        invariant forall j :: 0 <= j < i ==> Parses(u, j)
        invariant 0 < i ==> Insertable(components, u)
        invariant rows == old(rows) + FirstRows(u, i)
      {
        var fireAt := FireAt(u.dueAt, u.offsets[i]);
        ParsedRow(u, i);
        if fireAt.None? {
          return false;
        }
        if !Insertable(components, u) {
          return false;
        }
        NextRow(old(rows), u, i);
        rows := rows[RowKey(u.rule, i) := NewRow(u, u.offsets[i], fireAt.value, Pending)];
        i := i + 1;
      }
      return true;
    }

    /** One transaction: on an error the rows are put back. */
    method ApplyRuleChange(u: Update) returns (ok: bool)
      modifies this`rows
      ensures ok <==> Applied(old(rows), components, u).Ok?
      ensures rows == if ok then Applied(old(rows), components, u).value else old(rows)
    {
      hide FirstRows, OffsetsParse, Insertable;
      var stored := StoredRev(u.rule);
      assert Stale(rows, u) <==> stored.Some? && u.rev <= stored.value;
      if stored.Some? && u.rev <= stored.value {
        return true;
      }
      var before := rows;
      rows := map k | k in rows && k.rule != u.rule :: rows[k];
      if u.cancelled {
        if !Insertable(components, u) {
          rows := before;
          return false;
        }
        rows := rows[RowKey(u.rule, TOMBSTONE) := NewRow(u, "PT0S", u.dueAt, Cancelled)];
        return true;
      }
      ok := InsertRows(u);
      if !ok {
        rows := before;
      }
    }

    /** `lockRow` and `processRow`: a row that is gone or no longer pending is left alone. */
    method ProcessRow(cal: Calendar, key: RowKey, now: int, produced: Produced) returns (fired: bool)
      modifies this`rows
      ensures rows == if key in old(rows) then old(rows)[key := Processed(cal, old(rows)[key], now, produced).0] else old(rows)
      ensures fired == (key in old(rows) && Processed(cal, old(rows)[key], now, produced).1)
    {
      if key !in rows || rows[key].state != Pending {
        return false;
      }
      var row := rows[key];
      if now - row.fireAt > GRACE_WINDOW {
        rows := rows[key := row.(state := Skipped)];
        return false;
      }
      if Scan(row.offset).None? || produced.Failed? {
        return false;
      }
      if produced.Unappliable? {
        rows := rows[key := row.(state := Skipped)];
        return false;
      }
      var next := NextOccurrence(cal, row);
      if next.None? {
        rows := rows[key := row.(state := State.Done)];
      } else {
        var fireAt := FireAt(next.value, row.offset);
        if fireAt.Some? {
          rows := rows[key := row.(dueAt := next.value, fireAt := fireAt.value)];
        }
      }
      return true;
    }

    method Earliest(among: set<RowKey>) returns (first: RowKey)
      requires among != {} && among <= rows.Keys
      ensures first in among && forall k :: k in among ==> rows[first].fireAt <= rows[k].fireAt
    {
      first :| first in among;
      var todo := among - {first};
      while todo != {}
        invariant todo <= among && first in among
        invariant forall k :: k in among && k !in todo ==> rows[first].fireAt <= rows[k].fireAt
      {
        var k :| k in todo;
        todo := todo - {k};
        if rows[k].fireAt < rows[first].fireAt {
          first := k;
        }
      }
    }

    method SelectDueRowKeys(now: int) returns (keys: seq<RowKey>)
      ensures Worklist(rows, now, keys)
      ensures |keys| <= 100 && (|keys| < 100 ==> forall k :: k in keys <==> k in rows && rows[k].state == Pending && rows[k].fireAt <= now)
    {
      keys := DueKeys(now);
      WorklistIsDue(rows, now, keys);
    }

    method DueKeys(now: int) returns (keys: seq<RowKey>)
      ensures Worklist(rows, now, keys)
    {
      hide Due;
      keys := [];
      var todo := Due(rows, now);
      ghost var all := todo;
      while todo != {} && |keys| < BATCH_SIZE
        invariant todo <= all == Due(rows, now)
        invariant NoDup(keys) && |keys| <= BATCH_SIZE && |keys| + |todo| == |all|
        invariant forall i :: 0 <= i < |keys| ==> keys[i] in all && keys[i] !in todo
        invariant forall k :: k in all && k !in todo ==> k in keys
        invariant forall i, j :: 0 <= i < j < |keys| ==> rows[keys[i]].fireAt <= rows[keys[j]].fireAt
        invariant forall i, k :: 0 <= i < |keys| && k in todo ==> rows[keys[i]].fireAt <= rows[k].fireAt
        decreases todo
      {
        var first := Earliest(todo);
        keys := keys + [first];
        todo := todo - {first};
      }
    }

    /** Each row on its own: what becomes of one does not depend on the others, and the rest is untouched. */
    method Tick(cal: Calendar, now: int, clock: RowKey -> int, fate: RowKey -> Produced) returns (keys: seq<RowKey>)
      modifies this`rows
      ensures Worklist(old(rows), now, keys)
      ensures rows.Keys == old(rows).Keys
      ensures forall k :: k in rows ==>
                rows[k] == if k in keys then Processed(cal, old(rows)[k], clock(k), fate(k)).0 else old(rows)[k]
    {
      hide Processed;
      keys := SelectDueRowKeys(now);
      var i := 0;
      while i < |keys|
        invariant 0 <= i <= |keys|
        invariant rows.Keys == old(rows).Keys
        invariant forall k :: k in rows ==>
                    rows[k] == if k in keys[..i] then Processed(cal, old(rows)[k], clock(k), fate(k)).0 else old(rows)[k]
      {
        assert keys[i] !in keys[..i];
        assert keys[..i + 1] == keys[..i] + [keys[i]];
        var fired := ProcessRow(cal, keys[i], clock(keys[i]), fate(keys[i]));
        i := i + 1;
      }
      assert keys[..i] == keys;
    }
  }
}
