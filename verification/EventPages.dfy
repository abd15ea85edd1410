/**
  Reading the log page by page (GetSince in internal/event/event_repository.go):
  the cursor is an event id, the order is the ordinal, and rows may be pruned or
  appended between two pages.
*/
module EventPages {
  import opened Common
  import opened Events

  /** A member sees the events of the application, a user their own user-scoped ones. */
  predicate Visible(t: Tables, r: Row, user: string, now: int) {
    match r.app
    case Some(app) => FindMember(t, app, user, now).Some?
    case None => r.creator == user
  }

  /** The visible rows after ordinal `c`, in order. */
  function Listing(s: Space, user: string, now: int, c: nat): seq<nat>
    decreases s.nextOrdinal - c
  {
    if c + 1 >= s.nextOrdinal then []
    else
      (if c + 1 in s.log && Visible(s.tables, s.log[c + 1], user, now) then [c + 1] else [])
      + Listing(s, user, now, c + 1)
  }

  const DEFAULT_LIMIT := 100
  const MAX_LIMIT := 500

  function PageLimit(limit: int): (n: nat)
    ensures 1 <= n <= MAX_LIMIT
  {
    if limit <= 0 || limit > MAX_LIMIT then DEFAULT_LIMIT else limit
  }

  datatype Page = Page(ordinals: seq<nat>, hasMore: bool)

  function PageAt(s: Space, user: string, now: int, c: nat, limit: int): Page {
    var all, n := Listing(s, user, now, c), PageLimit(limit);
    if |all| > n then Page(all[..n], true) else Page(all, false)
  }

  /** The ordinal a cursor stands for: 0 for none, nothing when its row is gone. */
  ghost function CursorOrdinal(log: Log, since: string): (c: Option<nat>)
    ensures since == "" ==> c == Some(0)
    ensures since != "" && c.Some? ==> c.value in log && log[c.value].id == since
    ensures c.None? ==> since != "" && !HasId(log, since)
  {
    if since == "" then Some(0)
    else if HasId(log, since) then
      var o :| o in log && log[o].id == since;
      Some(o)
    else None
  }

  function RowsAt(log: Log, ordinals: seq<nat>): seq<Row>
    requires forall i :: 0 <= i < |ordinals| ==> ordinals[i] in log
  {
    seq(|ordinals|, i requires 0 <= i < |ordinals| => log[ordinals[i]])
  }

  // ----- what a page holds -----

  ghost predicate Increasing(s: seq<nat>, above: int) {
    && (forall i, j :: 0 <= i < j < |s| ==> s[i] < s[j])
    && (forall i :: 0 <= i < |s| ==> above < s[i])
  }

  /** The listing is exactly the visible rows after the cursor, each once, in order. */
  lemma {:induction false} ListingIsExact(s: Space, user: string, now: int, c: nat)
    ensures Increasing(Listing(s, user, now, c), c)
    ensures forall o :: o in Listing(s, user, now, c) <==>
                          c < o < s.nextOrdinal && o in s.log && Visible(s.tables, s.log[o], user, now)
    decreases s.nextOrdinal - c
  {
    if c + 1 < s.nextOrdinal {
      ListingIsExact(s, user, now, c + 1);
    }
  }

  /** Told from the rows: a user reads the events of an application with a member row that has not run out, and their own user-scoped ones. */
  predicate Readable(t: Tables, r: Row, user: string, now: int) {
    if r.app.None? then r.creator == user else Belongs(t, r.app.value, user, now)
  }

  /** A listing delivers exactly what the user may read after the cursor. */
  lemma ListingIsReadable(s: Space, user: string, now: int, c: nat, o: nat)
    ensures o in Listing(s, user, now, c) <==> c < o < s.nextOrdinal && o in s.log && Readable(s.tables, s.log[o], user, now)
  {
    ListingIsExact(s, user, now, c);
  }

  /** A page is as long as the client asks, within bounds, or holds all there is; and it says which. */
  lemma PageIsFull(s: Space, user: string, now: int, c: nat, limit: int)
    ensures
      var p, all := PageAt(s, user, now, c, limit), Listing(s, user, now, c);
      var n := if 1 <= limit <= 500 then limit else 100;
      && p.ordinals <= all && |p.ordinals| == (if |all| < n then |all| else n)
      && (p.hasMore <==> |all| > n)
  {
  }

  /** Continuing after a listed row gives the rest of the listing. */
  lemma {:induction false} ListingResumes(s: Space, user: string, now: int, c: nat, k: nat)
    requires k < |Listing(s, user, now, c)|
    ensures Listing(s, user, now, Listing(s, user, now, c)[k]) == Listing(s, user, now, c)[k + 1..]
    decreases s.nextOrdinal - c
  {
    if c + 1 in s.log && Visible(s.tables, s.log[c + 1], user, now) {
      assert Listing(s, user, now, c) == [c + 1] + Listing(s, user, now, c + 1);
      if k > 0 {
        ListingResumes(s, user, now, c + 1, k - 1);
      }
    } else {
      assert Listing(s, user, now, c) == Listing(s, user, now, c + 1);
      ListingResumes(s, user, now, c + 1, k);
    }
  }

  // ----- walking a log nobody touches -----

  /** A page is a prefix of the listing, and when there is more, its last row resumes it. */
  lemma PageIsPrefix(s: Space, user: string, now: int, c: nat, limit: int)
    ensures
      var p, all := PageAt(s, user, now, c, limit), Listing(s, user, now, c);
      && p.ordinals <= all
      && |p.ordinals| <= PageLimit(limit)
      && (!p.hasMore ==> p.ordinals == all)
      && (p.hasMore ==>
            && 0 < |p.ordinals| == PageLimit(limit)
            && var last := p.ordinals[|p.ordinals| - 1];
               && c < last < s.nextOrdinal
               && Listing(s, user, now, last) == all[|p.ordinals|..])
  {
    var p, all := PageAt(s, user, now, c, limit), Listing(s, user, now, c);
    if p.hasMore {
      var last := p.ordinals[|p.ordinals| - 1];
      assert last == all[|p.ordinals| - 1];
      ListingIsExact(s, user, now, c);
      ListingResumes(s, user, now, c, |p.ordinals| - 1);
    }
  }

  /** Page after page, from the last row of the one before, until a page says there is no more. */
  function Walk(s: Space, user: string, now: int, c: nat, limit: int): seq<nat>
    decreases s.nextOrdinal - c
  {
    var p := PageAt(s, user, now, c, limit);
    if !p.hasMore then p.ordinals
    else
      PageIsPrefix(s, user, now, c, limit);
      p.ordinals + Walk(s, user, now, p.ordinals[|p.ordinals| - 1], limit)
  }

  /** A walk delivers exactly the visible rows after the cursor, each once, in order. */
  lemma {:induction false} WalkIsListing(s: Space, user: string, now: int, c: nat, limit: int)
    ensures Walk(s, user, now, c, limit) == Listing(s, user, now, c)
    decreases s.nextOrdinal - c
  {
    hide PageAt, Listing, PageLimit;
    PageIsPrefix(s, user, now, c, limit);
    var p, all := PageAt(s, user, now, c, limit), Listing(s, user, now, c);
    if p.hasMore {
      WalkIsListing(s, user, now, p.ordinals[|p.ordinals| - 1], limit);
      assert all == p.ordinals + all[|p.ordinals|..];
    }
  }

  // ----- walking a log that changes between the pages -----

  datatype Snapshot = Snapshot(space: Space, now: int)

  /** From `a` to `b`, rows may go, and rows may come at new ordinals; none changes. */
  ghost predicate Evolves(a: Space, b: Space) {
    && a.nextOrdinal <= b.nextOrdinal
    && forall o :: o in b.log && o < a.nextOrdinal ==> o in a.log && a.log[o] == b.log[o]
  }

  datatype WalkEnd =
    | Finished(delivered: seq<nat>, pages: nat)
    | Resync(delivered: seq<nat>)      // the cursor's row was pruned
    | Unfinished(delivered: seq<nat>)  // the client stopped asking

  function Prepend(page: seq<nat>, rest: WalkEnd): WalkEnd {
    match rest
    case Finished(d, pages) => Finished(page + d, pages + 1)
    case Resync(d) => Resync(page + d)
    case Unfinished(d) => Unfinished(page + d)
  }

  /** The i-th page is read from the i-th snapshot. */
  function WalkOver(snaps: seq<Snapshot>, user: string, c: nat, limit: int): WalkEnd
    decreases |snaps|
  {
    if snaps == [] then Unfinished([])
    else if c != 0 && c !in snaps[0].space.log then Resync([])
    else
      var p := PageAt(snaps[0].space, user, snaps[0].now, c, limit);
      if !p.hasMore then Finished(p.ordinals, 1)
      else Prepend(p.ordinals, WalkOver(snaps[1..], user, p.ordinals[|p.ordinals| - 1], limit))
  }

  lemma IncreasingConcat(a: seq<nat>, b: seq<nat>, above: int)
    requires a != [] && Increasing(a, above) && Increasing(b, a[|a| - 1])
    ensures Increasing(a + b, above)
  {
    assert above < a[|a| - 1];
  }

  /** However the log changes, no row is delivered twice or out of order, and none at or before the cursor. */
  lemma {:induction false} WalkIsOrdered(snaps: seq<Snapshot>, user: string, c: nat, limit: int)
    ensures Increasing(WalkOver(snaps, user, c, limit).delivered, c)
    decreases |snaps|
  {
    if snaps != [] && (c == 0 || c in snaps[0].space.log) {
      var s, now := snaps[0].space, snaps[0].now;
      ListingIsExact(s, user, now, c);
      var p := PageAt(s, user, now, c, limit);
      if p.hasMore {
        var last := p.ordinals[|p.ordinals| - 1];
        WalkIsOrdered(snaps[1..], user, last, limit);
        IncreasingConcat(p.ordinals, WalkOver(snaps[1..], user, last, limit).delivered, c);
      }
    }
  }

  /** Whatever a walk delivers, the user was allowed to read when its page was. */
  lemma {:induction false} DeliveredIsReadable(snaps: seq<Snapshot>, user: string, c: nat, limit: int, o: nat)
    requires o in WalkOver(snaps, user, c, limit).delivered
    ensures exists i :: 0 <= i < |snaps| && o in snaps[i].space.log
                        && Readable(snaps[i].space.tables, snaps[i].space.log[o], user, snaps[i].now)
    decreases |snaps|
  {
    hide Readable, PageLimit, Listing;
    var s, now := snaps[0].space, snaps[0].now;
    var p := PageAt(s, user, now, c, limit);
    if o in p.ordinals {
      ListingIsReadable(s, user, now, c, o);
    } else {
      var last := p.ordinals[|p.ordinals| - 1];
      DeliveredIsReadable(snaps[1..], user, last, limit, o);
      var i :| 0 <= i < |snaps[1..]| && o in snaps[1..][i].space.log
               && Readable(snaps[1..][i].space.tables, snaps[1..][i].space.log[o], user, snaps[1..][i].now);
      assert snaps[1..][i] == snaps[i + 1];
    }
  }

  /** The user may see `o` at every snapshot that has it. */
  ghost predicate AlwaysVisible(snaps: seq<Snapshot>, user: string, o: nat) {
    forall i :: 0 <= i < |snaps| && o in snaps[i].space.log ==>
                  Visible(snaps[i].space.tables, snaps[i].space.log[o], user, snaps[i].now)
  }

  ghost predicate Evolving(snaps: seq<Snapshot>) {
    && (forall i :: 0 <= i < |snaps| ==> forall o :: o in snaps[i].space.log ==> o < snaps[i].space.nextOrdinal)
    && (forall i, j :: 0 <= i <= j < |snaps| ==> Evolves(snaps[i].space, snaps[j].space))
  }

  /** A page holds every visible row between its cursor and its last row, or every one after the cursor. */
  lemma PageHolds(s: Space, user: string, now: int, c: nat, limit: int, o: nat)
    requires c < o < s.nextOrdinal && o in s.log && Visible(s.tables, s.log[o], user, now)
    ensures
      var p := PageAt(s, user, now, c, limit);
      && (p.hasMore ==> p.ordinals != [])
      && (!p.hasMore || o <= p.ordinals[|p.ordinals| - 1] ==> o in p.ordinals)
  {
    hide PageAt, Visible, PageLimit;
    ListingIsExact(s, user, now, c);
    PageIsPrefix(s, user, now, c, limit);
    var p, all := PageAt(s, user, now, c, limit), Listing(s, user, now, c);
    var i :| 0 <= i < |all| && all[i] == o;
    if p.hasMore && o <= p.ordinals[|p.ordinals| - 1] {
      assert all[|p.ordinals| - 1] == p.ordinals[|p.ordinals| - 1];
      assert p.ordinals[i] == o;
    }
  }

  lemma RestEvolves(snaps: seq<Snapshot>, user: string, o: nat)
    requires Evolving(snaps) && snaps != []
    ensures Evolving(snaps[1..])
    ensures AlwaysVisible(snaps, user, o) ==> AlwaysVisible(snaps[1..], user, o)
  {
    hide Visible, Evolves;
    var rest := snaps[1..];
    assert forall i :: 0 <= i < |rest| ==> rest[i] == snaps[i + 1];
  }

  lemma StillThere(snaps: seq<Snapshot>, user: string, k: nat, o: nat)
    requires Evolving(snaps) && AlwaysVisible(snaps, user, o)
    requires k < |snaps| && o in snaps[k].space.log && o < snaps[0].space.nextOrdinal
    ensures o in snaps[0].space.log && Visible(snaps[0].space.tables, snaps[0].space.log[o], user, snaps[0].now)
  {
    assert Evolves(snaps[0].space, snaps[k].space);
  }

  /**
    A finished walk misses nothing that is still there: a row of the last page's
    snapshot after the cursor, visible whenever present, was delivered.
  */
  lemma {:induction false} WalkIsComplete(snaps: seq<Snapshot>, user: string, c: nat, limit: int, o: nat)
    requires Evolving(snaps)
    requires WalkOver(snaps, user, c, limit).Finished?
    ensures
      var walk := WalkOver(snaps, user, c, limit);
      && 1 <= walk.pages <= |snaps|
      && (c < o && o in snaps[walk.pages - 1].space.log && AlwaysVisible(snaps, user, o) ==> o in walk.delivered)
    decreases |snaps|
  {
    hide Visible, PageLimit, PageAt, Evolves, AlwaysVisible;
    var s, now, rest := snaps[0].space, snaps[0].now, snaps[1..];
    var p, walk := PageAt(s, user, now, c, limit), WalkOver(snaps, user, c, limit);
    if p.hasMore {
      PageIsPrefix(s, user, now, c, limit);
      var last := p.ordinals[|p.ordinals| - 1];
      RestEvolves(snaps, user, o);
      WalkIsComplete(rest, user, last, limit, o);
    }
    var k := walk.pages - 1;
    if c < o && o in snaps[k].space.log && AlwaysVisible(snaps, user, o) && o < s.nextOrdinal {
      StillThere(snaps, user, k, o);
      PageHolds(s, user, now, c, limit, o);
    }
  }
}
