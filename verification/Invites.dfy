/**
  Invitations (internal/invitation): the rules for creating one, the row with its
  use counter, and one join from start to end.
*/
module Invites {
  import opened Common

  const MAX_EXPIRATION_HOURS := 48
  const MAX_MEMBER_BOUND_EXPIRATION_HOURS := 720
  const MAX_MEMBERSHIP_DURATION_HOURS := 8760

  datatype Options = Options(
    role: string,
    maxUses: Option<int>,
    expiresInHours: Option<int>,
    grantsMembership: Option<bool>,
    grantsIdentity: Option<bool>,
    grantsSpaceUse: Option<bool>,
    membershipDurationHours: Option<int>,
    memberKeys: seq<string>)

  datatype Invite = Invite(
    role: string,
    maxUses: Option<int>,
    usedCount: int,
    grantsMembership: bool,
    grantsIdentity: bool,
    grantsSpaceUse: bool,
    membershipDurationHours: Option<int>,
    memberKeys: seq<string>)

  datatype CreateError = SpaceUseNotAllowed | InvalidRole | InvalidOptions

  predicate GrantableName(role: string) {
    role == "admin" || role == "member" || role == "viewer"
  }

  function Or<T>(o: Option<T>, default_: T): T {
    if o.Some? then o.value else default_
  }

  /** CreateInvitation once the caller may invite; `spaceOwner` is the caller's role in the space. */
  function Create(spaceOwner: bool, o: Options): Result<Invite, CreateError> {
    var role := if o.role == "" then "member" else o.role;
    var bound := o.memberKeys != [];
    var maxUses := if bound then Some(|o.memberKeys|) else o.maxUses;
    var maxExpiry := if bound then MAX_MEMBER_BOUND_EXPIRATION_HOURS else MAX_EXPIRATION_HOURS;
    if Or(o.grantsSpaceUse, false) && !spaceOwner then Err(SpaceUseNotAllowed)
    else if !GrantableName(role) then Err(InvalidRole)
    else if o.expiresInHours.Some? && !(0 <= o.expiresInHours.value <= maxExpiry) then Err(InvalidOptions)
    else if maxUses.Some? && maxUses.value < 1 then Err(InvalidOptions)
    else if o.membershipDurationHours.Some? && !(1 <= o.membershipDurationHours.value <= MAX_MEMBERSHIP_DURATION_HOURS) then
      Err(InvalidOptions)
    else
      var membership := Or(o.grantsMembership, true);
      var identity := membership && Or(o.grantsIdentity, true);
      var spaceUse := membership && Or(o.grantsSpaceUse, false);
      var uses := if (identity || spaceUse) && maxUses.None? then Some(1) else maxUses;
      Ok(Invite(role, uses, 0, membership, identity, spaceUse, o.membershipDurationHours, o.memberKeys))
  }

  /** An invite that can mint accounts or promote guests is always limited, and a preview can do neither. */
  lemma PowersAreLimited(spaceOwner: bool, o: Options)
    ensures
      var r := Create(spaceOwner, o);
      r.Ok? ==>
        && GrantableName(r.value.role)
        && (r.value.grantsIdentity || r.value.grantsSpaceUse ==> r.value.grantsMembership && r.value.maxUses.Some?)
        && (r.value.grantsSpaceUse ==> spaceOwner)
        && (r.value.maxUses.Some? ==> r.value.maxUses.value >= 1)
        && (r.value.memberKeys != [] ==> r.value.maxUses == Some(|r.value.memberKeys|))
        && r.value.usedCount == 0
  {
  }

  /** Unset means no bound. */
  predicate Within(lo: int, x: Option<int>, hi: int) {
    x.Some? ==> lo <= x.value <= hi
  }

  /**
    An invite is created exactly within these limits, and is what was asked for: role
    and duration as given, bound to the given keys with a use for each, and otherwise
    with the uses asked for, or one if it has powers; what it grants is what was asked,
    membership and accounts unless said otherwise, and nothing without membership.
  */
  lemma CreatedAsAsked(spaceOwner: bool, o: Options)
    ensures
      var r, bound := Create(spaceOwner, o), |o.memberKeys| > 0;
      && (r.Ok? <==>
          && (o.grantsSpaceUse == Some(true) ==> spaceOwner)
          && o.role in {"", "admin", "member", "viewer"}
          && Within(0, o.expiresInHours, if bound then 720 else 48)
          && (!bound && o.maxUses.Some? ==> o.maxUses.value >= 1)
          && Within(1, o.membershipDurationHours, 8760))
      && (r.Ok? ==>
          var i := r.value;
          && (if o.role == "" then i.role == "member" else i.role == o.role)
          && i.membershipDurationHours == o.membershipDurationHours && i.memberKeys == o.memberKeys && i.usedCount == 0
          && (i.grantsMembership <==> o.grantsMembership != Some(false))
          && (i.grantsIdentity <==> o.grantsMembership != Some(false) && o.grantsIdentity != Some(false))
          && (i.grantsSpaceUse <==> o.grantsMembership != Some(false) && o.grantsSpaceUse == Some(true))
          && i.maxUses == (if bound then Some(|o.memberKeys|)
                           else if o.maxUses.Some? then o.maxUses
                           else if i.grantsIdentity || i.grantsSpaceUse then Some(1)
                           else None))
  {
  }

  // ----- the row -----

  predicate Claimable(row: Option<Invite>) {
    row.Some? && (row.value.maxUses.None? || row.value.usedCount < row.value.maxUses.value)
  }

  function Claimed(row: Option<Invite>): Option<Invite> {
    if Claimable(row) then Some(row.value.(usedCount := row.value.usedCount + 1)) else row
  }

  function Released(row: Option<Invite>): Option<Invite> {
    if row.Some? && row.value.usedCount > 0 then Some(row.value.(usedCount := row.value.usedCount - 1)) else row
  }

  /** A claim takes one use while one is left; a release puts one back, and never goes below none. */
  lemma ClaimsAndReleases(row: Option<Invite>)
    requires row.Some?
    ensures
      var used := row.value.usedCount;
      && Claimed(row).Some? && Claimed(row).value.(usedCount := used) == row.value
      && Claimed(row).value.usedCount == (if row.value.maxUses.Some? && used >= row.value.maxUses.value then used else used + 1)
      && Released(row).Some? && Released(row).value.(usedCount := used) == row.value
      && Released(row).value.usedCount == (if used <= 0 then used else used - 1)
      && (Claimable(row) && used >= 0 ==> Released(Claimed(row)) == row)
  {
  }

  /** How one join turns out where that is decided elsewhere: each field is one call it makes. */
  datatype Luck = Luck(
    isNew: bool,          // no account with this key yet
    created: bool,        // CreateUser, EnsureDevice and the re-fetch go through
    admitted: bool,       // the device is admitted and the membership lookup goes through
    isMember: bool,
    mayPromote: bool,     // canPromote, and the invite was not used by this account before
    promoted: bool,
    produced: bool)       // member_added goes through

  datatype Outcome = Added | AlreadyMember(promoted: bool) | Failed

  /**
    What a join comes to: one use when a member is added or promoted, or that was
    tried and failed, and none otherwise.
  */
  function Joined(row: Option<Invite>, luck: Luck): (Option<Invite>, Outcome) {
    if !Claimable(row) || (luck.isNew && !luck.created) || !luck.admitted then (row, Outcome.Failed)
    else if luck.isMember && !luck.mayPromote then (row, AlreadyMember(false))
    else if luck.isMember then (Claimed(row), if luck.promoted then AlreadyMember(true) else Outcome.Failed)
    else (Claimed(row), if luck.produced then Added else Outcome.Failed)
  }

  class InviteRow {
    var row: Option<Invite>

    constructor (invite: Invite)
      ensures row == Some(invite)
    {
      row := Some(invite);
    }

    method IncrementUseCount() returns (ok: bool)
      modifies this
      ensures row == Claimed(old(row)) && ok == Claimable(old(row))
    {
      ok := row.Some? && (row.value.maxUses.None? || row.value.usedCount < row.value.maxUses.value);
      if ok {
        row := Some(row.value.(usedCount := row.value.usedCount + 1));
      }
    }

    method ReleaseUse()
      modifies this
      ensures row == Released(old(row))
    {
      if row.Some? && row.value.usedCount > 0 {
        row := Some(row.value.(usedCount := row.value.usedCount - 1));
      }
    }

    method Delete() returns (ok: bool)
      modifies this
      ensures row == None && ok == old(row).Some?
    {
      ok := row.Some?;
      row := None;
    }

    /** With nobody else at the row: claims that are given back leave no trace. */
    method Join(luck: Luck) returns (out: Outcome)
      requires row.Some? ==> row.value.usedCount >= 0
      modifies this
      ensures (row, out) == Joined(old(row), luck)
    {
      if row.None? || (row.value.maxUses.Some? && row.value.usedCount >= row.value.maxUses.value) {
        return Failed;
      }
      var heldClaim := false;
      if luck.isNew {
        var ok := IncrementUseCount();
        if !ok {
          return Failed;
        }
        heldClaim := true;
        if !luck.created {
          ReleaseUse();
          return Failed;
        }
      }
      if !luck.admitted {
        if heldClaim {
          ReleaseUse();
        }
        return Failed;
      }
      if luck.isMember {
        if heldClaim {
          heldClaim := false;
          ReleaseUse();
        }
        if !luck.mayPromote {
          return AlreadyMember(false);
        }
        var ok := IncrementUseCount();
        if !ok || !luck.promoted {
          return Failed;
        }
        return AlreadyMember(true);
      }
      if !heldClaim {
        var ok := IncrementUseCount();
        if !ok {
          return Failed;
        }
      }
      heldClaim := false;
      return if luck.produced then Added else Failed;
    }
  }
}
