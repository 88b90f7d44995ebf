/**
 * User ids: on save, a user without an id but with a role gets the role's
 * one-letter prefix followed by the Unix time in whole seconds. An id, once
 * set, is kept by every later save.
 */
module Users {
  import opened Outcomes
  import opened Decimal

  /** `ROLE_PREFIX.get(role, 'X')`. */
  function RolePrefix(role: string): (c: char)
    ensures c in {'M', 'S', 'A', 'X'}
    ensures c == 'M' <==> role == "member"
    ensures c == 'S' <==> role == "store"
    ensures c == 'A' <==> role == "admin"
  {
    if role == "member" then 'M'
    else if role == "store" then 'S'
    else if role == "admin" then 'A'
    else 'X'
  }

  /** The id generated for a role at a given second. */
  function GeneratedId(role: string, seconds: nat): (id: string)
    ensures |id| >= 2 && id[0] == RolePrefix(role) && AllDigits(id[1..])
  {
    [RolePrefix(role)] + Show(seconds)
  }

  /** The id column is nullable and may be blank; either counts as no id. */
  predicate Present(userId: Option<string>)
  {
    userId.Some? && userId.value != ""
  }

  /** The id a save leaves behind. */
  function IdAfterSave(userId: Option<string>, role: string, seconds: nat): (r: Option<string>)
    ensures Present(userId) ==> r == userId
    ensures !Present(userId) && role == "" ==> r == userId
    ensures !Present(userId) && role != "" ==> r == Some(GeneratedId(role, seconds))
  {
    if !Present(userId) && role != "" then Some(GeneratedId(role, seconds)) else userId
  }

  class User {
    var userId: Option<string>
    var role: string

    /** A new user; the role defaults to "member" in the schema. */
    constructor (userId: Option<string>, role: string)
      ensures this.userId == userId && this.role == role
    {
      this.userId := userId;
      this.role := role;
    }

    /** `save()`: the clock's Unix seconds are a parameter. */
    method Save(seconds: nat)
      modifies this
      ensures role == old(role)
      ensures userId == IdAfterSave(old(userId), old(role), seconds)
    {
      if !Present(userId) && role != "" {
        userId := Some(GeneratedId(role, seconds));
      }
    }
  }

  /** A generated id reads back as its role's prefix and the second it was made. */
  lemma GeneratedIdRoundTrip(role: string, seconds: nat)
    ensures GeneratedId(role, seconds)[0] == RolePrefix(role)
    ensures ValueOf(GeneratedId(role, seconds)[1..]) == seconds
  {
    assert GeneratedId(role, seconds)[1..] == Show(seconds);
    ValueOfShow(seconds);
  }

  /** Saving again, whenever and however often, never changes an id a save has
      produced or the user already had. */
  lemma SaveKeepsId(userId: Option<string>, role: string, first: nat, later: nat)
    ensures IdAfterSave(IdAfterSave(userId, role, first), role, later) == IdAfterSave(userId, role, first)
  {
  }

  /** A user with a role has an id after one save. */
  lemma SaveWithRoleGivesId(userId: Option<string>, role: string, seconds: nat)
    requires role != ""
    ensures Present(IdAfterSave(userId, role, seconds))
  {
  }

  /** Different seconds give different ids; two users of roles with the same
      prefix saved within the same second get the same id, which the column's
      uniqueness then refuses. */
  lemma GeneratedIdsDistinct(role1: string, s1: nat, role2: string, s2: nat)
    ensures GeneratedId(role1, s1) == GeneratedId(role2, s2) <==> RolePrefix(role1) == RolePrefix(role2) && s1 == s2
  {
    if GeneratedId(role1, s1) == GeneratedId(role2, s2) {
      GeneratedIdRoundTrip(role1, s1);
      GeneratedIdRoundTrip(role2, s2);
    }
  }
}
