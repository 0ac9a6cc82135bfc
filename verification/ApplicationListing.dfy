/** Listing the applications to an opportunity, with the applicants' roles in the project. */
module ApplicationListing {
  import opened Domain
  import opened Text
  import opened Workflow
  import opened Invariants
  import opened Ordering
  import opened Discovery
  import opened OpportunityListing

  datatype ApplicationView =
    | Full(id: string, opportunityId: string, userId: string, notes: string, status: ApplicationStatus,
           createdAt: int, updatedAt: int, existingRole: Option<MemberRole>)
    | Limited(userId: string, status: ApplicationStatus, createdAt: int)

  predicate IsAdminOrPm(caller: Caller) {
    caller.Some? && exists role | role in caller.value.roles ::
      role in {"Connect Admin", "administrator", "Project Manager"}
  }

  /** `rows` are the live members of project `p`, in the order in which they were fetched; a missing project or
      project 0 has none. */
  ghost predicate FetchesMembers(t: Tables, p: Option<Id>, rows: seq<Id>) {
    forall m :: m in rows <==>
      m in t.members && !t.members[m].deleted && p == Some(t.members[m].projectId) && p != Some(0)
  }

  /** `a` may stand before `b`: the order is by creation time, and equal times are in any order. */
  predicate InOrder(direction: Direction, a: int, b: int) {
    if direction.Asc? then a <= b else a >= b
  }

  ghost predicate InCreationOrder(t: Tables, direction: Direction, rows: seq<Id>) {
    && (forall a | a in rows :: a in t.applications)
    && forall i, j | 0 <= i < j < |rows| ::
         InOrder(direction, t.applications[rows[i]].createdAt, t.applications[rows[j]].createdAt)
  }

  /** `rows` are the live applications to opportunity `o`, each once, by creation time in the given direction. */
  ghost predicate FetchesApplications(t: Tables, o: Id, direction: Direction, rows: seq<Id>) {
    && (forall a :: a in rows <==> ApplicationTo(t.applications, a, o))
    && Distinct(rows) && InCreationOrder(t, direction, rows)
  }

  /** A live membership of user `u` in the project of an opportunity. */
  ghost predicate Joined(t: Tables, m: Id, p: Option<Id>, u: nat) {
    p.Some? && p.value != 0 && MemberOf(t.members, m, p.value, u)
  }

  /** The roles that user `u` has in project `p`: at most one when memberships are unique. */
  ghost predicate HasRole(t: Tables, p: Option<Id>, u: nat, role: MemberRole) {
    exists m :: Joined(t, m, p, u) && t.members[m].role == role
  }

  /** `role` is the role of user `u` in project `p`, or None if there is no live membership. */
  ghost predicate RoleIs(t: Tables, p: Option<Id>, u: nat, role: Option<MemberRole>) {
    && (role.Some? <==> exists m :: Joined(t, m, p, u))
    && (forall r :: HasRole(t, p, u, r) ==> role == Some(r))
  }

  function Lookup(roles: map<string, MemberRole>, u: nat): Option<MemberRole> {
    if Decimal(u) in roles then Some(roles[Decimal(u)]) else None
  }

  /** Fills the Map from user id to role; a later row would replace an earlier one. */
  method RolesByUserId(t: Tables, p: Option<Id>, rows: seq<Id>) returns (roles: map<string, MemberRole>)
    requires MembersUnique(t.members) && FetchesMembers(t, p, rows)
    ensures forall u: nat :: RoleIs(t, p, u, Lookup(roles, u))
  {
    hide Decimal;
    roles := map[];
    for i := 0 to |rows|
      invariant forall u: nat :: Decimal(u) in roles <==> exists k :: 0 <= k < i && Joined(t, rows[k], p, u)
      invariant forall u: nat | Decimal(u) in roles :: HasRole(t, p, u, roles[Decimal(u)])
    {
      assert rows[i] in rows;
      var member := t.members[rows[i]];
      assert Joined(t, rows[i], p, member.userId);
      ghost var before := roles;
      roles := roles[Decimal(member.userId) := member.role];
      forall u: nat
        ensures Decimal(u) in roles <==> exists k :: 0 <= k < i + 1 && Joined(t, rows[k], p, u)
        ensures Decimal(u) in roles ==> HasRole(t, p, u, roles[Decimal(u)])
      {
        if Decimal(u) == Decimal(member.userId) {
          DecimalInjective(u, member.userId);
        }
      }
    }
    forall u: nat
      ensures RoleIs(t, p, u, Lookup(roles, u))
    {
      if m :| Joined(t, m, p, u) {
        var k :| 0 <= k < |rows| && rows[k] == m;
        assert Joined(t, rows[k], p, u);
      }
      forall role | HasRole(t, p, u, role)
        ensures Lookup(roles, u) == Some(role)
      {
        OneRole(t, p, u, role, roles[Decimal(u)]);
      }
    }
  }

  function FormatApplication(t: Tables, a: Id, role: Option<MemberRole>): ApplicationView
    requires a in t.applications
  {
    var row := t.applications[a];
    Full(Decimal(a), Decimal(row.opportunityId), Decimal(row.userId), row.notes, row.status,
         row.createdAt, row.updatedAt, role)
  }

  datatype ApplicationList = Listed(views: seq<ApplicationView>) | NoOpportunity

  /** The caller may see applications whole. */
  predicate SeesWhole(caller: Caller) {
    && caller.Some?
    && (|| "administrator" in caller.value.roles || "Connect Admin" in caller.value.roles
        || "Project Manager" in caller.value.roles)
  }

  /** What a caller sees of application `a`, given the project of the opportunity. */
  ghost predicate ShownAs(t: Tables, p: Option<Id>, a: Id, caller: Caller, view: ApplicationView) {
    a in t.applications
    && var row := t.applications[a];
       && ParseDecimalOf(view.userId) == Some(row.userId)
       && view.status == row.status && view.createdAt == row.createdAt
       && if SeesWhole(caller) then
            && view.Full? && ParseDecimalOf(view.id) == Some(a)
            && ParseDecimalOf(view.opportunityId) == Some(row.opportunityId)
            && view.notes == row.notes && view.updatedAt == row.updatedAt
            && RoleIs(t, p, row.userId, view.existingRole)
          else view.Limited?
  }

  lemma FormatShows(t: Tables, p: Option<Id>, a: Id, role: Option<MemberRole>, caller: Caller)
    requires a in t.applications && RoleIs(t, p, t.applications[a].userId, role)
    ensures var view := FormatApplication(t, a, role);
      ShownAs(t, p, a, caller, if SeesWhole(caller) then view else Limited(view.userId, view.status, view.createdAt))
  {
    DecimalRoundTrip(a);
    DecimalRoundTrip(t.applications[a].opportunityId);
    DecimalRoundTrip(t.applications[a].userId);
    hide Decimal, ParseDecimal, AllDigits, RoleIs, SeesWhole;
  }

  lemma WholeForAdmins(caller: Caller)
    ensures IsAdminOrPm(caller) <==> SeesWhole(caller)
  {
    if SeesWhole(caller) {
      var role :| role in caller.value.roles && role in {"Connect Admin", "administrator", "Project Manager"};
    }
  }

  /** Lists one page of the applications to a live opportunity, no application twice and in order of creation.
      Admins and project managers see each application whole, with the applicant's one role in the project;
      anyone else sees who applied, when, and with what status. `members` is what the membership query returns
      if it is made. */
  method ListApplications(t: Tables, o: Id, rows: seq<Id>, members: seq<Id>, direction: Direction,
                          page: nat, pageSize: nat, caller: Caller)
      returns (list: ApplicationList)
    requires MembersUnique(t.members) && FetchesApplications(t, o, direction, rows)
    requires LiveOpportunity(t.opportunities, o) ==> FetchesMembers(t, t.opportunities[o].projectId, members)
    ensures list.Listed? <==> LiveOpportunity(t.opportunities, o)
    ensures list.Listed? ==>
      var shown := Page(rows, if page == 0 then 1 else page, if pageSize == 0 then 20 else pageSize);
      && |list.views| == |shown| && Distinct(shown)
      && (forall i | 0 <= i < |shown| :: ShownAs(t, t.opportunities[o].projectId, shown[i], caller, list.views[i]))
      && forall i, j | 0 <= i < j < |shown| :: InOrder(direction, list.views[i].createdAt, list.views[j].createdAt)
  {
    if !LiveOpportunity(t.opportunities, o) {
      return NoOpportunity;
    }
    var roles := RolesByUserId(t, t.opportunities[o].projectId, members);
    PageInOrder(t, rows, direction, if page == 0 then 1 else page, if pageSize == 0 then 20 else pageSize);
    WholeForAdmins(caller);
    ghost var project := t.opportunities[o].projectId;
    hide SeesWhole;
    forall a | a in t.applications {
      FormatShows(t, project, a, Lookup(roles, t.applications[a].userId), caller);
    }
    hide ShownAs;
    hide Decimal, RoleIs, Lookup, Page, MembersUnique, FetchesMembers, IsAdminOrPm;
    var shown := Page(rows, if page == 0 then 1 else page, if pageSize == 0 then 20 else pageSize);
    PageWithin(rows, if page == 0 then 1 else page, if pageSize == 0 then 20 else pageSize);
    assert forall i | 0 <= i < |shown| :: shown[i] in shown;
    var full: seq<ApplicationView> := seq(|shown|, i requires 0 <= i < |shown| =>
      FormatApplication(t, shown[i], Lookup(roles, t.applications[shown[i]].userId)));
    if IsAdminOrPm(caller) {
      list := Listed(full);
    } else {
      list := Listed(
        seq(|full|, i requires 0 <= i < |full| => Limited(full[i].userId, full[i].status, full[i].createdAt)));
    }
  }

  lemma PageInOrder(t: Tables, rows: seq<Id>, direction: Direction, page: nat, perPage: nat)
    requires page >= 1 && Distinct(rows) && InCreationOrder(t, direction, rows)
    ensures Distinct(Page(rows, page, perPage)) && InCreationOrder(t, direction, Page(rows, page, perPage))
  {
    hide InOrder;
    var shown, start := Page(rows, page, perPage), Min((page - 1) * perPage, |rows|);
    assert forall i | 0 <= i < |shown| :: shown[i] == rows[start + i];
    forall i, j | 0 <= i < j < |shown|
      ensures shown[i] != shown[j]
      ensures InOrder(direction, t.applications[shown[i]].createdAt, t.applications[shown[j]].createdAt)
    {
      assert shown[i] == rows[start + i] && shown[j] == rows[start + j];
    }
  }

  lemma OneRole(t: Tables, p: Option<Id>, u: nat, role: MemberRole, other: MemberRole)
    requires MembersUnique(t.members) && HasRole(t, p, u, role) && HasRole(t, p, u, other)
    ensures role == other
  {
  }
}
