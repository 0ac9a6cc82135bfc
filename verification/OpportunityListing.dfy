/** Listing opportunities and reading one: re-joined pages, eligibility, and the formatted response. */
module OpportunityListing {
  import opened Domain
  import opened Text
  import opened Workflow
  import opened Invariants
  import opened Ordering
  import opened Discovery
  import opened OpportunityPages

  datatype User = User(userId: string, isMachine: bool, roles: set<string>)

  /** The caller; None for an anonymous one. */
  type Caller = Option<User>

  function NumericUserId(caller: Caller): Option<nat> {
    if caller.None? then None
    else
      var text := Trim(caller.value.userId);
      if AllDigits(text) then Some(ParseDecimal(text)) else None
  }

  /** The user id for queries that treat 0 as absent. */
  function CurrentUserId(caller: Caller): nat {
    if NumericUserId(caller).Some? then NumericUserId(caller).value else 0
  }

  predicate IsCopilotApplicant(caller: Caller) {
    caller.Some? && !caller.value.isMachine && NumericUserId(caller).Some? && "copilot" in caller.value.roles
  }

  predicate IsAdminOrManager(caller: Caller) {
    caller.Some? && exists role | role in caller.value.roles ::
      role in {"Connect Admin", "administrator", "Project Manager", "Connect Manager"}
  }

  datatype CurrentApplication = CurrentApplication(
    id: string,
    status: ApplicationStatus,
    createdAt: int,
    updatedAt: int)

  /** An opportunity row with the relations that a response needs. */
  datatype View = View(
    id: Id,
    row: Opportunity,
    data: Option<RequestData>,
    projectName: Option<string>,
    applications: seq<CurrentApplication>)

  ghost function ApplicationsOf(t: Tables, o: Id, u: nat): seq<CurrentApplication> {
    if u != 0 && exists a :: ApplicationOf(t.applications, a, o, u) then
      var a :| ApplicationOf(t.applications, a, o, u);
      var row := t.applications[a];
      [CurrentApplication(Decimal(a), row.status, row.createdAt, row.updatedAt)]
    else []
  }

  ghost function Load(t: Tables, o: Id, caller: Caller): View
    requires o in t.opportunities
  {
    var row := t.opportunities[o];
    View(o, row, JoinedData(t, o),
         if IsAdminOrManager(caller) && row.projectId.Some? && row.projectId.value in t.projects
         then Some(t.projects[row.projectId.value].name) else None,
         ApplicationsOf(t, o, CurrentUserId(caller)))
  }

  // ----- membership and eligibility -----

  function ProjectsOf(views: seq<View>): set<Id> {
    set v | v in views && v.row.projectId.Some? && v.row.projectId.value != 0 :: v.row.projectId.value
  }

  /** The projects of the views that the caller is a member of, as text, from one batched query. */
  function MembershipProjectIds(t: Tables, views: seq<View>, caller: Caller): set<string> {
    if !IsCopilotApplicant(caller) then {}
    else
      var u := CurrentUserId(caller);
      var projects := ProjectsOf(views);
      set m | m in t.members && t.members[m].projectId in projects
              && MemberOf(t.members, m, t.members[m].projectId, u) :: Decimal(t.members[m].projectId)
  }

  predicate CanApply(v: View, caller: Caller, memberProjectIds: set<string>) {
    && IsCopilotApplicant(caller)
    && v.row.status.Active?
    && v.row.projectId.Some?
    && Decimal(v.row.projectId.value) !in memberProjectIds
    && v.applications == []
  }

  lemma MembershipOf(t: Tables, views: seq<View>, caller: Caller, p: Id)
    ensures Decimal(p) in MembershipProjectIds(t, views, caller)
       <==> IsCopilotApplicant(caller) && p in ProjectsOf(views)
            && exists m :: MemberOf(t.members, m, p, CurrentUserId(caller))
  {
    hide Decimal, IsCopilotApplicant, CurrentUserId, ProjectsOf;
    var u := CurrentUserId(caller);
    var texts := MembershipProjectIds(t, views, caller);
    if Decimal(p) in texts {
      var m :| m in t.members && t.members[m].projectId in ProjectsOf(views)
               && MemberOf(t.members, m, t.members[m].projectId, u) && Decimal(t.members[m].projectId) == Decimal(p);
      DecimalInjective(t.members[m].projectId, p);
    }
  }

  /** One batched membership query gives each row the answer of a query of its own. */
  lemma BatchedMembership(t: Tables, views: seq<View>, v: View, caller: Caller)
    requires v in views
    ensures CanApply(v, caller, MembershipProjectIds(t, views, caller))
         == CanApply(v, caller, MembershipProjectIds(t, [v], caller))
  {
    hide IsCopilotApplicant, CurrentUserId, MembershipProjectIds, Decimal;
    if v.row.projectId.Some? {
      var p := v.row.projectId.value;
      MembershipOf(t, views, caller, p);
      MembershipOf(t, [v], caller, p);
      assert v in [v];
      assert p in ProjectsOf(views) <==> p != 0;
      assert p in ProjectsOf([v]) <==> p != 0;
    }
  }

  // ----- responses -----

  const PUBLIC_FIELDS: set<string> :=
    {"opportunityTitle", "copilotUsername", "complexity", "requiresCommunication", "paymentType", "otherPaymentType",
     "overview", "skills", "startDate", "numWeeks", "tzRestrictions", "numHoursPerWeek"}

  datatype Response = Response(
    id: string,
    requestId: Option<string>,
    status: OpportunityStatus,
    kind: OpportunityType,
    createdAt: int,
    updatedAt: int,
    projectType: Option<OpportunityType>,
    fields: map<string, Json>,
    canApply: bool,
    projectId: Option<string>,
    projectName: Option<string>,
    hasApplied: Option<bool>,
    currentApplication: Option<CurrentApplication>)

  function Format(v: View, canApply: bool, includeProject: bool, includeApplication: bool): Response {
    Response(
      Decimal(v.id),
      if v.row.requestId.Some? then Some(Decimal(v.row.requestId.value)) else None,
      v.row.status,
      v.row.kind,
      v.row.createdAt,
      v.row.updatedAt,
      if v.data.Some? then v.data.value.projectType else None,
      if v.data.Some? then map key | key in v.data.value.fields && key in PUBLIC_FIELDS :: v.data.value.fields[key]
      else map[],
      canApply,
      if includeProject && v.row.projectId.Some? then Some(Decimal(v.row.projectId.value)) else None,
      if includeProject && v.row.projectId.Some? then v.projectName else None,
      if includeApplication then Some(v.applications != []) else None,
      if includeApplication && v.applications != [] then Some(v.applications[0]) else None)
  }

  function Respond(t: Tables, v: View, caller: Caller, memberProjectIds: set<string>): Response {
    Format(v, CanApply(v, caller, memberProjectIds), IsAdminOrManager(caller), CurrentUserId(caller) != 0)
  }

  datatype Detail = Found(response: Response) | NotNumeric | Unknown

  ghost function GetOpportunity(t: Tables, id: string, caller: Caller): Detail {
    var text := Trim(id);
    if !AllDigits(text) then NotNumeric
    else
      var o := ParseDecimal(text);
      if !LiveOpportunity(t.opportunities, o) then Unknown
      else
        var v := Load(t, o, caller);
        Found(Respond(t, v, caller, MembershipProjectIds(t, [v], caller)))
  }

  // ----- re-joining the page with the fetched rows -----

  /** Rows by the text of their id, as a Map built from the fetched list. */
  function ById(fetched: seq<View>): map<string, View> {
    if fetched == [] then map[]
    else
      var last := fetched[|fetched| - 1];
      ById(fetched[..|fetched| - 1])[Decimal(last.id) := last]
  }

  /** Looks up each id of the page and drops the ids without a row. */
  function Rejoin(ids: seq<string>, rows: map<string, View>): seq<View> {
    if ids == [] then []
    else (if ids[0] in rows then [rows[ids[0]]] else []) + Rejoin(ids[1..], rows)
  }

  function IdsOf(views: seq<View>): seq<Id> {
    seq(|views|, i requires 0 <= i < |views| => views[i].id)
  }

  /** The ids of a page that are still among the fetched ones, in page order. */
  function Survivors(page: seq<Id>, fetched: set<Id>): seq<Id> {
    if page == [] then []
    else (if page[0] in fetched then [page[0]] else []) + Survivors(page[1..], fetched)
  }

  lemma DistinctIds(fetched: seq<View>, n: nat)
    requires Distinct(IdsOf(fetched)) && n < |fetched|
    ensures Distinct(IdsOf(fetched[..n]))
    ensures forall i | 0 <= i < n :: Decimal(fetched[i].id) != Decimal(fetched[n].id)
  {
    hide Decimal;
    assert IdsOf(fetched[..n]) == IdsOf(fetched)[..n];
    forall i | 0 <= i < n
      ensures Decimal(fetched[i].id) != Decimal(fetched[n].id)
    {
      assert IdsOf(fetched)[i] != IdsOf(fetched)[n];
      if Decimal(fetched[i].id) == Decimal(fetched[n].id) {
        DecimalInjective(fetched[i].id, fetched[n].id);
      }
    }
  }

  lemma {:induction false} ByIdFinds(fetched: seq<View>)
    requires Distinct(IdsOf(fetched))
    ensures forall i | 0 <= i < |fetched| ::
      Decimal(fetched[i].id) in ById(fetched) && ById(fetched)[Decimal(fetched[i].id)] == fetched[i]
    ensures forall text | text in ById(fetched) :: exists i :: 0 <= i < |fetched| && Decimal(fetched[i].id) == text
  {
    hide Decimal, IdsOf, Distinct;
    if fetched != [] {
      var n := |fetched| - 1;
      var rest := fetched[..n];
      DistinctIds(fetched, n);
      ByIdFinds(rest);
      assert forall i | 0 <= i < n :: rest[i] == fetched[i];
      forall text | text in ById(fetched)
        ensures exists i :: 0 <= i < |fetched| && Decimal(fetched[i].id) == text
      {
        if text in ById(rest) {
          var i :| 0 <= i < n && Decimal(rest[i].id) == text;
          assert Decimal(fetched[i].id) == text;
        } else {
          assert Decimal(fetched[n].id) == text;
        }
      }
    }
  }

  /** An id of the page is looked up successfully if and only if its row was fetched, and then gives that row. */
  lemma LookupFinds(fetched: seq<View>, o: Id)
    requires Distinct(IdsOf(fetched))
    ensures Decimal(o) in ById(fetched) <==> o in Elements(IdsOf(fetched))
    ensures Decimal(o) in ById(fetched) ==> ById(fetched)[Decimal(o)] in fetched && ById(fetched)[Decimal(o)].id == o
  {
    hide Decimal, ById;
    ByIdFinds(fetched);
    if Decimal(o) in ById(fetched) {
      var i :| 0 <= i < |fetched| && Decimal(fetched[i].id) == Decimal(o);
      DecimalInjective(fetched[i].id, o);
      assert IdsOf(fetched)[i] == o;
    }
    if o in Elements(IdsOf(fetched)) {
      var i :| 0 <= i < |fetched| && IdsOf(fetched)[i] == o;
      assert fetched[i].id == o;
    }
  }

  lemma {:induction false} RejoinFollowsPage(page: seq<Id>, fetched: seq<View>)
    requires Distinct(IdsOf(fetched))
    ensures IdsOf(Rejoin(Texts(page), ById(fetched))) == Survivors(page, Elements(IdsOf(fetched)))
    ensures forall v | v in Rejoin(Texts(page), ById(fetched)) :: v in fetched
  {
    hide Decimal, ById, Elements, Distinct;
    if page != [] {
      RejoinFollowsPage(page[1..], fetched);
      LookupFinds(fetched, page[0]);
      assert Texts(page)[1..] == Texts(page[1..]);
      var rest := Rejoin(Texts(page[1..]), ById(fetched));
      if Decimal(page[0]) in ById(fetched) {
        assert IdsOf([ById(fetched)[Decimal(page[0])]] + rest) == [page[0]] + IdsOf(rest);
      }
    }
  }

  lemma {:induction false} NobodyMissing(page: seq<Id>, fetched: set<Id>)
    requires forall o | o in page :: o in fetched
    ensures Survivors(page, fetched) == page
  {
    if page != [] {
      NobodyMissing(page[1..], fetched);
      assert page == [page[0]] + page[1..];
    }
  }

  /** Re-joining gives the rows in page order whatever order they were fetched in: all of them when none has
      vanished since the page was read, and otherwise the page without the vanished ones. */
  lemma RejoinKeepsPageOrder(page: seq<Id>, fetched: seq<View>)
    requires Distinct(IdsOf(fetched))
    ensures IdsOf(Rejoin(Texts(page), ById(fetched))) == Survivors(page, Elements(IdsOf(fetched)))
    ensures forall v | v in Rejoin(Texts(page), ById(fetched)) :: v in fetched
    ensures (forall o | o in page :: o in IdsOf(fetched)) ==> IdsOf(Rejoin(Texts(page), ById(fetched))) == page
  {
    hide Rejoin, ById, Texts;
    RejoinFollowsPage(page, fetched);
    if forall o | o in page :: o in IdsOf(fetched) {
      NobodyMissing(page, Elements(IdsOf(fetched)));
    }
  }

  // ----- the list -----

  /** A second fetch of the page's live rows, in any order. */
  ghost predicate Fetches(t: Tables, page: seq<Id>, caller: Caller, fetched: seq<View>) {
    && Distinct(IdsOf(fetched))
    && (forall v | v in fetched :: v.id in t.opportunities && v == Load(t, v.id, caller))
    && (forall o :: o in Elements(IdsOf(fetched)) <==> o in page && LiveOpportunity(t.opportunities, o))
  }

  function RespondAll(t: Tables, views: seq<View>, caller: Caller): seq<Response> {
    var members := MembershipProjectIds(t, views, caller);
    seq(|views|, i requires 0 <= i < |views| => Respond(t, views[i], caller, members))
  }

  /** The data of a list response: page query, second fetch, re-join, one membership query, formatting. */
  ghost function ListData(t: Tables, f: Filters, caller: Caller, scan: seq<Id>, fetched: seq<View>): seq<Response>
    requires forall o | o in scan :: o in t.opportunities
    requires f.page >= 1
  {
    RespondAll(t, Rejoin(QueryPage(t, f, scan).ids, ById(fetched)), caller)
  }

  lemma DecimalIsTrimmed(n: nat)
    ensures Trim(Decimal(n)) == Decimal(n)
  {
    DecimalRoundTrip(n);
    var s := Decimal(n);
    assert IsDigit(s[0]) && IsDigit(s[|s| - 1]);
    TrimOfTrimmed(s);
  }

  /** Reading a loaded row's id gives the row's own answer. */
  lemma DetailOf(t: Tables, o: Id, caller: Caller)
    requires LiveOpportunity(t.opportunities, o)
    ensures var v := Load(t, o, caller);
      GetOpportunity(t, Decimal(o), caller) == Found(Respond(t, v, caller, MembershipProjectIds(t, [v], caller)))
  {
    hide Load, Respond, MembershipProjectIds, Trim, Decimal;
    DecimalIsTrimmed(o);
    DecimalRoundTrip(o);
  }

  /** Every row of a list response is what reading that id alone returns to the same caller. */
  lemma ListRowsAreDetails(t: Tables, f: Filters, caller: Caller, scan: seq<Id>, fetched: seq<View>, i: nat)
    requires Scans(t, scan) && f.page >= 1
    requires forall o | o in scan :: o in t.opportunities
    requires Fetches(t, Page(Ordered(t, f, scan), f.page, f.perPage), caller, fetched)
    requires i < |ListData(t, f, caller, scan, fetched)|
    ensures var row := ListData(t, f, caller, scan, fetched)[i];
      GetOpportunity(t, row.id, caller) == Found(row)
  {
    hide Ordered, Load, CanApply, MembershipProjectIds, IsAdminOrManager, CurrentUserId, GetOpportunity, Decimal;
    var page := Page(Ordered(t, f, scan), f.page, f.perPage);
    RejoinKeepsPageOrder(page, fetched);
    hide Texts, Rejoin, ById;
    var views := Rejoin(Texts(page), ById(fetched));
    var v := views[i];
    assert v in views && v in fetched;
    var k :| 0 <= k < |fetched| && fetched[k] == v;
    assert IdsOf(fetched)[k] == v.id;
    assert v.id in Elements(IdsOf(fetched));
    BatchedMembership(t, views, v, caller);
    DetailOf(t, v.id, caller);
  }

  /** A list response holds the ids of its page, in order. */
  lemma ListFollowsPage(t: Tables, f: Filters, caller: Caller, scan: seq<Id>, fetched: seq<View>)
    requires Scans(t, scan) && f.page >= 1
    requires forall o | o in scan :: o in t.opportunities
    requires Fetches(t, Page(Ordered(t, f, scan), f.page, f.perPage), caller, fetched)
    ensures var data := ListData(t, f, caller, scan, fetched);
      |data| == |QueryPage(t, f, scan).ids|
      && forall i | 0 <= i < |data| :: data[i].id == QueryPage(t, f, scan).ids[i]
  {
    hide Load, CanApply, MembershipProjectIds, IsAdminOrManager, CurrentUserId, Decimal, Matches;
    var ordered := Ordered(t, f, scan);
    var page := Page(ordered, f.page, f.perPage);
    OrderedExactly(t, f, scan);
    hide Ordered, Selected;
    forall o | o in page
      ensures o in IdsOf(fetched)
    {
      assert o in Elements(ordered);
      LiveWhenMatching(t, f, o);
      assert o in Elements(IdsOf(fetched));
    }
    RejoinKeepsPageOrder(page, fetched);
    var views := Rejoin(Texts(page), ById(fetched));
    forall i | 0 <= i < |views|
      ensures views[i].id == page[i]
    {
      assert IdsOf(views)[i] == views[i].id;
    }
  }

  lemma LiveWhenMatching(t: Tables, f: Filters, o: Id)
    requires o in Matching(t, f)
    ensures LiveOpportunity(t.opportunities, o)
  {
  }

  // ----- what a response says -----

  /** The caller's user id is the number `u`. */
  predicate IdentifiedAs(caller: Caller, u: nat) {
    caller.Some? && AllDigits(Trim(caller.value.userId)) && ParseDecimal(Trim(caller.value.userId)) == u
  }

  /** The caller may see which project an opportunity belongs to. */
  predicate SeesProject(caller: Caller) {
    && caller.Some?
    && (|| "administrator" in caller.value.roles || "Connect Admin" in caller.value.roles
        || "Connect Manager" in caller.value.roles || "Project Manager" in caller.value.roles)
  }

  /** The request fields that the response is documented to show, the type apart. */
  predicate Documented(key: string) {
    || key == "opportunityTitle" || key == "copilotUsername" || key == "complexity" || key == "requiresCommunication"
    || key == "paymentType" || key == "otherPaymentType" || key == "overview" || key == "skills" || key == "startDate"
    || key == "numWeeks" || key == "tzRestrictions" || key == "numHoursPerWeek"
  }

  /** A live application of user `u` to opportunity `o`. */
  predicate Applied(t: Tables, o: Id, u: nat) {
    exists a | a in t.applications ::
      !t.applications[a].deleted && t.applications[a].opportunityId == o && t.applications[a].userId == u
  }

  /** User `u` is a live member of project `p`, in whatever role. */
  predicate Joins(t: Tables, p: Option<Id>, u: nat) {
    exists m | m in t.members ::
      !t.members[m].deleted && p == Some(t.members[m].projectId) && t.members[m].userId == u
  }

  /** A human copilot with a numeric id, an active opportunity, and neither a membership nor an application;
      an application of user 0 goes unnoticed. */
  ghost predicate Eligible(t: Tables, o: Id, caller: Caller)
    requires o in t.opportunities
  {
    && caller.Some? && !caller.value.isMachine && "copilot" in caller.value.roles
    && t.opportunities[o].status.Active?
    && exists u ::
         IdentifiedAs(caller, u) && !Joins(t, t.opportunities[o].projectId, u) && (u == 0 || !Applied(t, o, u))
  }

  lemma CanApplyMeans(t: Tables, o: Id, caller: Caller)
    requires Inv(t) && LiveOpportunity(t.opportunities, o)
    ensures var v := Load(t, o, caller);
      CanApply(v, caller, MembershipProjectIds(t, [v], caller)) <==> Eligible(t, o, caller)
  {
    var v, p, u := Load(t, o, caller), t.opportunities[o].projectId.value, CurrentUserId(caller);
    assert v in [v] && p != 0;
    assert p in ProjectsOf([v]);
    MembershipOf(t, [v], caller, p);
    if IsCopilotApplicant(caller) {
      assert IdentifiedAs(caller, u) && forall w :: IdentifiedAs(caller, w) ==> w == u;
    }
    JoinsIff(t, p, u);
    AppliedIff(t, o, u);
    hide Inv, Decimal, MembershipProjectIds, ProjectsOf, IdentifiedAs, Trim, ParseDecimal, AllDigits, Joins, Applied;
    hide ApplicationOf, MemberOf;
  }

  lemma JoinsIff(t: Tables, p: Id, u: nat)
    ensures Joins(t, Some(p), u) <==> exists m :: MemberOf(t.members, m, p, u)
  {
    if Joins(t, Some(p), u) {
      var m :| m in t.members && !t.members[m].deleted && t.members[m].projectId == p && t.members[m].userId == u;
      assert MemberOf(t.members, m, p, u);
    }
  }

  lemma AppliedIff(t: Tables, o: Id, u: nat)
    ensures Applied(t, o, u) <==> exists a :: ApplicationOf(t.applications, a, o, u)
  {
    if Applied(t, o, u) {
      var a :| a in t.applications && !t.applications[a].deleted && t.applications[a].opportunityId == o
               && t.applications[a].userId == u;
      assert ApplicationOf(t.applications, a, o, u);
    }
  }

  /** The response shows the ids, status, type and times of the row. */
  predicate ShowsRow(r: Response, o: Id, row: Opportunity) {
    && ParseDecimalOf(r.id) == Some(o)
    && r.requestId.Some? && ParseDecimalOf(r.requestId.value) == row.requestId
    && r.status == row.status && r.kind == row.kind && r.createdAt == row.createdAt && r.updatedAt == row.updatedAt
  }

  /** The response shows exactly the documented fields, with the values that the request has. */
  ghost predicate ShowsData(r: Response, data: RequestData) {
    && r.projectType == data.projectType
    && (forall key :: key in r.fields <==> Documented(key) && key in data.fields)
    && (forall key | key in r.fields :: key in data.fields && r.fields[key] == data.fields[key])
  }

  /** The response shows the application of user `u`, if there is one, with its id, status and times. */
  ghost predicate ShowsApplication(r: Response, t: Tables, o: Id, u: nat) {
    && r.hasApplied == Some(Applied(t, o, u))
    && (r.currentApplication.Some? <==> Applied(t, o, u))
    && forall a | ApplicationOf(t.applications, a, o, u) ::
         r.currentApplication.Some? && Describes(r.currentApplication.value, t.applications, a)
  }

  /** Reading a live opportunity finds it. The response shows the row and the documented request data, the project
      to admins and managers only, the caller's own application to callers with a numeric id other than 0, and says
      that the caller can apply exactly when the caller is eligible. */
  lemma ResponsePromises(t: Tables, o: Id, caller: Caller)
    requires Inv(t) && LiveOpportunity(t.opportunities, o)
    ensures GetOpportunity(t, Decimal(o), caller).Found?
    ensures var row, r := t.opportunities[o], GetOpportunity(t, Decimal(o), caller).response;
      && ShowsRow(r, o, row)
      && ShowsData(r, t.requests[row.requestId.value].data)
      && (r.projectId.Some? <==> SeesProject(caller))
      && (SeesProject(caller) ==> ParseDecimalOf(r.projectId.value) == row.projectId)
      && r.projectName == (if SeesProject(caller) then Some(t.projects[row.projectId.value].name) else None)
      && (forall u | u != 0 && IdentifiedAs(caller, u) :: ShowsApplication(r, t, o, u))
      && ((forall u :: IdentifiedAs(caller, u) ==> u == 0) ==> r.hasApplied.None? && r.currentApplication.None?)
      && (r.canApply <==> Eligible(t, o, caller))
  {
    var v := Load(t, o, caller);
    var members := MembershipProjectIds(t, [v], caller);
    DetailOf(t, o, caller);
    CanApplyMeans(t, o, caller);
    RespondsWithRow(t, o, caller, members);
    RespondsWithApplication(t, o, caller, members);
    assert Respond(t, v, caller, members).canApply == CanApply(v, caller, members);
    hide Inv, GetOpportunity, Respond, Load, MembershipProjectIds, CanApply, Eligible, SeesProject, IdentifiedAs;
    hide ShowsRow, ShowsData, ShowsApplication, Decimal, ParseDecimalOf;
  }

  lemma RespondsWithRow(t: Tables, o: Id, caller: Caller, members: set<string>)
    requires Inv(t) && LiveOpportunity(t.opportunities, o)
    ensures var row, r := t.opportunities[o], Respond(t, Load(t, o, caller), caller, members);
      && ShowsRow(r, o, row)
      && row.requestId.Some? && row.requestId.value in t.requests
      && ShowsData(r, t.requests[row.requestId.value].data)
      && row.projectId.Some? && row.projectId.value in t.projects
      && (r.projectId.Some? <==> SeesProject(caller))
      && (SeesProject(caller) ==> ParseDecimalOf(r.projectId.value) == row.projectId)
      && r.projectName == (if SeesProject(caller) then Some(t.projects[row.projectId.value].name) else None)
  {
    var row := t.opportunities[o];
    DecimalRoundTrip(o);
    DecimalRoundTrip(row.requestId.value);
    DecimalRoundTrip(row.projectId.value);
    RolesAgree(caller);
    RespondsWithData(t, o, caller, members);
    hide ShowsData, PUBLIC_FIELDS;
    hide Decimal, ParseDecimal, CanApply, IsAdminOrManager, SeesProject, Documented, ApplicationsOf, AllDigits;
    hide Sequences, MembersUnique, ApplicationsUnique, StatusesAgree, RequestsServed;
  }

  lemma RespondsWithData(t: Tables, o: Id, caller: Caller, members: set<string>)
    requires o in t.opportunities && JoinedData(t, o).Some?
    ensures ShowsData(Respond(t, Load(t, o, caller), caller, members), JoinedData(t, o).value)
  {
    FieldsAgree();
    hide PUBLIC_FIELDS, Documented, Decimal, CanApply, IsAdminOrManager, ApplicationsOf, JoinedData, CurrentUserId;
  }

  lemma RespondsWithApplication(t: Tables, o: Id, caller: Caller, members: set<string>)
    requires Inv(t) && o in t.opportunities
    ensures var r := Respond(t, Load(t, o, caller), caller, members);
      && (forall u | u != 0 && IdentifiedAs(caller, u) :: ShowsApplication(r, t, o, u))
      && ((forall u :: IdentifiedAs(caller, u) ==> u == 0) ==> r.hasApplied.None? && r.currentApplication.None?)
  {
    var u := CurrentUserId(caller);
    assert u != 0 ==> IdentifiedAs(caller, u);
    assert forall w :: IdentifiedAs(caller, w) ==> w == u;
    AppliedIff(t, o, u);
    forall a: Id { DecimalRoundTrip(a); }
    hide CanApply, IsAdminOrManager, CurrentUserId, IdentifiedAs, Applied, JoinedData, Decimal, ParseDecimal, AllDigits;
    hide Sequences, Linked, MembersUnique, StatusesAgree, RequestsServed, PUBLIC_FIELDS;
  }

  lemma RolesAgree(caller: Caller)
    ensures IsAdminOrManager(caller) <==> SeesProject(caller)
  {
    if SeesProject(caller) {
      var role :| role in caller.value.roles
                  && role in {"Connect Admin", "administrator", "Project Manager", "Connect Manager"};
    }
  }

  lemma FieldsAgree()
    ensures forall key :: key in PUBLIC_FIELDS <==> Documented(key)
  {
  }

  /** The id, status and times of application `a`. */
  predicate Describes(shown: CurrentApplication, apps: Applications, a: Id)
    requires a in apps
  {
    && ParseDecimalOf(shown.id) == Some(a) && shown.status == apps[a].status
    && shown.createdAt == apps[a].createdAt && shown.updatedAt == apps[a].updatedAt
  }

  function ParseDecimalOf(text: string): Option<nat> {
    if AllDigits(text) then Some(ParseDecimal(text)) else None
  }

  /** Whatever text is given as an id: it is refused if it is not numeric, unknown if no live opportunity has the
      number, and otherwise answered like the number itself; white space around it and leading zeros do not count. */
  lemma DetailAnswers(t: Tables, id: string, caller: Caller)
    ensures var text, d := Trim(id), GetOpportunity(t, id, caller);
      && (d.NotNumeric? <==> !AllDigits(text))
      && (d.Found? <==> AllDigits(text) && ParseDecimal(text) in t.opportunities
                        && !t.opportunities[ParseDecimal(text)].deleted)
      && (d.Found? ==> d == GetOpportunity(t, Decimal(ParseDecimal(text)), caller))
  {
    hide Trim, Load, Respond, MembershipProjectIds, Decimal, ParseDecimal;
    var text := Trim(id);
    if AllDigits(text) && LiveOpportunity(t.opportunities, ParseDecimal(text)) {
      DetailOf(t, ParseDecimal(text), caller);
    }
  }
}
