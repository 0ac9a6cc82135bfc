/** What each of the six service calls does to the tables, stated as a function of the state before the call. */
module Workflow {
  import opened Domain
  import opened Text

  /** How a PATCH body treats `projectType`: the key is missing, null, or one of the five enum values. */
  datatype PatchedType = Absent | Null | Value(kind: OpportunityType)

  /** `projectId` 0 means that the payload carries no project id. */
  datatype Payload = Payload(projectId: nat, kind: OpportunityType, fields: map<string, Json>)

  /** A patch holds the keys that are present; `projectId` is always overwritten, so it is not modelled. */
  datatype Patch = Patch(kind: PatchedType, fields: map<string, Json>)

  datatype Call =
    | Create(projectId: Id, payload: Payload)
    | Update(requestId: Id, patch: Patch)
    | Approve(projectId: Id, requestId: Id, override: Option<string>)
    | Apply(opportunityId: Id, userId: nat, notes: string)
    | Assign(opportunityId: Id, applicationId: Id)
    | Cancel(opportunityId: Id)

  predicate LiveProject(projects: map<Id, Project>, p: Id) {
    p in projects && !projects[p].deleted
  }

  predicate LiveRequest(requests: Requests, r: Id) {
    r in requests && !requests[r].deleted
  }

  predicate LiveOpportunity(opps: Opportunities, o: Id) {
    o in opps && !opps[o].deleted
  }

  predicate ActiveOpportunity(opps: Opportunities, o: Id) {
    LiveOpportunity(opps, o) && opps[o].status.Active?
  }

  /** A live application to opportunity `o`. */
  predicate ApplicationTo(apps: Applications, a: Id, o: Id) {
    a in apps && !apps[a].deleted && apps[a].opportunityId == o
  }

  /** A live application of user `u` to opportunity `o`. */
  predicate ApplicationOf(apps: Applications, a: Id, o: Id, u: nat) {
    ApplicationTo(apps, a, o) && apps[a].userId == u
  }

  /** A live membership of user `u` in project `p`. */
  predicate MemberOf(members: Members, m: Id, p: Id, u: nat) {
    m in members && !members[m].deleted && members[m].projectId == p && members[m].userId == u
  }

  predicate Assigned(role: MemberRole) {
    role.Copilot? || role.Manager?
  }

  predicate ActiveOfType(opps: Opportunities, o: Id, p: Id, k: OpportunityType) {
    ActiveOpportunity(opps, o) && opps[o].projectId == Some(p) && opps[o].kind == k
  }

  /** The statuses that make a request count as a duplicate. */
  predicate Open(status: RequestStatus) {
    status.New? || status.Approved? || status.Seeking?
  }

  predicate OpenOfType(requests: Requests, r: Id, p: Id, k: OpportunityType) {
    && LiveRequest(requests, r)
    && Open(requests[r].status)
    && requests[r].projectId == Some(p)
    && requests[r].data.projectType == Some(k)
  }

  predicate HasActiveOfType(opps: Opportunities, p: Id, k: OpportunityType) {
    exists o | o in opps :: ActiveOfType(opps, o, p, k)
  }

  /** `exclude` 0 excludes nothing. */
  predicate HasDuplicateRequest(requests: Requests, p: Id, k: OpportunityType, exclude: Id) {
    exists r | r in requests :: OpenOfType(requests, r, p, k) && (exclude != 0 ==> r != exclude)
  }

  /** The type an approval asks for: the override when it is a non-empty string, else the type in the data. */
  function RequestedType(override: Option<string>, data: RequestData): Option<OpportunityType> {
    var raw :=
      if override.Some? && override.value != "" then override.value
      else if data.projectType.Some? then TypeName(data.projectType.value)
      else "";
    ParseType(Trim(raw))
  }

  function NewRequest(p: Id, payload: Payload, now: int): Request {
    Request(Some(p), New, RequestData(Some(payload.kind), Some(p), payload.fields), false, now, now)
  }

  lemma RequestsItsType(p: Id, payload: Payload, now: int)
    ensures RequestedType(Some(TypeName(payload.kind)), NewRequest(p, payload, now).data) == Some(payload.kind)
  {
    ParsesItsName(payload.kind);
  }

  function Merged(data: RequestData, patch: Patch, projectId: Option<Id>): RequestData {
    RequestData(
      match patch.kind { case Absent => data.projectType case Null => None case Value(k) => Some(k) },
      if projectId == Some(0) then None else projectId,
      data.fields + patch.fields)
  }

  function ApproveInternal(t: Tables, p: Id, r: Id, override: Option<string>, now: int): Outcome {
    if !LiveProject(t.projects, p) then Outcome(t, Failed(ProjectNotFound))
    else if !LiveRequest(t.requests, r) then Outcome(t, Failed(RequestNotFound))
    else
      match RequestedType(override, t.requests[r].data)
      case None => Outcome(t, Failed(InvalidType))
      case Some(k) =>
        if HasActiveOfType(t.opportunities, p, k) then Outcome(t, Failed(ActiveOpportunityExists))
        else
          Outcome(
            t.(requests := t.requests[r := t.requests[r].(status := Approved, updatedAt := now)],
               opportunities := t.opportunities[t.opportunitySeq :=
                 Opportunity(Some(p), Some(r), Active, k, false, now, now)],
               opportunitySeq := t.opportunitySeq + 1),
            Done(t.opportunitySeq))
  }

  lemma FailedApproval(t: Tables, p: Id, r: Id, override: Option<string>, now: int)
    ensures var out := ApproveInternal(t, p, r, override, now); out.reply.Failed? ==> out.tables == t
  {
  }

  /** The state inside createRequest's transaction, before the approval. */
  function Inserted(t: Tables, p: Id, payload: Payload, now: int): Tables {
    t.(requests := t.requests[t.requestSeq := NewRequest(p, payload, now)], requestSeq := t.requestSeq + 1)
  }

  function CreateRequest(t: Tables, p: Id, payload: Payload, now: int): Outcome {
    if payload.projectId != 0 && p != payload.projectId then Outcome(t, Failed(PayloadProjectMismatch))
    else if !LiveProject(t.projects, p) then Outcome(t, Failed(ProjectNotFound))
    else if HasDuplicateRequest(t.requests, p, payload.kind, 0) then Outcome(t, Failed(DuplicateRequestType))
    else
      var inner := ApproveInternal(Inserted(t, p, payload, now), p, t.requestSeq, Some(TypeName(payload.kind)), now);
      if inner.reply.Failed? then Outcome(t.(requestSeq := t.requestSeq + 1), inner.reply)
      else Outcome(inner.tables, Done(t.requestSeq))
  }

  function Retyped(opps: Opportunities, r: Id, kind: PatchedType, now: int): Opportunities {
    map o | o in opps ::
      if kind.Value? && LiveOpportunity(opps, o) && opps[o].requestId == Some(r)
      then opps[o].(kind := kind.kind, updatedAt := now)
      else opps[o]
  }

  /** An update asks for a new type that another open request of the project already has. */
  predicate UpdateConflicts(requests: Requests, r: Id, patch: Patch)
    requires r in requests
  {
    && patch.kind.Value?
    && requests[r].data.projectType != Some(patch.kind.kind)
    && requests[r].projectId.Some?
    && requests[r].projectId.value != 0
    && HasDuplicateRequest(requests, requests[r].projectId.value, patch.kind.kind, r)
  }

  function UpdateRequest(t: Tables, r: Id, patch: Patch, now: int): Outcome {
    if !LiveRequest(t.requests, r) then Outcome(t, Failed(RequestNotFound))
    else
      var request := t.requests[r];
      if request.status.Canceled? || request.status.Fulfilled? then Outcome(t, Failed(RequestImmutable))
      else if UpdateConflicts(t.requests, r, patch) then Outcome(t, Failed(DuplicateRequestType))
      else
        Outcome(
          t.(requests := t.requests[r :=
               request.(data := Merged(request.data, patch, request.projectId), updatedAt := now)],
             opportunities := Retyped(t.opportunities, r, patch.kind, now)),
          Done(r))
  }

  ghost function ApplyToOpportunity(t: Tables, o: Id, u: nat, notes: string, now: int): Outcome {
    if !LiveOpportunity(t.opportunities, o) then Outcome(t, Failed(OpportunityNotFound))
    else if !t.opportunities[o].status.Active? then Outcome(t, Failed(OpportunityNotActive))
    else if exists a :: ApplicationOf(t.applications, a, o, u) then
      var a :| ApplicationOf(t.applications, a, o, u);
      Outcome(t, Done(a))
    else
      Outcome(
        t.(applications := t.applications[t.applicationSeq := Application(o, u, notes, Pending, false, now, now)],
           applicationSeq := t.applicationSeq + 1),
        Done(t.applicationSeq))
  }

  /** The member table after user `u` has been made a copilot of project `p`. */
  ghost function WithCopilot(t: Tables, p: Id, u: nat): Tables {
    if exists m :: MemberOf(t.members, m, p, u) then
      var m :| MemberOf(t.members, m, p, u);
      if Assigned(t.members[m].role) then t
      else t.(members := t.members[m := t.members[m].(role := Copilot)])
    else
      t.(members := t.members[t.memberSeq := Member(p, u, Copilot, false)], memberSeq := t.memberSeq + 1)
  }

  /** Applications after `accepted` was chosen for opportunity `o`; None means that nobody was. */
  function Settled(apps: Applications, o: Id, accepted: Option<Id>, now: int): Applications {
    map a | a in apps ::
      if !ApplicationTo(apps, a, o) then apps[a]
      else if accepted == Some(a) then apps[a].(status := Accepted, updatedAt := now)
      else apps[a].(status := ApplicationStatus.Canceled, updatedAt := now)
  }

  /** The linked request once its opportunity is completed; a link that is missing or 0 is skipped. */
  function Fulfil(requests: Requests, link: Option<Id>, now: int): Requests {
    if link.Some? && link.value != 0 && link.value in requests
    then requests[link.value := requests[link.value].(status := Fulfilled, updatedAt := now)]
    else requests
  }

  ghost function AssignCopilot(t: Tables, o: Id, a: Id, now: int): Outcome {
    if !LiveOpportunity(t.opportunities, o) then Outcome(t, Failed(OpportunityNotFound))
    else
      var opportunity := t.opportunities[o];
      if !opportunity.status.Active? then Outcome(t, Failed(OpportunityNotActive))
      else if opportunity.projectId.None? || opportunity.projectId == Some(0) then
        Outcome(t, Failed(OpportunityWithoutProject))
      else if !ApplicationTo(t.applications, a, o) then Outcome(t, Failed(NoSuchApplication))
      else if t.applications[a].status.Accepted? then Outcome(t, Failed(ApplicationAlreadyAccepted))
      else
        Outcome(
          WithCopilot(t, opportunity.projectId.value, t.applications[a].userId).(
            applications := Settled(t.applications, o, Some(a), now),
            opportunities := t.opportunities[o := opportunity.(status := Completed, updatedAt := now)],
            requests := Fulfil(t.requests, opportunity.requestId, now)),
          Done(a))
  }

  function CancelOpportunity(t: Tables, o: Id, now: int): Outcome {
    if !LiveOpportunity(t.opportunities, o) then Outcome(t, Failed(OpportunityNotFound))
    else
      Outcome(
        t.(applications := Settled(t.applications, o, None, now),
           opportunities := t.opportunities[o :=
             t.opportunities[o].(status := OpportunityStatus.Canceled, updatedAt := now)]),
        Done(o))
  }

  /** One service call, run as one atomic step at clock time `now`. */
  ghost function Step(t: Tables, c: Call, now: int): Outcome {
    match c
    case Create(p, payload) => CreateRequest(t, p, payload, now)
    case Update(r, patch) => UpdateRequest(t, r, patch, now)
    case Approve(p, r, override) => ApproveInternal(t, p, r, override, now)
    case Apply(o, u, notes) => ApplyToOpportunity(t, o, u, notes, now)
    case Assign(o, a) => AssignCopilot(t, o, a, now)
    case Cancel(o) => CancelOpportunity(t, o, now)
  }
}
