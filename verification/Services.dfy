/** The copilot services over one database, written the way the transactions run: statement by statement.
    Every guard but one stands before the first write of its transaction, so a failing call returns with nothing
    to restore. The exception is createRequest: its approval can fail after the request row was inserted, and the
    rows are then put back. Either way a failing call leaves the rows unchanged. */
module Services {
  import opened Domain
  import opened Text
  import opened Workflow
  import opened Invariants
  import opened Runs

  class CopilotServices {
    const projects: map<Id, Project>
    var requests: Requests
    var opportunities: Opportunities
    var applications: Applications
    var members: Members
    var requestSeq: Id
    var opportunitySeq: Id
    var applicationSeq: Id
    var memberSeq: Id

    /** Every state so far and the calls that led from one to the next. */
    ghost var states: seq<Tables>
    ghost var events: seq<Event>

    ghost function Snapshot(): Tables
      reads this
    {
      Tables(projects, requests, opportunities, applications, members,
             requestSeq, opportunitySeq, applicationSeq, memberSeq)
    }

    /** The calls made so far form a run that ends in the present tables. */
    ghost predicate Valid()
      reads this
    {
      IsRun(states, events) && states[|events|] == Snapshot()
    }

    /** The last call was `c`, it did what the workflow says, and it is on record. */
    twostate predicate Performed(c: Call, now: int, reply: Reply)
      reads this
    {
      && Step(old(Snapshot()), c, now) == Outcome(Snapshot(), reply)
      && events == old(events) + [Event(c, now)]
      && states == old(states) + [Snapshot()]
    }

    constructor (projects: map<Id, Project>, members: Members, memberSeq: Id)
      requires forall p | p in projects :: 1 <= p
      requires Numbered(members, memberSeq) && MembersUnique(members)
      ensures Valid() && events == []
      ensures Snapshot() == Tables(projects, map[], map[], map[], members, 1, 1, 1, memberSeq)
    {
      this.projects := projects;
      this.members := members;
      requests, opportunities, applications := map[], map[], map[];
      requestSeq, opportunitySeq, applicationSeq, this.memberSeq := 1, 1, 1, memberSeq;
      events := [];
      new;
      states := [Snapshot()];
    }

    /** Puts the call that has just ended on record. */
    ghost method Log(t: Tables, c: Call, now: int, reply: Reply)
      requires IsRun(states, events) && states[|events|] == t
      requires Step(t, c, now) == Outcome(Snapshot(), reply)
      modifies this`states, this`events
      ensures Valid()
      ensures events == old(events) + [Event(c, now)] && states == old(states) + [Snapshot()]
    {
      hide Step;
      events := events + [Event(c, now)];
      states := states + [Snapshot()];
    }

    ghost method Recall()
      requires Valid()
      ensures Inv(Snapshot())
    {
      RunInv(states, events, |events|);
    }

    /** The body of an approval; it runs inside a caller's transaction, so the tables need not be valid. */
    method ApproveRequestInternal(projectId: Id, requestId: Id, override: Option<string>, now: int)
        returns (reply: Reply)
      modifies this`requests, this`opportunities, this`opportunitySeq
      ensures ApproveInternal(old(Snapshot()), projectId, requestId, override, now) == Outcome(Snapshot(), reply)
      ensures reply.Failed? ==> unchanged(this)
    {
      if !LiveProject(projects, projectId) {
        return Failed(ProjectNotFound);
      }
      if !LiveRequest(requests, requestId) {
        return Failed(RequestNotFound);
      }
      var requested := RequestedType(override, requests[requestId].data);
      if requested.None? {
        return Failed(InvalidType);
      }
      if HasActiveOfType(opportunities, projectId, requested.value) {
        return Failed(ActiveOpportunityExists);
      }
      requests := requests[requestId := requests[requestId].(status := Approved, updatedAt := now)];
      var opportunityId := opportunitySeq;
      opportunitySeq := opportunitySeq + 1;
      opportunities := opportunities[opportunityId :=
        Opportunity(Some(projectId), Some(requestId), Active, requested.value, false, now, now)];
      return Done(opportunityId);
    }

    method ApproveRequest(projectId: Id, requestId: Id, override: Option<string>, now: int) returns (reply: Reply)
      requires Valid()
      modifies this
      ensures Valid() && Performed(Approve(projectId, requestId, override), now, reply)
    {
      reply := ApproveRequestInternal(projectId, requestId, override, now);
      Log(old(Snapshot()), Approve(projectId, requestId, override), now, reply);
    }

    method CreateRequest(projectId: Id, payload: Payload, now: int) returns (reply: Reply)
      requires Valid()
      modifies this
      ensures Valid() && Performed(Create(projectId, payload), now, reply)
    {
      reply := CreateInTransaction(projectId, payload, now);
      Log(old(Snapshot()), Create(projectId, payload), now, reply);
    }

    method CreateInTransaction(projectId: Id, payload: Payload, now: int) returns (reply: Reply)
      modifies this`requests, this`requestSeq, this`opportunities, this`opportunitySeq
      ensures Workflow.CreateRequest(old(Snapshot()), projectId, payload, now) == Outcome(Snapshot(), reply)
      ensures reply.Failed? ==> unchanged(this`requests, this`opportunities, this`opportunitySeq)
    {
      hide ApproveInternal;
      if payload.projectId != 0 && projectId != payload.projectId {
        return Failed(PayloadProjectMismatch);
      }
      if !LiveProject(projects, projectId) {
        return Failed(ProjectNotFound);
      }
      if HasDuplicateRequest(requests, projectId, payload.kind, 0) {
        return Failed(DuplicateRequestType);
      }
      var requestsBefore, opportunitiesBefore := requests, opportunities;
      var requestId := requestSeq;
      requestSeq := requestSeq + 1;
      requests := requests[requestId := NewRequest(projectId, payload, now)];
      assert Snapshot() == Inserted(old(Snapshot()), projectId, payload, now);
      reply := ApproveRequestInternal(projectId, requestId, Some(TypeName(payload.kind)), now);
      FailedApproval(Inserted(old(Snapshot()), projectId, payload, now), projectId, requestId,
                     Some(TypeName(payload.kind)), now);
      if reply.Failed? {
        // Roll back. Sequences are not transactional, so the used request number stays used.
        requests, opportunities := requestsBefore, opportunitiesBefore;
      } else {
        reply := Done(requestId);
      }
    }

    method UpdateRequest(requestId: Id, patch: Patch, now: int) returns (reply: Reply)
      requires Valid()
      modifies this
      ensures Valid() && Performed(Update(requestId, patch), now, reply)
    {
      reply := UpdateInTransaction(requestId, patch, now);
      Log(old(Snapshot()), Update(requestId, patch), now, reply);
    }

    method UpdateInTransaction(requestId: Id, patch: Patch, now: int) returns (reply: Reply)
      modifies this`requests, this`opportunities
      ensures Workflow.UpdateRequest(old(Snapshot()), requestId, patch, now) == Outcome(Snapshot(), reply)
      ensures reply.Failed? ==> unchanged(this)
    {
      if !LiveRequest(requests, requestId) {
        return Failed(RequestNotFound);
      }
      var request := requests[requestId];
      if request.status.Canceled? || request.status.Fulfilled? {
        return Failed(RequestImmutable);
      }
      if patch.kind.Value? && Some(patch.kind.kind) != request.data.projectType
         && request.projectId.Some? && request.projectId.value != 0 {
        if HasDuplicateRequest(requests, request.projectId.value, patch.kind.kind, requestId) {
          return Failed(DuplicateRequestType);
        }
      }
      var merged := Merged(request.data, patch, request.projectId);
      requests := requests[requestId := request.(data := merged, updatedAt := now)];
      if patch.kind.Value? {
        var linked := set o | o in opportunities && LiveOpportunity(opportunities, o)
                              && opportunities[o].requestId == Some(requestId);
        opportunities := map o | o in opportunities ::
          if o in linked then opportunities[o].(kind := patch.kind.kind, updatedAt := now) else opportunities[o];
      } else {
        assert opportunities == Retyped(opportunities, requestId, patch.kind, now);
      }
      return Done(requestId);
    }

    method ApplyToOpportunity(opportunityId: Id, userId: nat, notes: string, now: int) returns (reply: Reply)
      requires Valid()
      modifies this
      ensures Valid() && Performed(Apply(opportunityId, userId, notes), now, reply)
    {
      Recall();
      reply := FindOrCreateApplication(opportunityId, userId, notes, now);
      Log(old(Snapshot()), Apply(opportunityId, userId, notes), now, reply);
    }

    method FindOrCreateApplication(opportunityId: Id, userId: nat, notes: string, now: int) returns (reply: Reply)
      requires ApplicationsUnique(applications)
      modifies this`applications, this`applicationSeq
      ensures Workflow.ApplyToOpportunity(old(Snapshot()), opportunityId, userId, notes, now)
              == Outcome(Snapshot(), reply)
      ensures reply.Failed? ==> unchanged(this)
    {
      if !LiveOpportunity(opportunities, opportunityId) {
        return Failed(OpportunityNotFound);
      }
      if !opportunities[opportunityId].status.Active? {
        return Failed(OpportunityNotActive);
      }
      if exists a | a in applications :: ApplicationOf(applications, a, opportunityId, userId) {
        var existing :| existing in applications && ApplicationOf(applications, existing, opportunityId, userId);
        return Done(existing);
      }
      var applicationId := applicationSeq;
      applicationSeq := applicationSeq + 1;
      applications := applications[applicationId :=
        Application(opportunityId, userId, notes, Pending, false, now, now)];
      return Done(applicationId);
    }

    /** Makes the user a copilot of the project: an existing copilot or manager keeps the role, another
        member is given the copilot role, and someone who is not a member is added. */
    method UpsertMember(projectId: Id, userId: nat)
      requires MembersUnique(members)
      modifies this`members, this`memberSeq
      ensures Snapshot() == WithCopilot(old(Snapshot()), projectId, userId)
    {
      if exists m | m in members :: MemberOf(members, m, projectId, userId) {
        var existing :| existing in members && MemberOf(members, existing, projectId, userId);
        if !members[existing].role.Copilot? && !members[existing].role.Manager? {
          members := members[existing := members[existing].(role := Copilot)];
        }
      } else {
        var memberId := memberSeq;
        memberSeq := memberSeq + 1;
        members := members[memberId := Member(projectId, userId, Copilot, false)];
      }
    }

    method AssignCopilot(opportunityId: Id, applicationId: Id, now: int) returns (reply: Reply)
      requires Valid()
      modifies this
      ensures Valid() && Performed(Assign(opportunityId, applicationId), now, reply)
    {
      Recall();
      reply := AssignInTransaction(opportunityId, applicationId, now);
      Log(old(Snapshot()), Assign(opportunityId, applicationId), now, reply);
    }

    method AssignInTransaction(opportunityId: Id, applicationId: Id, now: int) returns (reply: Reply)
      requires MembersUnique(members) && OpportunitiesLinked(opportunities, requests, projects)
      modifies this`requests, this`opportunities, this`applications, this`members, this`memberSeq
      ensures Workflow.AssignCopilot(old(Snapshot()), opportunityId, applicationId, now) == Outcome(Snapshot(), reply)
      ensures reply.Failed? ==> unchanged(this)
    {
      hide WithCopilot, MembersUnique;
      if !LiveOpportunity(opportunities, opportunityId) {
        return Failed(OpportunityNotFound);
      }
      var opportunity := opportunities[opportunityId];
      if !opportunity.status.Active? {
        return Failed(OpportunityNotActive);
      }
      if opportunity.projectId.None? || opportunity.projectId.value == 0 {
        return Failed(OpportunityWithoutProject);
      }
      if !ApplicationTo(applications, applicationId, opportunityId) {
        return Failed(NoSuchApplication);
      }
      var application := applications[applicationId];
      if application.status.Accepted? {
        return Failed(ApplicationAlreadyAccepted);
      }
      UpsertMember(opportunity.projectId.value, application.userId);
      applications := applications[applicationId := application.(status := Accepted, updatedAt := now)];
      var others := set a | a in applications && ApplicationTo(applications, a, opportunityId) && a != applicationId;
      assert forall a | a in applications && ApplicationTo(applications, a, opportunityId) && a != applicationId ::
          a in others;
      if others != {} {
        applications := map a | a in applications ::
          if a in others then applications[a].(status := ApplicationStatus.Canceled, updatedAt := now)
          else applications[a];
      }
      assert applications == Settled(old(applications), opportunityId, Some(applicationId), now);
      opportunities := opportunities[opportunityId := opportunity.(status := Completed, updatedAt := now)];
      if opportunity.requestId.Some? && opportunity.requestId.value != 0 {
        var requestId := opportunity.requestId.value;
        requests := requests[requestId := requests[requestId].(status := Fulfilled, updatedAt := now)];
      }
      return Done(applicationId);
    }

    method CancelOpportunity(opportunityId: Id, now: int) returns (reply: Reply)
      requires Valid()
      modifies this
      ensures Valid() && Performed(Cancel(opportunityId), now, reply)
    {
      reply := CancelInTransaction(opportunityId, now);
      Log(old(Snapshot()), Cancel(opportunityId), now, reply);
    }

    method CancelInTransaction(opportunityId: Id, now: int) returns (reply: Reply)
      modifies this`opportunities, this`applications
      ensures Workflow.CancelOpportunity(old(Snapshot()), opportunityId, now) == Outcome(Snapshot(), reply)
      ensures reply.Failed? ==> unchanged(this)
    {
      if !LiveOpportunity(opportunities, opportunityId) {
        return Failed(OpportunityNotFound);
      }
      var affected := set a | a in applications && ApplicationTo(applications, a, opportunityId);
      assert forall a | a in applications && ApplicationTo(applications, a, opportunityId) :: a in affected;
      if affected != {} {
        applications := map a | a in applications ::
          if a in affected then applications[a].(status := ApplicationStatus.Canceled, updatedAt := now)
          else applications[a];
      }
      assert applications == Settled(old(applications), opportunityId, None, now);
      opportunities := opportunities[opportunityId :=
        opportunities[opportunityId].(status := OpportunityStatus.Canceled, updatedAt := now)];
      return Done(opportunityId);
    }
  }
}
