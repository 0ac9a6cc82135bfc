/** Which guards decide in a reachable state, what creating stores, and which rows a call may touch. */
module Effects {
  import opened Domain
  import opened Text
  import opened Workflow
  import opened Invariants

  /** When the invariant holds, these guards decide alone: createRequest's own row is always found and its type
      always parses, a stored request is not deleted, and approved unless it is fulfilled, and an active opportunity
      has a project and no accepted application. */
  ghost predicate Admissible(t: Tables, c: Call) {
    match c
    case Create(p, payload) =>
      && payload.projectId in {0, p} && LiveProject(t.projects, p)
      && !HasDuplicateRequest(t.requests, p, payload.kind, 0) && !HasActiveOfType(t.opportunities, p, payload.kind)
    case Update(r, patch) =>
      && r in t.requests && t.requests[r].status.Approved? && t.requests[r].projectId.Some?
      && (patch.kind.Value? && t.requests[r].data.projectType != Some(patch.kind.kind) ==>
            !HasDuplicateRequest(t.requests, t.requests[r].projectId.value, patch.kind.kind, r))
    case Approve(p, r, override) =>
      && LiveProject(t.projects, p) && r in t.requests
      && var k := RequestedType(override, t.requests[r].data); k.Some? && !HasActiveOfType(t.opportunities, p, k.value)
    case Assign(o, a) => ActiveOpportunity(t.opportunities, o) && ApplicationTo(t.applications, a, o)
    case _ => false
  }

  lemma CreateSucceedsIff(t: Tables, p: Id, payload: Payload, now: int)
    ensures CreateRequest(t, p, payload, now).reply.Done? <==> Admissible(t, Create(p, payload))
  {
    ParsesItsName(payload.kind);
    hide HasDuplicateRequest, HasActiveOfType;
  }

  /** In a reachable state creating, updating, approving and assigning succeed if and only if they are admissible. */
  lemma SucceedsIff(t: Tables, c: Call, now: int)
    requires Inv(t) && (c.Create? || c.Update? || c.Approve? || c.Assign?)
    ensures Step(t, c, now).reply.Done? <==> Admissible(t, c)
  {
    hide HasDuplicateRequest, HasActiveOfType, WithCopilot, Settled, Fulfil, Retyped, Merged;
    hide MembersUnique, ApplicationsUnique, RequestedType;
    if c.Create? {
      CreateSucceedsIff(t, c.projectId, c.payload, now);
      hide CreateRequest, Admissible;
    }
  }

  /** A created request carries the payload, is approved, and has one active opportunity of its type. */
  lemma CreateStores(t: Tables, p: Id, payload: Payload, now: int)
    requires Inv(t) && CreateRequest(t, p, payload, now).reply.Done?
    ensures var out := CreateRequest(t, p, payload, now);
      var r, o := t.requestSeq, t.opportunitySeq;
      && out.reply == Done(r) && r !in t.requests && o !in t.opportunities
      && out.tables.requests == t.requests[r := out.tables.requests[r]]
      && out.tables.opportunities == t.opportunities[o := out.tables.opportunities[o]]
      && out.tables.requests[r].status.Approved?
      && out.tables.requests[r].projectId == Some(p) == out.tables.requests[r].data.projectId
      && out.tables.requests[r].data.projectType == Some(payload.kind)
      && out.tables.requests[r].data.fields == payload.fields
      && out.tables.opportunities[o] == Opportunity(Some(p), Some(r), Active, payload.kind, false, now, now)
  {
    RequestsItsType(p, payload, now);
    hide RequestedType, HasDuplicateRequest, HasActiveOfType;
    hide Linked, MembersUnique, ApplicationsUnique, StatusesAgree, RequestsServed;
  }

  /** After a successful update each key of the patch has the patch's value and every other key its old one. A type
      that the patch does not mention stays, a nulled one is gone, and a given one also becomes the type of the
      request's opportunities. */
  lemma UpdateStores(t: Tables, r: Id, patch: Patch, now: int)
    requires Inv(t) && UpdateRequest(t, r, patch, now).reply.Done?
    ensures r in t.requests && r in UpdateRequest(t, r, patch, now).tables.requests
    ensures var before, after := t.requests[r], UpdateRequest(t, r, patch, now).tables.requests[r];
      && (forall key | key in patch.fields :: key in after.data.fields && after.data.fields[key] == patch.fields[key])
      && (forall key | key in before.data.fields && key !in patch.fields ::
            key in after.data.fields && after.data.fields[key] == before.data.fields[key])
      && (forall key | key in after.data.fields :: key in before.data.fields || key in patch.fields)
      && (patch.kind.Absent? ==> after.data.projectType == before.data.projectType)
      && (patch.kind.Null? ==> after.data.projectType == None)
      && (patch.kind.Value? ==> after.data.projectType == Some(patch.kind.kind))
      && after.data.projectId == before.projectId && after.projectId == before.projectId
      && after.status == before.status && after.deleted == before.deleted
      && after.createdAt == before.createdAt && after.updatedAt == now
    ensures var opps, opps' := t.opportunities, UpdateRequest(t, r, patch, now).tables.opportunities;
      && opps'.Keys == opps.Keys
      && forall o | o in opps && opps[o].requestId == Some(r) ::
           if patch.kind.Value? then opps'[o] == opps[o].(kind := patch.kind.kind, updatedAt := now)
           else opps'[o] == opps[o]
  {
    hide MembersUnique, ApplicationsUnique, StatusesAgree, RequestsServed, UpdateConflicts;
  }

  /** Text that reads as type `k` once the white space around it is dropped. */
  predicate Spells(s: string, k: OpportunityType) {
    exists before: nat, after: nat | before <= after <= |s| ::
      AllSpace(s[..before]) && s[before..after] == TypeName(k) && AllSpace(s[after..])
  }

  // ----- why calls fail -----

  /** The complaint `e` is justified, from the rows alone; rows may be in any state. */
  predicate Objection(t: Tables, c: Call, e: Error) {
    match e
    case PayloadProjectMismatch => c.Create? && c.payload.projectId != 0 && c.payload.projectId != c.projectId
    case ProjectNotFound =>
      (c.Create? || c.Approve?) && (c.projectId in t.projects ==> t.projects[c.projectId].deleted)
    case RequestNotFound =>
      (c.Update? || c.Approve?) && (c.requestId in t.requests ==> t.requests[c.requestId].deleted)
    case OpportunityNotFound =>
      && (c.Apply? || c.Assign? || c.Cancel?)
      && (c.opportunityId in t.opportunities ==> t.opportunities[c.opportunityId].deleted)
    case RequestImmutable =>
      c.Update? && c.requestId in t.requests && t.requests[c.requestId].status in {RequestStatus.Canceled, Fulfilled}
    case OpportunityNotActive =>
      && (c.Apply? || c.Assign?)
      && c.opportunityId in t.opportunities && !t.opportunities[c.opportunityId].status.Active?
    case OpportunityWithoutProject =>
      && c.Assign? && c.opportunityId in t.opportunities
      && t.opportunities[c.opportunityId].projectId in {None, Some(0)}
    case NoSuchApplication =>
      && c.Assign?
      && (c.applicationId in t.applications ==>
            t.applications[c.applicationId].deleted
            || t.applications[c.applicationId].opportunityId != c.opportunityId)
    case ApplicationAlreadyAccepted =>
      c.Assign? && c.applicationId in t.applications && t.applications[c.applicationId].status.Accepted?
    case DuplicateRequestType =>
      exists q | q in t.requests ::
        && !t.requests[q].deleted && t.requests[q].status in {New, RequestStatus.Approved, Seeking}
        && (|| (c.Create? && t.requests[q].projectId == Some(c.projectId)
                && t.requests[q].data.projectType == Some(c.payload.kind))
            || (c.Update? && q != c.requestId && c.patch.kind.Value?
                && c.requestId in t.requests && t.requests[c.requestId].projectId == t.requests[q].projectId
                && t.requests[q].projectId.Some? && t.requests[q].projectId != Some(0)
                && t.requests[q].data.projectType == Some(c.patch.kind.kind)
                && t.requests[c.requestId].data.projectType != Some(c.patch.kind.kind)))
    case InvalidType =>
      && c.Approve? && c.requestId in t.requests
      && forall k :: !AsksFor(c.override, t.requests[c.requestId].data, k)
    case ActiveOpportunityExists =>
      exists q | q in t.opportunities ::
        && !t.opportunities[q].deleted && t.opportunities[q].status.Active?
        && (|| (c.Create? && t.opportunities[q].projectId == Some(c.projectId)
                && t.opportunities[q].kind == c.payload.kind)
            || (c.Approve? && t.opportunities[q].projectId == Some(c.projectId) && c.requestId in t.requests
                && AsksFor(c.override, t.requests[c.requestId].data, t.opportunities[q].kind)))
  }

  /** An approval with this override asks for type `k`. */
  predicate AsksFor(override: Option<string>, data: RequestData, k: OpportunityType) {
    if override in {None, Some("")} then data.projectType == Some(k) else Spells(override.value, k)
  }

  lemma SpellsIff(s: string, k: OpportunityType)
    ensures ParseType(Trim(s)) == Some(k) <==> Spells(s, k)
  {
    TypeNameTrimmed(k);
    hide Trim, TypeName, AllSpace, Trimmed, Spells;
    if Trim(s) == TypeName(k) {
      var before, after := TrimTrims(s);
      SpelledBetween(before, k, after);
    }
    if Spells(s, k) {
      var before, after := Surroundings(s, k);
      TrimPadded(before, TypeName(k), after);
    }
  }

  lemma TypeNameTrimmed(k: OpportunityType)
    ensures Trimmed(TypeName(k)) && TypeName(k) != ""
  {
  }

  lemma SpelledBetween(before: string, k: OpportunityType, after: string)
    requires AllSpace(before) && AllSpace(after)
    ensures Spells(before + TypeName(k) + after, k)
  {
    hide AllSpace, TypeName;
    var s := before + TypeName(k) + after;
    var i := |before|;
    var j := i + |TypeName(k)|;
    assert s[..i] == before && s[i..j] == TypeName(k) && s[j..] == after;
  }

  lemma Surroundings(s: string, k: OpportunityType) returns (before: string, after: string)
    requires Spells(s, k)
    ensures AllSpace(before) && AllSpace(after) && s == before + TypeName(k) + after
  {
    hide AllSpace, TypeName;
    var i: nat, j: nat :| i <= j <= |s| && AllSpace(s[..i]) && s[i..j] == TypeName(k) && AllSpace(s[j..]);
    before, after := s[..i], s[j..];
    assert s == s[..i] + s[i..j] + s[j..];
  }

  lemma RequestedIff(override: Option<string>, data: RequestData, k: OpportunityType)
    ensures RequestedType(override, data) == Some(k) <==> AsksFor(override, data, k)
  {
    hide Trim, Spells;
    if override in {None, Some("")} {
      if data.projectType.Some? {
        ParsesItsName(data.projectType.value);
      } else {
        assert Trim("") == "" by { TrimOfTrimmed(""); }
      }
    } else {
      SpellsIff(override.value, k);
    }
  }

  lemma CreateFailsWithReason(t: Tables, p: Id, payload: Payload, now: int)
    ensures var reply := CreateRequest(t, p, payload, now).reply;
      && (reply.Failed? ==> Objection(t, Create(p, payload), reply.error))
      && (reply.Done? <==> forall e :: !Objection(t, Create(p, payload), e))
  {
    hide RequestedType;
    RequestsItsType(p, payload, now);
    assert HasDuplicateRequest(t.requests, p, payload.kind, 0)
      <==> Objection(t, Create(p, payload), DuplicateRequestType);
    assert HasActiveOfType(t.opportunities, p, payload.kind)
      <==> Objection(t, Create(p, payload), ActiveOpportunityExists);
    hide HasDuplicateRequest, HasActiveOfType;
  }

  /** In any state whatever, a failing call names a justified complaint, and a call succeeds if and only if no
      complaint is justified. */
  lemma FailsWithReason(t: Tables, c: Call, now: int)
    ensures Step(t, c, now).reply.Failed? ==> Objection(t, c, Step(t, c, now).reply.error)
    ensures Step(t, c, now).reply.Done? <==> forall e :: !Objection(t, c, e)
  {
    hide RequestedType, AsksFor, WithCopilot, Settled, Fulfil, Retyped, Merged;
    match c
    case Create(p, payload) => CreateFailsWithReason(t, p, payload, now);
      hide CreateRequest, Objection;
    case Update(r, patch) =>
    case Approve(p, r, override) =>
      if r in t.requests {
        forall k { RequestedIff(override, t.requests[r].data, k); }
      }
    case Apply(o, u, notes) =>
    case Assign(o, a) =>
    case Cancel(o) =>
  }

  /** The requests that a call may change. */
  predicate TouchesRequest(t: Tables, c: Call, r: Id) {
    match c
    case Update(q, _) => q == r
    case Approve(_, q, _) => q == r
    case Assign(o, _) => Serves(t.opportunities, o, r)
    case _ => false
  }

  predicate TouchesOpportunity(t: Tables, c: Call, o: Id) {
    match c
    case Update(r, patch) => patch.kind.Value? && Serves(t.opportunities, o, r)
    case Assign(q, _) => q == o
    case Cancel(q) => q == o
    case _ => false
  }

  predicate TouchesApplication(t: Tables, c: Call, a: Id) {
    match c
    case Assign(o, _) => ApplicationTo(t.applications, a, o)
    case Cancel(o) => ApplicationTo(t.applications, a, o)
    case _ => false
  }

  lemma LeavesRequests(t: Tables, c: Call, now: int, r: Id)
    requires Inv(t) && r in t.requests && !TouchesRequest(t, c, r)
    ensures r in Step(t, c, now).tables.requests && Step(t, c, now).tables.requests[r] == t.requests[r]
  {
    hide StatusesAgree, MembersUnique, ApplicationsUnique, RequestsServed, HasDuplicateRequest, HasActiveOfType;
    hide RequestedType, WithCopilot, Settled, Retyped, ApplyToOpportunity, CancelOpportunity;
    if c.Apply? || c.Cancel? {
      SameRequests(t, c, now);
    }
  }

  lemma SameRequests(t: Tables, c: Call, now: int)
    requires c.Apply? || c.Cancel?
    ensures Step(t, c, now).tables.requests == t.requests
  {
  }

  lemma LeavesOpportunities(t: Tables, c: Call, now: int, o: Id)
    requires Inv(t) && o in t.opportunities && !TouchesOpportunity(t, c, o)
    ensures o in Step(t, c, now).tables.opportunities && Step(t, c, now).tables.opportunities[o] == t.opportunities[o]
  {
    hide StatusesAgree, MembersUnique, ApplicationsUnique, RequestsServed, HasDuplicateRequest, HasActiveOfType;
    hide RequestedType, WithCopilot, Settled, Fulfil, Merged;
  }

  lemma LeavesApplications(t: Tables, c: Call, now: int, a: Id)
    requires Inv(t) && a in t.applications && !TouchesApplication(t, c, a)
    ensures a in Step(t, c, now).tables.applications && Step(t, c, now).tables.applications[a] == t.applications[a]
  {
    hide Linked, StatusesAgree, MembersUnique, ApplicationsUnique, RequestsServed, HasDuplicateRequest, HasActiveOfType;
    hide RequestedType, WithCopilot, Retyped, Fulfil, Merged;
  }

  /** Every stored copilot row that a call is not about stays exactly as it was, and only an assignment
      changes memberships. */
  lemma LeavesTheRest(t: Tables, c: Call, now: int)
    requires Inv(t)
    ensures var t' := Step(t, c, now).tables;
      && (forall r | r in t.requests && !TouchesRequest(t, c, r) :: r in t'.requests && t'.requests[r] == t.requests[r])
      && (forall o | o in t.opportunities && !TouchesOpportunity(t, c, o) ::
            o in t'.opportunities && t'.opportunities[o] == t.opportunities[o])
      && (forall a | a in t.applications && !TouchesApplication(t, c, a) ::
            a in t'.applications && t'.applications[a] == t.applications[a])
      && (!c.Assign? ==> t'.members == t.members)
  {
    if !c.Assign? {
      SameMembers(t, c, now);
    }
    hide Step, Inv, TouchesRequest, TouchesOpportunity, TouchesApplication;
    forall r | r in t.requests && !TouchesRequest(t, c, r) { LeavesRequests(t, c, now, r); }
    forall o | o in t.opportunities && !TouchesOpportunity(t, c, o) { LeavesOpportunities(t, c, now, o); }
    forall a | a in t.applications && !TouchesApplication(t, c, a) { LeavesApplications(t, c, now, a); }
  }

  lemma SameMembers(t: Tables, c: Call, now: int)
    requires !c.Assign?
    ensures Step(t, c, now).tables.members == t.members
  {
    hide HasDuplicateRequest, HasActiveOfType, RequestedType, Settled, Retyped, Merged;
  }

  // ----- what new and changed rows look like -----

  /** Stored rows keep their creation time; a row that a successful call is about is updated now; a new row is
      created now, approved, for a project that exists and is not deleted. */
  lemma RequestsStamped(t: Tables, c: Call, now: int, r: Id)
    requires Inv(t) && r in Step(t, c, now).tables.requests
    ensures var row := Step(t, c, now).tables.requests[r];
      if r in t.requests then
        && row.createdAt == t.requests[r].createdAt
        && (Step(t, c, now).reply.Done? && TouchesRequest(t, c, r) ==> row.updatedAt == now)
      else
        && c.Create? && row.status.Approved? && !row.deleted && row.createdAt == row.updatedAt == now
        && row.projectId == Some(c.projectId) && c.projectId in t.projects && !t.projects[c.projectId].deleted
  {
    hide Linked, StatusesAgree, MembersUnique, ApplicationsUnique, RequestsServed, HasDuplicateRequest, HasActiveOfType;
    hide RequestedType, WithCopilot, Settled, Retyped, ApplyToOpportunity, CancelOpportunity, Merged;
    if c.Apply? || c.Cancel? {
      SameRequests(t, c, now);
    }
  }

  /** The same for opportunities; a new one is active. */
  lemma OpportunitiesStamped(t: Tables, c: Call, now: int, o: Id)
    requires Inv(t) && o in Step(t, c, now).tables.opportunities
    ensures var row := Step(t, c, now).tables.opportunities[o];
      if o in t.opportunities then
        && row.createdAt == t.opportunities[o].createdAt
        && (Step(t, c, now).reply.Done? && TouchesOpportunity(t, c, o) ==> row.updatedAt == now)
      else
        && (c.Create? || c.Approve?) && row.status.Active? && !row.deleted && row.createdAt == row.updatedAt == now
        && row.projectId == Some(c.projectId) && c.projectId in t.projects && !t.projects[c.projectId].deleted
  {
    hide StatusesAgree, MembersUnique, ApplicationsUnique, RequestsServed, HasDuplicateRequest, HasActiveOfType;
    hide RequestedType, WithCopilot, Settled, Fulfil, Merged, ApplyToOpportunity;
    hide RequestsLinked, ApplicationsLinked;
    if c.Apply? {
      SameOpportunities(t, c, now);
    }
  }

  lemma SameOpportunities(t: Tables, c: Call, now: int)
    requires c.Apply?
    ensures Step(t, c, now).tables.opportunities == t.opportunities
  {
  }

  /** The same for applications; a new one is pending, by the caller, to an opportunity that is active. */
  lemma ApplicationsStamped(t: Tables, c: Call, now: int, a: Id)
    requires Inv(t) && a in Step(t, c, now).tables.applications
    ensures var row := Step(t, c, now).tables.applications[a];
      if a in t.applications then
        && row.createdAt == t.applications[a].createdAt
        && (Step(t, c, now).reply.Done? && TouchesApplication(t, c, a) ==> row.updatedAt == now)
      else
        && c.Apply? && row == Application(c.opportunityId, c.userId, c.notes, Pending, false, now, now)
        && c.opportunityId in t.opportunities && t.opportunities[c.opportunityId].status.Active?
        && !t.opportunities[c.opportunityId].deleted
  {
    hide Linked, StatusesAgree, MembersUnique, ApplicationsUnique, RequestsServed, HasDuplicateRequest, HasActiveOfType;
    hide RequestedType, WithCopilot, Retyped, Fulfil, Merged;
  }
}
