/** What every one of the six calls keeps, whatever its arguments. */
module Invariants {
  import opened Domain
  import opened Text
  import opened Workflow

  predicate Numbered<T>(rows: map<Id, T>, next: Id) {
    1 <= next && forall i | i in rows :: 1 <= i < next
  }

  /** Stored ids are at least 1 and below the next value of their sequence. */
  predicate Sequences(t: Tables) {
    && (forall p | p in t.projects :: 1 <= p)
    && Numbered(t.requests, t.requestSeq)
    && Numbered(t.opportunities, t.opportunitySeq)
    && Numbered(t.applications, t.applicationSeq)
    && Numbered(t.members, t.memberSeq)
  }

  predicate RequestsLinked(requests: Requests, projects: map<Id, Project>) {
    forall r | r in requests ::
      !requests[r].deleted && requests[r].projectId.Some? && requests[r].projectId.value in projects
  }

  predicate OpportunitiesLinked(opps: Opportunities, requests: Requests, projects: map<Id, Project>) {
    forall o | o in opps ::
      && !opps[o].deleted
      && opps[o].projectId.Some? && opps[o].projectId.value in projects
      && opps[o].requestId.Some? && opps[o].requestId.value in requests
  }

  predicate ApplicationsLinked(apps: Applications, opps: Opportunities) {
    forall a | a in apps :: !apps[a].deleted && apps[a].opportunityId in opps
  }

  /** Every link leads to a row, and no copilot row is deleted. */
  predicate Linked(t: Tables) {
    && RequestsLinked(t.requests, t.projects)
    && OpportunitiesLinked(t.opportunities, t.requests, t.projects)
    && ApplicationsLinked(t.applications, t.opportunities)
  }

  /** A user has at most one live membership in a project. */
  ghost predicate MembersUnique(members: Members) {
    forall m, n, p, u | MemberOf(members, m, p, u) && MemberOf(members, n, p, u) :: m == n
  }

  /** A user has at most one live application to an opportunity. */
  ghost predicate ApplicationsUnique(apps: Applications) {
    forall a, b, o, u | ApplicationOf(apps, a, o, u) && ApplicationOf(apps, b, o, u) :: a == b
  }

  /** The application statuses that each opportunity status allows. */
  predicate Allowed(opportunity: OpportunityStatus, application: ApplicationStatus) {
    match opportunity
    case Active => application.Pending?
    case Completed => application.Accepted? || application.Canceled?
    case Canceled => application.Canceled?
  }

  predicate AcceptedTo(apps: Applications, a: Id, o: Id) {
    ApplicationTo(apps, a, o) && apps[a].status.Accepted?
  }

  predicate StatusesAllowed(opps: Opportunities, apps: Applications) {
    forall a | a in apps && apps[a].opportunityId in opps :: Allowed(opps[apps[a].opportunityId].status, apps[a].status)
  }

  ghost predicate AcceptedExists(opps: Opportunities, apps: Applications) {
    forall o | o in opps && opps[o].status.Completed? :: exists a :: AcceptedTo(apps, a, o)
  }

  ghost predicate AcceptedUnique(apps: Applications) {
    forall a, b, o | AcceptedTo(apps, a, o) && AcceptedTo(apps, b, o) :: a == b
  }

  /** Application statuses agree with the opportunity: an active opportunity has pending applications only,
      a completed one exactly one accepted and otherwise canceled ones, a canceled one canceled ones only. */
  ghost predicate StatusesAgree(opps: Opportunities, apps: Applications) {
    StatusesAllowed(opps, apps) && AcceptedExists(opps, apps) && AcceptedUnique(apps)
  }

  predicate Serves(opps: Opportunities, o: Id, r: Id) {
    o in opps && opps[o].requestId == Some(r)
  }

  /** No stored request is new, rejected, seeking or canceled, and each one has an opportunity. */
  ghost predicate RequestsServed(requests: Requests, opps: Opportunities) {
    forall r | r in requests ::
      (requests[r].status.Approved? || requests[r].status.Fulfilled?) && exists o :: Serves(opps, o, r)
  }

  ghost predicate Inv(t: Tables) {
    && Sequences(t)
    && Linked(t)
    && MembersUnique(t.members)
    && ApplicationsUnique(t.applications)
    && StatusesAgree(t.opportunities, t.applications)
    && RequestsServed(t.requests, t.opportunities)
  }

  /** Before the first call the copilot tables are empty and memberships are unique. */
  ghost predicate Initial(t: Tables) {
    && t.requests == map[] && t.opportunities == map[] && t.applications == map[]
    && Sequences(t)
    && MembersUnique(t.members)
  }

  lemma InitialInv(t: Tables)
    requires Initial(t)
    ensures Inv(t)
  {
  }

  // ----- approving and creating -----

  lemma ServedAfterInsert(requests: Requests, opps: Opportunities, r: Id, request: Request, o: Id, opp: Opportunity)
    requires forall q | q in requests && q != r ::
      (requests[q].status.Approved? || requests[q].status.Fulfilled?) && exists s :: Serves(opps, s, q)
    requires request.status.Approved? && o !in opps && opp.requestId == Some(r)
    ensures RequestsServed(requests[r := request], opps[o := opp])
  {
    var opps' := opps[o := opp];
    assert Serves(opps', o, r);
    forall q | q in requests && q != r
      ensures exists s :: Serves(opps', s, q)
    {
      var s :| Serves(opps, s, q);
      assert Serves(opps', s, q);
    }
  }

  lemma StatusesAfterInsert(opps: Opportunities, apps: Applications, o: Id, opp: Opportunity)
    requires StatusesAgree(opps, apps) && ApplicationsLinked(apps, opps)
    requires o !in opps && opp.status.Active?
    ensures StatusesAgree(opps[o := opp], apps)
  {
  }

  /** An approval turns a state whose only unserved request is `r` into one that meets the invariant. */
  lemma ApprovalServes(t: Tables, p: Id, r: Id, override: Option<string>, now: int)
    requires Sequences(t) && Linked(t) && MembersUnique(t.members) && ApplicationsUnique(t.applications)
    requires StatusesAgree(t.opportunities, t.applications)
    requires forall q | q in t.requests && q != r ::
      (t.requests[q].status.Approved? || t.requests[q].status.Fulfilled?) && exists s :: Serves(t.opportunities, s, q)
    ensures var out := ApproveInternal(t, p, r, override, now); out.reply.Done? ==> Inv(out.tables)
  {
    var out := ApproveInternal(t, p, r, override, now);
    if out.reply.Done? {
      var o := t.opportunitySeq;
      ServedAfterInsert(t.requests, t.opportunities, r, out.tables.requests[r], o, out.tables.opportunities[o]);
      StatusesAfterInsert(t.opportunities, t.applications, o, out.tables.opportunities[o]);
    }
  }

  lemma ApproveKeepsInv(t: Tables, p: Id, r: Id, override: Option<string>, now: int)
    requires Inv(t)
    ensures Inv(ApproveInternal(t, p, r, override, now).tables)
  {
    ApprovalServes(t, p, r, override, now);
  }

  lemma InsertedLinked(t: Tables, p: Id, payload: Payload, now: int)
    requires Sequences(t) && Linked(t) && p in t.projects
    ensures Sequences(Inserted(t, p, payload, now)) && Linked(Inserted(t, p, payload, now))
  {
  }

  lemma CreateKeepsInv(t: Tables, p: Id, payload: Payload, now: int)
    requires Inv(t)
    ensures Inv(CreateRequest(t, p, payload, now).tables)
  {
    var out := CreateRequest(t, p, payload, now);
    if out.reply.Done? {
      InsertedLinked(t, p, payload, now);
      ApprovalServes(Inserted(t, p, payload, now), p, t.requestSeq, Some(TypeName(payload.kind)), now);
    }
  }

  // ----- updating -----

  lemma UpdateKeepsInv(t: Tables, r: Id, patch: Patch, now: int)
    requires Inv(t)
    ensures Inv(UpdateRequest(t, r, patch, now).tables)
  {
    hide Retyped, Merged, UpdateConflicts, MembersUnique, ApplicationsUnique, StatusesAgree, RequestsServed;
    var out := UpdateRequest(t, r, patch, now);
    if out.reply.Done? {
      RetypedLinked(t, r, patch.kind, now, out.tables.requests);
      RetypedServes(t.requests, t.opportunities, r, patch.kind, now, out.tables.requests);
      RetypedStatuses(t.opportunities, t.applications, r, patch.kind, now);
    }
  }

  lemma RetypedLinked(t: Tables, r: Id, kind: PatchedType, now: int, requests: Requests)
    requires Linked(t) && Numbered(t.opportunities, t.opportunitySeq) && requests.Keys == t.requests.Keys
    ensures var opps' := Retyped(t.opportunities, r, kind, now);
      && Numbered(opps', t.opportunitySeq)
      && OpportunitiesLinked(opps', requests, t.projects) && ApplicationsLinked(t.applications, opps')
  {
  }

  lemma RetypedServes(requests: Requests, opps: Opportunities, r: Id, kind: PatchedType, now: int, requests': Requests)
    requires RequestsServed(requests, opps) && requests'.Keys == requests.Keys
    requires forall q | q in requests :: requests'[q].status == requests[q].status
    ensures RequestsServed(requests', Retyped(opps, r, kind, now))
  {
    var opps' := Retyped(opps, r, kind, now);
    forall q | q in requests'
      ensures exists o :: Serves(opps', o, q)
    {
      var o :| Serves(opps, o, q);
      assert Serves(opps', o, q);
    }
  }

  lemma RetypedStatuses(opps: Opportunities, apps: Applications, r: Id, kind: PatchedType, now: int)
    requires StatusesAgree(opps, apps)
    ensures StatusesAgree(Retyped(opps, r, kind, now), apps)
  {
    hide AcceptedTo, Allowed;
  }

  // ----- applying -----

  lemma UniqueAfterApply(apps: Applications, a: Id, app: Application)
    requires ApplicationsUnique(apps) && a !in apps
    requires !exists b :: ApplicationOf(apps, b, app.opportunityId, app.userId)
    ensures ApplicationsUnique(apps[a := app])
  {
    var apps' := apps[a := app];
    forall b, c, o, u | ApplicationOf(apps', b, o, u) && ApplicationOf(apps', c, o, u)
      ensures b == c
    {
      assert b != a ==> ApplicationOf(apps, b, o, u);
      assert c != a ==> ApplicationOf(apps, c, o, u);
    }
  }

  lemma StatusesAfterApply(opps: Opportunities, apps: Applications, a: Id, app: Application)
    requires StatusesAgree(opps, apps) && a !in apps && app.status.Pending?
    requires app.opportunityId in opps && opps[app.opportunityId].status.Active?
    ensures StatusesAgree(opps, apps[a := app])
  {
    var apps' := apps[a := app];
    forall o | o in opps && opps[o].status.Completed?
      ensures exists b :: AcceptedTo(apps', b, o)
    {
      var b :| AcceptedTo(apps, b, o);
      assert AcceptedTo(apps', b, o);
    }
    forall b, c, o | AcceptedTo(apps', b, o) && AcceptedTo(apps', c, o)
      ensures b == c
    {
      assert AcceptedTo(apps, b, o) && AcceptedTo(apps, c, o);
    }
  }

  lemma ApplyKeepsInv(t: Tables, o: Id, u: nat, notes: string, now: int)
    requires Inv(t)
    ensures Inv(ApplyToOpportunity(t, o, u, notes, now).tables)
  {
    var t' := ApplyToOpportunity(t, o, u, notes, now).tables;
    if t' != t {
      var a := t.applicationSeq;
      UniqueAfterApply(t.applications, a, t'.applications[a]);
      StatusesAfterApply(t.opportunities, t.applications, a, t'.applications[a]);
    }
  }

  // ----- assigning and canceling -----

  lemma UniqueAfterSettling(apps: Applications, o: Id, accepted: Option<Id>, now: int)
    requires ApplicationsUnique(apps)
    ensures ApplicationsUnique(Settled(apps, o, accepted, now))
  {
    var apps' := Settled(apps, o, accepted, now);
    forall b, c, q, u | ApplicationOf(apps', b, q, u) && ApplicationOf(apps', c, q, u)
      ensures b == c
    {
      assert ApplicationOf(apps, b, q, u) && ApplicationOf(apps, c, q, u);
    }
  }

  lemma StatusesAfterSettling(opps: Opportunities, apps: Applications, o: Id, accepted: Option<Id>, now: int,
                              opp: Opportunity)
    requires StatusesAgree(opps, apps) && o in opps && ApplicationsLinked(apps, opps)
    requires accepted.Some? ==> ApplicationTo(apps, accepted.value, o)
    requires opp.status == if accepted.Some? then Completed else OpportunityStatus.Canceled
    ensures StatusesAgree(opps[o := opp], Settled(apps, o, accepted, now))
  {
    var opps', apps' := opps[o := opp], Settled(apps, o, accepted, now);
    forall q | q in opps' && opps'[q].status.Completed?
      ensures exists a :: AcceptedTo(apps', a, q)
    {
      if q == o {
        assert AcceptedTo(apps', accepted.value, q);
      } else {
        var a :| AcceptedTo(apps, a, q);
        assert AcceptedTo(apps', a, q);
      }
    }
    forall a, b, q | AcceptedTo(apps', a, q) && AcceptedTo(apps', b, q)
      ensures a == b
    {
      assert q != o ==> AcceptedTo(apps, a, q) && AcceptedTo(apps, b, q);
    }
  }

  lemma MembersAfterAssign(t: Tables, p: Id, u: nat)
    requires MembersUnique(t.members) && Numbered(t.members, t.memberSeq)
    ensures var t' := WithCopilot(t, p, u); t' == t.(members := t'.members, memberSeq := t'.memberSeq)
    ensures MembersUnique(WithCopilot(t, p, u).members)
    ensures Numbered(WithCopilot(t, p, u).members, WithCopilot(t, p, u).memberSeq)
  {
    var members, members' := t.members, WithCopilot(t, p, u).members;
    forall m, n, q, v | MemberOf(members', m, q, v) && MemberOf(members', n, q, v)
      ensures m == n
    {
      assert m in members ==> MemberOf(members, m, q, v);
      assert n in members ==> MemberOf(members, n, q, v);
    }
  }

  lemma ServedAfterSettling(requests: Requests, opps: Opportunities, o: Id, opp: Opportunity, link: Option<Id>,
                            now: int)
    requires RequestsServed(requests, opps) && o in opps && opp.requestId == opps[o].requestId
    ensures RequestsServed(requests, opps[o := opp])
    ensures RequestsServed(Fulfil(requests, link, now), opps[o := opp])
  {
    var opps' := opps[o := opp];
    forall r | r in requests
      ensures exists s :: Serves(opps', s, r)
    {
      var s :| Serves(opps, s, r);
      assert Serves(opps', s, r);
    }
  }

  lemma LinkedAfterSettling(t: Tables, o: Id, opp: Opportunity, accepted: Option<Id>, link: Option<Id>, now: int)
    requires Sequences(t) && Linked(t) && o in t.opportunities
    requires opp == t.opportunities[o].(status := opp.status, updatedAt := opp.updatedAt)
    ensures Numbered(Settled(t.applications, o, accepted, now), t.applicationSeq)
    ensures Numbered(t.opportunities[o := opp], t.opportunitySeq)
    ensures Numbered(Fulfil(t.requests, link, now), t.requestSeq)
    ensures RequestsLinked(Fulfil(t.requests, link, now), t.projects)
    ensures OpportunitiesLinked(t.opportunities[o := opp], Fulfil(t.requests, link, now), t.projects)
    ensures ApplicationsLinked(Settled(t.applications, o, accepted, now), t.opportunities[o := opp])
  {
  }

  lemma AssignKeepsInv(t: Tables, o: Id, a: Id, now: int)
    requires Inv(t)
    ensures Inv(AssignCopilot(t, o, a, now).tables)
  {
    hide WithCopilot, Settled, Fulfil, MembersUnique, ApplicationsUnique, StatusesAgree, RequestsServed;
    hide RequestsLinked, OpportunitiesLinked, ApplicationsLinked, Numbered;
    var out := AssignCopilot(t, o, a, now);
    if out.reply.Done? {
      var opp, opp' := t.opportunities[o], out.tables.opportunities[o];
      LinkedAfterSettling(t, o, opp', Some(a), opp.requestId, now);
      MembersAfterAssign(t, opp.projectId.value, t.applications[a].userId);
      UniqueAfterSettling(t.applications, o, Some(a), now);
      StatusesAfterSettling(t.opportunities, t.applications, o, Some(a), now, opp');
      ServedAfterSettling(t.requests, t.opportunities, o, opp', opp.requestId, now);
    }
  }

  lemma CancelKeepsInv(t: Tables, o: Id, now: int)
    requires Inv(t)
    ensures Inv(CancelOpportunity(t, o, now).tables)
  {
    var out := CancelOpportunity(t, o, now);
    if out.reply.Done? {
      var opp' := out.tables.opportunities[o];
      LinkedAfterSettling(t, o, opp', None, None, now);
      UniqueAfterSettling(t.applications, o, None, now);
      StatusesAfterSettling(t.opportunities, t.applications, o, None, now, opp');
      ServedAfterSettling(t.requests, t.opportunities, o, opp', None, now);
    }
  }

  /** Every call, with any arguments and at any time, keeps the invariant. */
  lemma StepKeepsInv(t: Tables, c: Call, now: int)
    requires Inv(t)
    ensures Inv(Step(t, c, now).tables)
  {
    match c
    case Create(p, payload) => CreateKeepsInv(t, p, payload, now);
    case Update(r, patch) => UpdateKeepsInv(t, r, patch, now);
    case Approve(p, r, override) => ApproveKeepsInv(t, p, r, override, now);
    case Apply(o, u, notes) => ApplyKeepsInv(t, o, u, notes, now);
    case Assign(o, a) => AssignKeepsInv(t, o, a, now);
    case Cancel(o) => CancelKeepsInv(t, o, now);
  }
}
