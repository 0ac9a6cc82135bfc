/** Facts about whole runs: any sequence of the six calls from an initial state. */
module Runs {
  import opened Domain
  import opened Text
  import opened Workflow
  import opened Invariants

  datatype Event = Event(call: Call, now: int)

  ghost function After(t: Tables, e: Event): Tables {
    Step(t, e.call, e.now).tables
  }

  ghost predicate Succeeds(t: Tables, e: Event) {
    Step(t, e.call, e.now).reply.Done?
  }

  /** `states` are the database states before, between and after the `events`. */
  ghost predicate IsRun(states: seq<Tables>, events: seq<Event>) {
    && |states| == |events| + 1
    && Initial(states[0])
    && forall i {:trigger After(states[i], events[i])} | 0 <= i < |events| ::
         states[i + 1] == After(states[i], events[i])
  }

  /** Each state of a run comes from the one before by the next call. */
  lemma Next(states: seq<Tables>, events: seq<Event>, i: nat)
    requires IsRun(states, events) && i < |events|
    ensures states[i + 1] == Step(states[i], events[i].call, events[i].now).tables
  {
    hide Step;
    var t := After(states[i], events[i]);
  }

  /** The invariant holds in every state of every run. */
  lemma {:induction false} RunInv(states: seq<Tables>, events: seq<Event>, i: nat)
    requires IsRun(states, events) && i < |states|
    ensures Inv(states[i])
  {
    if i == 0 {
      InitialInv(states[0]);
    } else {
      RunInv(states, events, i - 1);
      Next(states, events, i - 1);
      StepKeepsInv(states[i - 1], events[i - 1].call, events[i - 1].now);
    }
  }

  lemma NextAfter(states: seq<Tables>, events: seq<Event>, i: nat)
    requires IsRun(states, events) && i < |events|
    ensures |states| == |events| + 1 && states[i + 1] == After(states[i], events[i])
  {
    hide After;
    var t := After(states[i], events[i]);
  }

  lemma SameLength(states: seq<Tables>, events: seq<Event>)
    requires IsRun(states, events)
    ensures |states| == |events| + 1
  {
    hide After;
  }

  /** Lifts an exact step condition to runs: if a property holds at the start, and a step from a state with the
      property keeps it exactly when the step is safe, then it holds in all states exactly when all steps are safe. */
  lemma LiftIff(states: seq<Tables>, events: seq<Event>, holds: Tables -> bool, safe: (Tables, Event) -> bool)
    requires IsRun(states, events) && holds(states[0])
    requires forall i | 0 <= i < |events| && holds(states[i]) :: holds(states[i + 1]) <==> safe(states[i], events[i])
    ensures (forall i | 0 <= i < |states| :: holds(states[i]))
       <==> (forall i | 0 <= i < |events| :: safe(states[i], events[i]))
  {
    if forall i | 0 <= i < |events| :: safe(states[i], events[i]) {
      for n := 0 to |events|
        invariant forall i | 0 <= i <= n :: holds(states[i])
      {
        assert safe(states[n], events[n]);
      }
    }
    if forall i | 0 <= i < |states| :: holds(states[i]) {
      forall i | 0 <= i < |events|
        ensures safe(states[i], events[i])
      {
        assert holds(states[i]) && holds(states[i + 1]);
      }
    }
  }

  // ----- failing calls -----

  /** Only createRequest can fail after its first write; all that remains is the used request number. */
  predicate FailsInTransaction(t: Tables, c: Call) {
    && c.Create?
    && !(c.payload.projectId != 0 && c.projectId != c.payload.projectId)
    && LiveProject(t.projects, c.projectId)
    && !HasDuplicateRequest(t.requests, c.projectId, c.payload.kind, 0)
    && HasActiveOfType(t.opportunities, c.projectId, c.payload.kind)
  }

  /** A failing call leaves every row of every table as it was; the request sequence moves on exactly when
      createRequest meets an active opportunity of the type after its duplicate check has passed. That the
      statements of each transaction come to this, with one restore in createRequest, is proved in Services. */
  lemma FailureRollsBack(t: Tables, c: Call, now: int)
    requires Step(t, c, now).reply.Failed?
    ensures Step(t, c, now).tables ==
            t.(requestSeq := if FailsInTransaction(t, c) then t.requestSeq + 1 else t.requestSeq)
    ensures FailsInTransaction(t, c) ==> Step(t, c, now).reply == Failed(ActiveOpportunityExists)
  {
    if c.Create? {
      ParsesItsName(c.payload.kind);
    }
  }

  /** Guards that no reachable state can trip. */
  lemma UnreachableGuards(t: Tables, c: Call, now: int)
    requires Inv(t)
    ensures Step(t, c, now).reply != Failed(ApplicationAlreadyAccepted)
    ensures Step(t, c, now).reply != Failed(OpportunityWithoutProject)
    ensures c.Create? ==> Step(t, c, now).reply !in {Failed(RequestNotFound), Failed(InvalidType)}
    ensures c.Update? && Step(t, c, now).reply == Failed(RequestImmutable) ==> t.requests[c.requestId].status.Fulfilled?
  {
    hide HasDuplicateRequest, HasActiveOfType, Retyped, Fulfil, Settled, Merged, WithCopilot, UpdateConflicts;
    hide MembersUnique, ApplicationsUnique, AcceptedExists, AcceptedUnique, Numbered, RequestsLinked;
    if c.Create? {
      ParsesItsName(c.payload.kind);
    }
  }

  // ----- nothing is lost, links never change, and status only climbs -----

  ghost predicate KeepsRequests(requests: Requests, requests': Requests) {
    forall r | r in requests :: r in requests' && requests'[r].projectId == requests[r].projectId
  }

  ghost predicate KeepsOpportunities(opps: Opportunities, opps': Opportunities) {
    forall o | o in opps ::
      o in opps' && opps'[o].projectId == opps[o].projectId && opps'[o].requestId == opps[o].requestId
  }

  ghost predicate KeepsApplications(apps: Applications, apps': Applications) {
    forall a | a in apps ::
      && a in apps' && apps'[a].opportunityId == apps[a].opportunityId
      && apps'[a].userId == apps[a].userId && apps'[a].notes == apps[a].notes
  }

  ghost predicate KeepsMembers(members: Members, members': Members) {
    forall m | m in members :: m in members' && members'[m] == members[m].(role := members'[m].role)
  }

  /** `t'` has every row of `t`, with the same links and authors; of a membership only the role may differ. */
  ghost predicate Extends(t: Tables, t': Tables) {
    && t'.projects == t.projects
    && KeepsRequests(t.requests, t'.requests)
    && KeepsOpportunities(t.opportunities, t'.opportunities)
    && KeepsApplications(t.applications, t'.applications)
    && KeepsMembers(t.members, t'.members)
  }

  function Rank(status: OpportunityStatus): nat {
    match status
    case Active => 0
    case Completed => 1
    case Canceled => 2
  }

  ghost predicate Climbs(opps: Opportunities, opps': Opportunities) {
    forall o | o in opps :: o in opps' && Rank(opps[o].status) <= Rank(opps'[o].status)
  }

  lemma ApprovalExtends(t: Tables, p: Id, r: Id, override: Option<string>, now: int)
    requires Sequences(t)
    ensures var t' := ApproveInternal(t, p, r, override, now).tables;
      Extends(t, t') && Climbs(t.opportunities, t'.opportunities)
  {
    hide RequestedType, HasActiveOfType;
  }

  lemma CreateExtends(t: Tables, p: Id, payload: Payload, now: int)
    requires Sequences(t)
    ensures var t' := CreateRequest(t, p, payload, now).tables;
      Extends(t, t') && Climbs(t.opportunities, t'.opportunities)
  {
    hide ApproveInternal;
    var inserted := Inserted(t, p, payload, now);
    if CreateRequest(t, p, payload, now).reply.Done? {
      ApprovalExtends(inserted, p, t.requestSeq, Some(TypeName(payload.kind)), now);
    }
  }

  lemma UpdateExtends(t: Tables, r: Id, patch: Patch, now: int)
    ensures var t' := UpdateRequest(t, r, patch, now).tables;
      Extends(t, t') && Climbs(t.opportunities, t'.opportunities)
  {
    hide Merged, Retyped, UpdateConflicts;
    RetypedExtends(t.opportunities, r, patch.kind, now);
    hide KeepsOpportunities, Climbs;
    UntouchedExtends(t);
  }

  lemma RetypedExtends(opps: Opportunities, r: Id, kind: PatchedType, now: int)
    ensures KeepsOpportunities(opps, Retyped(opps, r, kind, now)) && Climbs(opps, Retyped(opps, r, kind, now))
  {
  }

  lemma UntouchedExtends(t: Tables)
    ensures Extends(t, t) && Climbs(t.opportunities, t.opportunities)
  {
  }

  lemma SettledExtends(apps: Applications, o: Id, accepted: Option<Id>, now: int)
    ensures KeepsApplications(apps, Settled(apps, o, accepted, now))
  {
  }

  lemma ApplyExtends(t: Tables, o: Id, u: nat, notes: string, now: int)
    requires Sequences(t)
    ensures var t' := ApplyToOpportunity(t, o, u, notes, now).tables;
      Extends(t, t') && Climbs(t.opportunities, t'.opportunities)
  {
    UntouchedExtends(t);
    hide KeepsRequests, KeepsOpportunities, KeepsMembers, Climbs;
  }

  lemma WithCopilotExtends(t: Tables, p: Id, u: nat)
    requires Sequences(t)
    ensures Extends(t, WithCopilot(t, p, u))
  {
  }

  lemma AssignExtends(t: Tables, o: Id, a: Id, now: int)
    requires Sequences(t)
    ensures var t' := AssignCopilot(t, o, a, now).tables;
      Extends(t, t') && Climbs(t.opportunities, t'.opportunities)
  {
    hide WithCopilot, Sequences, Settled, KeepsMembers, KeepsApplications;
    UntouchedExtends(t);
    if AssignCopilot(t, o, a, now).reply.Done? {
      WithCopilotExtends(t, t.opportunities[o].projectId.value, t.applications[a].userId);
      SettledExtends(t.applications, o, Some(a), now);
    }
  }

  lemma CancelExtends(t: Tables, o: Id, now: int)
    ensures var t' := CancelOpportunity(t, o, now).tables;
      Extends(t, t') && Climbs(t.opportunities, t'.opportunities)
  {
  }

  lemma StepExtends(t: Tables, c: Call, now: int)
    requires Inv(t)
    ensures Extends(t, Step(t, c, now).tables)
    ensures Climbs(t.opportunities, Step(t, c, now).tables.opportunities)
  {
    hide CreateRequest, UpdateRequest, ApproveInternal, ApplyToOpportunity, AssignCopilot, CancelOpportunity;
    match c
    case Create(p, payload) => CreateExtends(t, p, payload, now);
    case Update(r, patch) => UpdateExtends(t, r, patch, now);
    case Approve(p, r, override) => ApprovalExtends(t, p, r, override, now);
    case Apply(o, u, notes) => ApplyExtends(t, o, u, notes, now);
    case Assign(o, a) => AssignExtends(t, o, a, now);
    case Cancel(o) => CancelExtends(t, o, now);
  }

  /** Along a run an opportunity goes from active to completed to canceled, never back. */
  lemma {:induction false} RunClimbs(states: seq<Tables>, events: seq<Event>, i: nat, j: nat)
    requires IsRun(states, events) && i <= j < |states|
    ensures Climbs(states[i].opportunities, states[j].opportunities)
  {
    hide Step, Inv;
    if i < j {
      RunClimbs(states, events, i, j - 1);
      RunInv(states, events, j - 1);
      Next(states, events, j - 1);
      StepExtends(states[j - 1], events[j - 1].call, events[j - 1].now);
    }
  }

  /** Along a run rows are never lost and never relinked. */
  lemma {:induction false} RunExtends(states: seq<Tables>, events: seq<Event>, i: nat, j: nat)
    requires IsRun(states, events) && i <= j < |states|
    ensures Extends(states[i], states[j])
  {
    hide Step, Inv;
    if i < j {
      RunExtends(states, events, i, j - 1);
      RunInv(states, events, j - 1);
      Next(states, events, j - 1);
      StepExtends(states[j - 1], events[j - 1].call, events[j - 1].now);
    }
  }

  /** No opportunity is assigned successfully twice in one run. */
  lemma AssignedOnce(states: seq<Tables>, events: seq<Event>, i: nat, j: nat)
    requires IsRun(states, events) && i < j < |events|
    requires events[i].call.Assign? && Succeeds(states[i], events[i])
    requires events[j].call.Assign? && Succeeds(states[j], events[j])
    ensures events[i].call.opportunityId != events[j].call.opportunityId
  {
    Next(states, events, i);
    RunClimbs(states, events, i + 1, j);
  }

  /** Once an opportunity is completed its applications stay as they are until it is canceled. */
  lemma CompletedFreezesApplications(t: Tables, c: Call, now: int, o: Id, a: Id)
    requires Inv(t) && o in t.opportunities && t.opportunities[o].status.Completed?
    requires o in Step(t, c, now).tables.opportunities && Step(t, c, now).tables.opportunities[o].status.Completed?
    ensures AcceptedTo(Step(t, c, now).tables.applications, a, o) == AcceptedTo(t.applications, a, o)
  {
    hide WithCopilot, HasDuplicateRequest, HasActiveOfType, RequestedType, Retyped, Fulfil, Merged;
    hide Linked, MembersUnique, ApplicationsUnique, StatusesAgree, RequestsServed;
    if c.Create? || c.Update? || c.Approve? {
      assert Step(t, c, now).tables.applications == t.applications;
    }
  }

  lemma {:induction false} AcceptedStays(states: seq<Tables>, events: seq<Event>, i: nat, j: nat, o: Id, a: Id)
    requires IsRun(states, events) && i <= j < |states|
    requires o in states[i].opportunities && states[i].opportunities[o].status.Completed?
    requires o in states[j].opportunities && states[j].opportunities[o].status.Completed?
    ensures AcceptedTo(states[j].applications, a, o) == AcceptedTo(states[i].applications, a, o)
  {
    hide Step, Inv;
    if i < j {
      RunClimbs(states, events, i, j - 1);
      RunClimbs(states, events, j - 1, j);
      AcceptedStays(states, events, i, j - 1, o, a);
      RunInv(states, events, j - 1);
      Next(states, events, j - 1);
      CompletedFreezesApplications(states[j - 1], events[j - 1].call, events[j - 1].now, o, a);
    }
  }

  /** Over a whole run an opportunity has at most one application that is ever accepted. */
  lemma AcceptedOnce(states: seq<Tables>, events: seq<Event>, i: nat, j: nat, o: Id, a: Id, b: Id)
    requires IsRun(states, events) && i <= j < |states|
    requires AcceptedTo(states[i].applications, a, o) && AcceptedTo(states[j].applications, b, o)
    ensures a == b
  {
    RunInv(states, events, i);
    RunInv(states, events, j);
    AcceptedStays(states, events, i, j, o, a);
  }

  // ----- how many status changes a run can make -----

  ghost function Closed(opps: Opportunities): set<Id> {
    set o | o in opps && !opps[o].status.Active?
  }

  ghost function CanceledOnes(opps: Opportunities): set<Id> {
    set o | o in opps && opps[o].status.Canceled?
  }

  /** The opportunities whose status a step changes. */
  ghost function Changed(opps: Opportunities, opps': Opportunities): set<Id> {
    set o | o in opps && o in opps' && opps'[o].status != opps[o].status
  }

  ghost function Potential(opps: Opportunities): nat {
    |Closed(opps)| + |CanceledOnes(opps)|
  }

  lemma Disjointly(small: set<Id>, big: set<Id>, extra: set<Id>)
    requires small <= big && extra <= big - small
    ensures |small| + |extra| <= |big|
  {
    var rest := big - small - extra;
    assert big == small + extra + rest;
  }

  lemma ChangeRaisesPotential(opps: Opportunities, opps': Opportunities)
    requires Climbs(opps, opps')
    ensures Potential(opps) + |Changed(opps, opps')| <= Potential(opps')
  {
    var closing := Changed(opps, opps') - Closed(opps);
    var canceling := Changed(opps, opps') * Closed(opps);
    assert closing + canceling == Changed(opps, opps');
    Disjointly(Closed(opps), Closed(opps'), closing);
    Disjointly(CanceledOnes(opps), CanceledOnes(opps'), canceling);
  }

  lemma PotentialBound(opps: Opportunities)
    ensures Potential(opps) <= 2 * |opps|
  {
    Disjointly(Closed(opps), opps.Keys, {});
    Disjointly(CanceledOnes(opps), opps.Keys, {});
  }

  /** All status changes made by the first `n` steps. */
  ghost function ChangeCount(states: seq<Tables>, n: nat): nat
    requires n < |states|
  {
    if n == 0 then 0
    else ChangeCount(states, n - 1) + |Changed(states[n - 1].opportunities, states[n].opportunities)|
  }

  lemma {:induction false} ChangesWithinPotential(states: seq<Tables>, events: seq<Event>, n: nat)
    requires IsRun(states, events) && n < |states|
    ensures ChangeCount(states, n) <= Potential(states[n].opportunities)
  {
    if n > 0 {
      ChangesWithinPotential(states, events, n - 1);
      RunClimbs(states, events, n - 1, n);
      ChangeRaisesPotential(states[n - 1].opportunities, states[n].opportunities);
    }
  }

  /** A run makes at most two status changes for each opportunity it creates. */
  lemma StatusChangesBounded(states: seq<Tables>, events: seq<Event>)
    requires IsRun(states, events)
    ensures ChangeCount(states, |events|) <= 2 * |states[|events|].opportunities|
  {
    ChangesWithinPotential(states, events, |events|);
    PotentialBound(states[|events|].opportunities);
  }

  // ----- membership -----

  /** User `u` is a live copilot or manager of project `p`. */
  ghost predicate Staffed(members: Members, p: Id, u: nat) {
    exists m :: MemberOf(members, m, p, u) && Assigned(members[m].role)
  }

  /** The one member row that assigning an application may change or add. */
  lemma AssignTouchesOneMember(t: Tables, o: Id, a: Id, now: int)
    requires Inv(t) && AssignCopilot(t, o, a, now).reply.Done?
    ensures var p, u := t.opportunities[o].projectId.value, t.applications[a].userId;
      var members' := AssignCopilot(t, o, a, now).tables.members;
      && Staffed(members', p, u)
      && (forall m | m in t.members :: m in members' && members'[m] ==
            if MemberOf(t.members, m, p, u) && !Assigned(t.members[m].role) then t.members[m].(role := Copilot)
            else t.members[m])
      && members'.Keys == (if exists m :: MemberOf(t.members, m, p, u) then t.members.Keys
                           else t.members.Keys + {t.memberSeq})
  {
    hide Settled, Fulfil, ApplicationsUnique, StatusesAgree, RequestsServed, Linked;
    var p, u := t.opportunities[o].projectId.value, t.applications[a].userId;
    var members' := AssignCopilot(t, o, a, now).tables.members;
    if exists m :: MemberOf(t.members, m, p, u) {
      var m :| MemberOf(t.members, m, p, u);
      assert MemberOf(members', m, p, u);
    } else {
      assert MemberOf(members', t.memberSeq, p, u);
    }
  }

  lemma StepKeepsStaff(t: Tables, c: Call, now: int, p: Id, u: nat)
    requires Inv(t) && Staffed(t.members, p, u)
    ensures Staffed(Step(t, c, now).tables.members, p, u)
  {
    hide HasDuplicateRequest, HasActiveOfType, RequestedType, Retyped, Fulfil, Settled, Merged;
    hide ApplicationsUnique, StatusesAgree, RequestsServed, Linked;
    var m :| MemberOf(t.members, m, p, u) && Assigned(t.members[m].role);
    assert MemberOf(Step(t, c, now).tables.members, m, p, u);
  }

  lemma {:induction false} RunKeepsStaff(states: seq<Tables>, events: seq<Event>, i: nat, j: nat, p: Id, u: nat)
    requires IsRun(states, events) && i <= j < |states| && Staffed(states[i].members, p, u)
    ensures Staffed(states[j].members, p, u)
  {
    hide Step, Inv;
    if i < j {
      RunKeepsStaff(states, events, i, j - 1, p, u);
      RunInv(states, events, j - 1);
      Next(states, events, j - 1);
      StepKeepsStaff(states[j - 1], events[j - 1].call, events[j - 1].now, p, u);
    }
  }

  lemma AssignStaffs(t: Tables, o: Id, a: Id, now: int)
    requires Inv(t) && Step(t, Assign(o, a), now).reply.Done?
    ensures var t' := Step(t, Assign(o, a), now).tables;
      && o in t'.opportunities && t'.opportunities[o].projectId.Some? && a in t'.applications
      && Staffed(t'.members, t'.opportunities[o].projectId.value, t'.applications[a].userId)
  {
    AssignTouchesOneMember(t, o, a, now);
    hide WithCopilot, Staffed, Fulfil, MembersUnique, ApplicationsUnique, StatusesAgree, RequestsServed, Linked;
  }

  /** A newly accepted application can only come from a successful assignment. */
  lemma AcceptanceIsAssignment(t: Tables, c: Call, now: int, a: Id, o: Id)
    requires Inv(t)
    requires AcceptedTo(Step(t, c, now).tables.applications, a, o) && !AcceptedTo(t.applications, a, o)
    ensures c == Assign(o, a) && Step(t, c, now).reply.Done?
  {
    hide Inv, HasDuplicateRequest, HasActiveOfType, RequestedType, Retyped, Fulfil, WithCopilot, Merged;
  }

  lemma {:induction false} AcceptedIsStaffed(states: seq<Tables>, events: seq<Event>, i: nat, o: Id, a: Id)
    requires IsRun(states, events) && i < |states|
    requires AcceptedTo(states[i].applications, a, o)
    ensures o in states[i].opportunities && states[i].opportunities[o].projectId.Some?
    ensures Staffed(states[i].members, states[i].opportunities[o].projectId.value, states[i].applications[a].userId)
  {
    hide Step, Inv;
    if i > 0 {
      RunInv(states, events, i - 1);
      Next(states, events, i - 1);
      var t, e := states[i - 1], events[i - 1];
      if AcceptedTo(t.applications, a, o) {
        AcceptedIsStaffed(states, events, i - 1, o, a);
        StepExtends(t, e.call, e.now);
        StepKeepsStaff(t, e.call, e.now, t.opportunities[o].projectId.value, t.applications[a].userId);
      } else {
        AcceptanceIsAssignment(t, e.call, e.now, a, o);
        AssignStaffs(t, o, a, e.now);
      }
    }
  }

  /** Whoever is accepted at some point of a run is a copilot or manager of that project ever after,
      even when the opportunity is canceled later. */
  lemma AcceptedStaysStaffed(states: seq<Tables>, events: seq<Event>, i: nat, j: nat, o: Id, a: Id)
    requires IsRun(states, events) && i <= j < |states|
    requires AcceptedTo(states[i].applications, a, o)
    ensures o in states[j].opportunities && states[j].opportunities[o].projectId.Some? && a in states[j].applications
    ensures Staffed(states[j].members, states[j].opportunities[o].projectId.value, states[j].applications[a].userId)
  {
    AcceptedIsStaffed(states, events, i, o, a);
    RunExtends(states, events, i, j);
    RunKeepsStaff(states, events, i, j, states[i].opportunities[o].projectId.value, states[i].applications[a].userId);
  }
}
