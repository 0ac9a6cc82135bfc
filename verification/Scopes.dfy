/** When a project has at most one active opportunity of a type, and what becomes of fulfilled requests. */
module Scopes {
  import opened Domain
  import opened Text
  import opened Workflow
  import opened Invariants
  import opened Runs

  /** Two different active opportunities of the same project and type. */
  predicate Clash(opps: Opportunities, o: Id, q: Id) {
    && o != q && ActiveOpportunity(opps, o) && ActiveOpportunity(opps, q)
    && opps[o].projectId == opps[q].projectId && opps[o].kind == opps[q].kind
  }

  /** At most one active opportunity for each project and type. */
  ghost predicate UniqueActive(opps: Opportunities) {
    forall o, q :: !Clash(opps, o, q)
  }

  // ----- the exact condition -----

  /** Giving the opportunities of request `r` the type `k` makes `o`, one of them, meet another active one. */
  predicate Meets(opps: Opportunities, r: Id, k: OpportunityType, o: Id, q: Id) {
    && o != q && ActiveOpportunity(opps, o) && ActiveOpportunity(opps, q)
    && opps[o].projectId == opps[q].projectId
    && opps[o].requestId == Some(r)
    && (opps[q].requestId == Some(r) || opps[q].kind == k)
  }

  /** The check that updateRequest does not make before it retypes. */
  ghost predicate RetypeSafe(opps: Opportunities, r: Id, k: OpportunityType) {
    forall o, q :: !Meets(opps, r, k, o, q)
  }

  /** A retyping update that is refused or safe; any other call. */
  ghost predicate RetypesSafely(t: Tables, e: Event) {
    e.call.Update? && e.call.patch.kind.Value? && Succeeds(t, e)
    ==> RetypeSafe(t.opportunities, e.call.requestId, e.call.patch.kind.kind)
  }

  lemma RetypedUniqueIff(opps: Opportunities, r: Id, kind: PatchedType, now: int)
    requires UniqueActive(opps)
    ensures UniqueActive(Retyped(opps, r, kind, now)) <==> (kind.Value? ==> RetypeSafe(opps, r, kind.kind))
  {
    var opps' := Retyped(opps, r, kind, now);
    if kind.Value? {
      forall o, q | Clash(opps', o, q)
        ensures !RetypeSafe(opps, r, kind.kind)
      {
        assert !Clash(opps, o, q);
        assert Meets(opps, r, kind.kind, o, q) || Meets(opps, r, kind.kind, q, o);
      }
      forall o, q | Meets(opps, r, kind.kind, o, q)
        ensures !UniqueActive(opps')
      {
        assert Clash(opps', o, q);
      }
    } else {
      assert opps' == opps;
    }
  }

  lemma InsertKeepsUnique(opps: Opportunities, o: Id, opp: Opportunity)
    requires UniqueActive(opps) && opp.projectId.Some?
    requires !HasActiveOfType(opps, opp.projectId.value, opp.kind)
    ensures UniqueActive(opps[o := opp])
  {
    var opps' := opps[o := opp];
    forall x, y
      ensures !Clash(opps', x, y)
    {
      assert !Clash(opps, x, y);
      assert x in opps ==> !ActiveOfType(opps, x, opp.projectId.value, opp.kind);
      assert y in opps ==> !ActiveOfType(opps, y, opp.projectId.value, opp.kind);
    }
  }

  lemma ClosingKeepsUnique(opps: Opportunities, o: Id, opp: Opportunity)
    requires UniqueActive(opps) && !opp.status.Active?
    ensures UniqueActive(opps[o := opp])
  {
    var opps' := opps[o := opp];
    forall x, y
      ensures !Clash(opps', x, y)
    {
      assert !Clash(opps, x, y);
    }
  }

  lemma ApprovalKeepsUnique(t: Tables, p: Id, r: Id, override: Option<string>, now: int)
    requires UniqueActive(t.opportunities)
    ensures UniqueActive(ApproveInternal(t, p, r, override, now).tables.opportunities)
  {
    hide UniqueActive, HasActiveOfType, RequestedType;
    var out := ApproveInternal(t, p, r, override, now);
    if out.reply.Done? {
      InsertKeepsUnique(t.opportunities, t.opportunitySeq, out.tables.opportunities[t.opportunitySeq]);
    }
  }

  lemma CreateKeepsUnique(t: Tables, p: Id, payload: Payload, now: int)
    requires UniqueActive(t.opportunities)
    ensures UniqueActive(CreateRequest(t, p, payload, now).tables.opportunities)
  {
    hide UniqueActive, ApproveInternal;
    ApprovalKeepsUnique(Inserted(t, p, payload, now), p, t.requestSeq, Some(TypeName(payload.kind)), now);
  }

  lemma UpdateUniqueIff(t: Tables, r: Id, patch: Patch, now: int)
    requires UniqueActive(t.opportunities)
    ensures var out := UpdateRequest(t, r, patch, now);
      UniqueActive(out.tables.opportunities)
      <==> (out.reply.Done? && patch.kind.Value? ==> RetypeSafe(t.opportunities, r, patch.kind.kind))
  {
    hide UniqueActive, RetypeSafe;
    RetypedUniqueIff(t.opportunities, r, patch.kind, now);
  }

  lemma SettlingKeepsUnique(t: Tables, o: Id, a: Id, now: int)
    requires UniqueActive(t.opportunities)
    ensures UniqueActive(AssignCopilot(t, o, a, now).tables.opportunities)
    ensures UniqueActive(CancelOpportunity(t, o, now).tables.opportunities)
  {
    hide UniqueActive, WithCopilot, Settled, Fulfil;
    if o in t.opportunities {
      var row := t.opportunities[o];
      ClosingKeepsUnique(t.opportunities, o, row.(status := Completed, updatedAt := now));
      ClosingKeepsUnique(t.opportunities, o, row.(status := OpportunityStatus.Canceled, updatedAt := now));
    }
  }

  /** One step keeps uniqueness if and only if it is not an unsafe retyping. */
  lemma StepUniqueIff(t: Tables, e: Event)
    requires UniqueActive(t.opportunities)
    ensures UniqueActive(After(t, e).opportunities) <==> RetypesSafely(t, e)
  {
    hide UniqueActive, RetypeSafe, CreateRequest, UpdateRequest, ApproveInternal, AssignCopilot, CancelOpportunity;
    match e.call
    case Create(p, payload) => CreateKeepsUnique(t, p, payload, e.now);
    case Update(r, patch) => UpdateUniqueIff(t, r, patch, e.now);
    case Approve(p, r, override) => ApprovalKeepsUnique(t, p, r, override, e.now);
    case Apply(o, u, notes) =>
    case Assign(o, a) => SettlingKeepsUnique(t, o, a, e.now);
    case Cancel(o) => SettlingKeepsUnique(t, o, 0, e.now);
  }

  /** Over a whole run of the six calls, every state has at most one active opportunity for each project and
      type if and only if every successful retyping update of the run was safe when it was made. */
  lemma RunUniqueIff(states: seq<Tables>, events: seq<Event>)
    requires IsRun(states, events)
    ensures (forall i | 0 <= i < |states| :: UniqueActive(states[i].opportunities))
       <==> (forall i | 0 <= i < |events| :: RetypesSafely(states[i], events[i]))
  {
    assert UniqueActive(states[0].opportunities);
    hide After, RetypesSafely, UniqueActive, IsRun;
    var holds := (t: Tables) => UniqueActive(t.opportunities);
    forall i | 0 <= i < |events| && holds(states[i])
      ensures holds(states[i + 1]) <==> RetypesSafely(states[i], events[i])
    {
      StepUniqueIff(states[i], events[i]);
      NextAfter(states, events, i);
    }
    LiftIff(states, events, holds, RetypesSafely);
    assert forall t :: holds(t) == UniqueActive(t.opportunities);
  }

  /** A run whose updates never carry a project type: uniqueness holds however requests are approved. */
  lemma UniqueWithoutRetyping(states: seq<Tables>, events: seq<Event>, i: nat)
    requires IsRun(states, events) && i < |states|
    requires forall e | e in events && e.call.Update? :: !e.call.patch.kind.Value?
    ensures UniqueActive(states[i].opportunities)
  {
    hide After, Succeeds, UniqueActive, IsRun;
    RunUniqueIff(states, events);
  }

  // ----- aligned calls: updates may retype -----

  /** No update nulls the type, and an approval names the request's own project and type. */
  predicate Aligned(t: Tables, c: Call) {
    match c
    case Update(r, patch) => !patch.kind.Null?
    case Approve(p, r, override) =>
      r in t.requests ==>
        && t.requests[r].projectId == Some(p)
        && (var k := RequestedType(override, t.requests[r].data);
            k.None? || k == t.requests[r].data.projectType)
    case _ => true
  }

  /** Each opportunity carries the project and the type of its request. */
  predicate Follows(opps: Opportunities, requests: Requests) {
    forall o | o in opps ::
      && opps[o].requestId.Some? && opps[o].requestId.value in requests
      && opps[o].projectId == requests[opps[o].requestId.value].projectId
      && requests[opps[o].requestId.value].data.projectType == Some(opps[o].kind)
  }

  /** The request of an active opportunity is approved. */
  predicate ActiveApproved(opps: Opportunities, requests: Requests) {
    forall o | o in opps && ActiveOpportunity(opps, o) ::
      && opps[o].requestId.Some? && opps[o].requestId.value in requests
      && requests[opps[o].requestId.value].status.Approved?
  }

  ghost predicate Coherent(t: Tables) {
    && Follows(t.opportunities, t.requests)
    && ActiveApproved(t.opportunities, t.requests)
    && UniqueActive(t.opportunities)
  }

  /** The duplicate check on requests already rules out every meeting of opportunities. */
  lemma DuplicateCheckSuffices(t: Tables, r: Id, patch: Patch)
    requires Inv(t) && Coherent(t) && LiveRequest(t.requests, r) && patch.kind.Value?
    requires !UpdateConflicts(t.requests, r, patch)
    ensures RetypeSafe(t.opportunities, r, patch.kind.kind)
  {
    var opps, requests, k := t.opportunities, t.requests, patch.kind.kind;
    forall o, q | Meets(opps, r, k, o, q)
      ensures false
    {
      assert !Clash(opps, o, q);
      var s := opps[q].requestId.value;
      assert OpenOfType(requests, s, requests[r].projectId.value, k);
    }
  }

  lemma UpdateCoherent(t: Tables, r: Id, patch: Patch, now: int)
    requires Inv(t) && Coherent(t) && !patch.kind.Null?
    ensures Coherent(UpdateRequest(t, r, patch, now).tables)
  {
    hide UniqueActive, UpdateConflicts, RetypeSafe, MembersUnique, ApplicationsUnique, StatusesAgree, RequestsServed;
    if UpdateRequest(t, r, patch, now).reply.Done? {
      if patch.kind.Value? {
        DuplicateCheckSuffices(t, r, patch);
      }
      RetypedUniqueIff(t.opportunities, r, patch.kind, now);
    }
  }

  lemma ApprovalCoherent(t: Tables, p: Id, r: Id, override: Option<string>, now: int)
    requires Sequences(t) && Coherent(t)
    requires r in t.requests ==> t.requests[r].projectId == Some(p)
    requires r in t.requests ==>
      var k := RequestedType(override, t.requests[r].data); k.None? || k == t.requests[r].data.projectType
    ensures Coherent(ApproveInternal(t, p, r, override, now).tables)
  {
    hide UniqueActive, RequestedType, HasActiveOfType;
    var out := ApproveInternal(t, p, r, override, now);
    if out.reply.Done? {
      InsertKeepsUnique(t.opportunities, t.opportunitySeq, out.tables.opportunities[t.opportunitySeq]);
    }
  }

  lemma CreateCoherent(t: Tables, p: Id, payload: Payload, now: int)
    requires Inv(t) && Coherent(t)
    ensures Coherent(CreateRequest(t, p, payload, now).tables)
  {
    hide ApproveInternal, UniqueActive;
    if CreateRequest(t, p, payload, now).reply.Done? {
      ParsesItsName(payload.kind);
      InsertedLinked(t, p, payload, now);
      ApprovalCoherent(Inserted(t, p, payload, now), p, t.requestSeq, Some(TypeName(payload.kind)), now);
    }
  }

  lemma AssignCoherent(t: Tables, o: Id, a: Id, now: int)
    requires Inv(t) && Coherent(t)
    ensures Coherent(AssignCopilot(t, o, a, now).tables)
  {
    hide WithCopilot, Settled, Sequences, MembersUnique, ApplicationsUnique, StatusesAgree, RequestsServed;
    var out := AssignCopilot(t, o, a, now);
    if out.reply.Done? {
      var opps := t.opportunities;
      ClosingKeepsUnique(opps, o, out.tables.opportunities[o]);
      forall q: Id | ActiveOpportunity(out.tables.opportunities, q)
        ensures opps[q].requestId != opps[o].requestId
      {
        assert !Clash(opps, o, q);
      }
    }
  }

  lemma CancelCoherent(t: Tables, o: Id, now: int)
    requires Coherent(t)
    ensures Coherent(CancelOpportunity(t, o, now).tables)
  {
    hide UniqueActive, Settled;
    SettlingKeepsUnique(t, o, 0, now);
  }

  lemma StepCoherent(t: Tables, c: Call, now: int)
    requires Inv(t) && Coherent(t) && Aligned(t, c)
    ensures Coherent(Step(t, c, now).tables)
  {
    hide Coherent, RequestedType, CreateRequest, UpdateRequest, ApproveInternal, AssignCopilot, CancelOpportunity;
    match c
    case Create(p, payload) => CreateCoherent(t, p, payload, now);
    case Update(r, patch) => UpdateCoherent(t, r, patch, now);
    case Approve(p, r, override) => ApprovalCoherent(t, p, r, override, now);
    case Apply(o, u, notes) => ApplyCoherent(t, o, u, notes, now);
    case Assign(o, a) => AssignCoherent(t, o, a, now);
    case Cancel(o) => CancelCoherent(t, o, now);
  }

  lemma ApplyCoherent(t: Tables, o: Id, u: nat, notes: string, now: int)
    requires Coherent(t)
    ensures Coherent(ApplyToOpportunity(t, o, u, notes, now).tables)
  {
    hide Follows, ActiveApproved, UniqueActive;
  }

  /** A run whose successful calls are aligned. */
  ghost predicate AlignedRun(states: seq<Tables>, events: seq<Event>) {
    IsRun(states, events) && forall i | 0 <= i < |events| :: AlignedOrFailing(states[i], events[i])
  }

  ghost predicate AlignedOrFailing(t: Tables, e: Event) {
    Succeeds(t, e) ==> Aligned(t, e.call)
  }

  lemma FailureKeepsRows(t: Tables, e: Event)
    requires !Succeeds(t, e)
    ensures After(t, e).requests == t.requests && After(t, e).opportunities == t.opportunities
  {
    FailureRollsBack(t, e.call, e.now);
    hide Step;
  }

  /** Opportunities keep following their requests if and only if a successful call is aligned. */
  lemma StepFollowsIff(t: Tables, e: Event)
    requires Inv(t) && Follows(t.opportunities, t.requests)
    ensures Follows(After(t, e).opportunities, After(t, e).requests) <==> AlignedOrFailing(t, e)
  {
    if !Succeeds(t, e) {
      FailureKeepsRows(t, e);
      hide Step, Inv, Follows;
    } else {
      hide Inv, Follows, RequestedType;
      match e.call
      case Create(p, payload) => CreateFollows(t, p, payload, e.now);
        hide CreateRequest;
      case Update(r, patch) => UpdateFollowsIff(t, r, patch, e.now);
        hide UpdateRequest;
      case Approve(p, r, override) => ApproveFollowsIff(t, p, r, override, e.now);
        hide ApproveInternal;
      case Apply(o, u, notes) =>
      case Assign(o, a) => AssignFollows(t, o, a, e.now);
        hide AssignCopilot;
      case Cancel(o) => CancelFollows(t, o, e.now);
        hide CancelOpportunity;
    }
  }

  lemma CreateFollows(t: Tables, p: Id, payload: Payload, now: int)
    requires Inv(t) && Follows(t.opportunities, t.requests)
    ensures var t' := CreateRequest(t, p, payload, now).tables; Follows(t'.opportunities, t'.requests)
  {
    hide ApproveInternal, Follows, RequestedType;
    if CreateRequest(t, p, payload, now).reply.Done? {
      var r, name := t.requestSeq, Some(TypeName(payload.kind));
      InsertedFollows(t, p, payload, now);
      ApproveFollowsIff(Inserted(t, p, payload, now), p, r, name, now);
      RequestsItsType(p, payload, now);
    }
  }

  lemma InsertedFollows(t: Tables, p: Id, payload: Payload, now: int)
    requires Inv(t) && Follows(t.opportunities, t.requests)
    ensures var t' := Inserted(t, p, payload, now); Sequences(t') && Follows(t'.opportunities, t'.requests)
  {
    hide Linked, StatusesAgree, MembersUnique, ApplicationsUnique, RequestsServed;
  }

  lemma UpdateFollowsIff(t: Tables, r: Id, patch: Patch, now: int)
    requires Inv(t) && Follows(t.opportunities, t.requests) && UpdateRequest(t, r, patch, now).reply.Done?
    ensures var t' := UpdateRequest(t, r, patch, now).tables;
      Follows(t'.opportunities, t'.requests) <==> !patch.kind.Null?
  {
    hide UpdateConflicts, StatusesAgree, MembersUnique, ApplicationsUnique, Sequences;
    if patch.kind.Null? {
      var o :| Serves(t.opportunities, o, r);
      assert o in UpdateRequest(t, r, patch, now).tables.opportunities;
    }
  }

  lemma ApproveFollowsIff(t: Tables, p: Id, r: Id, override: Option<string>, now: int)
    requires Sequences(t) && Follows(t.opportunities, t.requests)
    requires ApproveInternal(t, p, r, override, now).reply.Done?
    ensures var t' := ApproveInternal(t, p, r, override, now).tables;
      Follows(t'.opportunities, t'.requests) <==> Aligned(t, Approve(p, r, override))
  {
    hide HasActiveOfType, RequestedType;
    assert t.opportunitySeq in ApproveInternal(t, p, r, override, now).tables.opportunities;
  }

  lemma AssignFollows(t: Tables, o: Id, a: Id, now: int)
    requires Follows(t.opportunities, t.requests)
    ensures var t' := AssignCopilot(t, o, a, now).tables; Follows(t'.opportunities, t'.requests)
  {
    hide WithCopilot, Settled;
  }

  lemma CancelFollows(t: Tables, o: Id, now: int)
    requires Follows(t.opportunities, t.requests)
    ensures var t' := CancelOpportunity(t, o, now).tables; Follows(t'.opportunities, t'.requests)
  {
    hide Settled;
  }

  /** In every state of a run each opportunity carries its request's project and type if and only if every
      successful call of the run was aligned when it was made. */
  lemma RunFollowsIff(states: seq<Tables>, events: seq<Event>)
    requires IsRun(states, events)
    ensures (forall i | 0 <= i < |states| :: Follows(states[i].opportunities, states[i].requests))
       <==> AlignedRun(states, events)
  {
    assert Follows(states[0].opportunities, states[0].requests);
    hide After, AlignedOrFailing, Follows, IsRun;
    var holds := (t: Tables) => Follows(t.opportunities, t.requests);
    forall i | 0 <= i < |events| && holds(states[i])
      ensures holds(states[i + 1]) <==> AlignedOrFailing(states[i], events[i])
    {
      RunInv(states, events, i) by { SameLength(states, events); }
      StepFollowsIff(states[i], events[i]);
      NextAfter(states, events, i);
    }
    LiftIff(states, events, holds, AlignedOrFailing);
    assert forall t :: holds(t) == Follows(t.opportunities, t.requests);
  }

  /** In a run of aligned calls there is at most one active opportunity for each project and type, every
      opportunity carries its request's project and type, and active opportunities belong to approved requests. */
  lemma {:induction false} RunCoherent(states: seq<Tables>, events: seq<Event>, i: nat)
    requires AlignedRun(states, events) && i < |states|
    ensures Coherent(states[i])
  {
    hide Step, Inv, Aligned, Coherent;
    if i == 0 {
      CoherentAtStart(states[0]);
    } else {
      var t, e := states[i - 1], events[i - 1];
      RunCoherent(states, events, i - 1);
      RunInv(states, events, i - 1);
      NextAfter(states, events, i - 1);
      if Succeeds(t, e) {
        StepCoherent(t, e.call, e.now);
      } else {
        FailureKeepsRows(t, e);
        CoherentRows(t, After(t, e));
      }
    }
  }

  lemma CoherentAtStart(t: Tables)
    requires Initial(t)
    ensures Coherent(t)
  {
  }

  lemma CoherentRows(t: Tables, t': Tables)
    requires Coherent(t) && t'.requests == t.requests && t'.opportunities == t.opportunities
    ensures Coherent(t')
  {
    hide Follows, ActiveApproved, UniqueActive;
  }

  /** In such a run createRequest never meets an active opportunity once its duplicate check has passed. */
  lemma InnerConflictUnreachable(states: seq<Tables>, events: seq<Event>, i: nat, c: Call)
    requires AlignedRun(states, events) && i < |states|
    ensures !FailsInTransaction(states[i], c)
  {
    RunInv(states, events, i);
    RunCoherent(states, events, i);
    NoInnerConflict(states[i], c);
  }

  lemma NoInnerConflict(t: Tables, c: Call)
    requires Inv(t) && Coherent(t)
    ensures !FailsInTransaction(t, c)
  {
    if c.Create? && HasActiveOfType(t.opportunities, c.projectId, c.payload.kind) {
      var o :| o in t.opportunities && ActiveOfType(t.opportunities, o, c.projectId, c.payload.kind);
      assert OpenOfType(t.requests, t.opportunities[o].requestId.value, c.projectId, c.payload.kind);
    }
  }
}
