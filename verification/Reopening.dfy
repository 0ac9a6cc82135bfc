/** What becomes of fulfilled requests, and what approving one of them again breaks. */
module Reopening {
  import opened Domain
  import opened Workflow
  import opened Invariants
  import opened Runs
  import opened Scopes

  /** A successful approval of request `r`. */
  ghost predicate ApprovesNow(t: Tables, e: Event, r: Id) {
    e.call.Approve? && e.call.requestId == r && Succeeds(t, e)
  }

  /** A successful approval of a request that is already fulfilled. */
  ghost predicate Reapproves(t: Tables, e: Event) {
    e.call.Approve? && LiveRequest(t.requests, e.call.requestId)
    && t.requests[e.call.requestId].status.Fulfilled? && Succeeds(t, e)
  }

  // ----- open requests of one project have different types -----

  /** `q` is another open request of the project and the type of `r`; a nulled type is nobody's type. */
  predicate OpenTwin(requests: Requests, r: Id, q: Id) {
    && r in requests && q in requests && r != q && Open(requests[q].status)
    && requests[r].projectId == requests[q].projectId
    && requests[r].data.projectType.Some?
    && requests[r].data.projectType == requests[q].data.projectType
  }

  predicate SameOpenType(requests: Requests, r: Id, q: Id) {
    OpenTwin(requests, r, q) && Open(requests[r].status)
  }

  /** What the duplicate checks of createRequest and updateRequest are for. */
  ghost predicate OpenDistinct(requests: Requests) {
    forall r, q :: !SameOpenType(requests, r, q)
  }

  /** The check that an approval of a fulfilled request does not make. */
  ghost predicate ReopensSafely(t: Tables, e: Event) {
    Reapproves(t, e) ==> forall q :: !OpenTwin(t.requests, e.call.requestId, q)
  }

  lemma CreateKeepsDistinct(t: Tables, p: Id, payload: Payload, now: int)
    requires Inv(t) && OpenDistinct(t.requests)
    ensures OpenDistinct(CreateRequest(t, p, payload, now).tables.requests)
  {
    hide HasActiveOfType, RequestedType, StatusesAgree, RequestsServed, MembersUnique, ApplicationsUnique;
    var out := CreateRequest(t, p, payload, now);
    if out.reply.Done? {
      forall x, y
        ensures !SameOpenType(out.tables.requests, x, y)
      {
        assert !SameOpenType(t.requests, x, y);
        assert x in t.requests ==> !OpenOfType(t.requests, x, p, payload.kind);
        assert y in t.requests ==> !OpenOfType(t.requests, y, p, payload.kind);
      }
    }
  }

  lemma UpdateKeepsDistinct(t: Tables, r: Id, patch: Patch, now: int)
    requires Inv(t) && OpenDistinct(t.requests)
    ensures OpenDistinct(UpdateRequest(t, r, patch, now).tables.requests)
  {
    hide Retyped, StatusesAgree, RequestsServed, MembersUnique, ApplicationsUnique;
    var out := UpdateRequest(t, r, patch, now);
    if out.reply.Done? {
      forall x, y
        ensures !SameOpenType(out.tables.requests, x, y)
      {
        assert !SameOpenType(t.requests, x, y);
        if patch.kind.Value? && t.requests[r].data.projectType != Some(patch.kind.kind) {
          var p, k := t.requests[r].projectId.value, patch.kind.kind;
          assert x in t.requests && x != r ==> !OpenOfType(t.requests, x, p, k);
          assert y in t.requests && y != r ==> !OpenOfType(t.requests, y, p, k);
        }
      }
    }
  }

  lemma ApproveDistinctIff(t: Tables, p: Id, r: Id, override: Option<string>, now: int)
    requires Inv(t) && OpenDistinct(t.requests) && ApproveInternal(t, p, r, override, now).reply.Done?
    ensures OpenDistinct(ApproveInternal(t, p, r, override, now).tables.requests)
       <==> (t.requests[r].status.Fulfilled? ==> forall q :: !OpenTwin(t.requests, r, q))
  {
    hide RequestedType, HasActiveOfType, StatusesAgree, MembersUnique, ApplicationsUnique, Linked;
    var requests' := ApproveInternal(t, p, r, override, now).tables.requests;
    forall x, y | SameOpenType(requests', x, y)
      ensures t.requests[r].status.Fulfilled? && (OpenTwin(t.requests, r, x) || OpenTwin(t.requests, r, y))
    {
      assert !SameOpenType(t.requests, x, y);
    }
    forall q | OpenTwin(t.requests, r, q)
      ensures SameOpenType(requests', r, q)
    {
    }
  }

  lemma AssignKeepsDistinct(t: Tables, o: Id, a: Id, now: int)
    requires OpenDistinct(t.requests)
    ensures OpenDistinct(AssignCopilot(t, o, a, now).tables.requests)
  {
    hide WithCopilot, Settled;
    forall x, y
      ensures !SameOpenType(AssignCopilot(t, o, a, now).tables.requests, x, y)
    {
      assert !SameOpenType(t.requests, x, y);
    }
  }

  /** One call keeps the types of open requests distinct if and only if it does not reopen a fulfilled request
      beside an open one of its project and type. */
  lemma StepDistinctIff(t: Tables, e: Event)
    requires Inv(t) && OpenDistinct(t.requests)
    ensures OpenDistinct(After(t, e).requests) <==> ReopensSafely(t, e)
  {
    if !Succeeds(t, e) {
      FailureKeepsRows(t, e);
      hide Step, Inv, OpenDistinct;
    } else {
      hide Inv, OpenDistinct, OpenTwin, RequestedType;
      match e.call
      case Create(p, payload) => CreateKeepsDistinct(t, p, payload, e.now);
        hide CreateRequest;
      case Update(r, patch) => UpdateKeepsDistinct(t, r, patch, e.now);
        hide UpdateRequest;
      case Approve(p, r, override) => ApproveDistinctIff(t, p, r, override, e.now);
      case Apply(o, u, notes) =>
      case Assign(o, a) => AssignKeepsDistinct(t, o, a, e.now);
        hide AssignCopilot;
      case Cancel(o) =>
    }
  }

  /** In every state of a run the open requests of each project have different types if and only if no
      successful approval of the run reopened a fulfilled request beside an open twin. */
  lemma RunDistinctIff(states: seq<Tables>, events: seq<Event>)
    requires IsRun(states, events)
    ensures (forall i | 0 <= i < |states| :: OpenDistinct(states[i].requests))
       <==> (forall i | 0 <= i < |events| :: ReopensSafely(states[i], events[i]))
  {
    assert OpenDistinct(states[0].requests);
    hide After, ReopensSafely, OpenDistinct, IsRun;
    var holds := (t: Tables) => OpenDistinct(t.requests);
    forall i | 0 <= i < |events| && holds(states[i])
      ensures holds(states[i + 1]) <==> ReopensSafely(states[i], events[i])
    {
      RunInv(states, events, i) by { SameLength(states, events); }
      StepDistinctIff(states[i], events[i]);
      NextAfter(states, events, i);
    }
    LiftIff(states, events, holds, ReopensSafely);
    assert forall t :: holds(t) == OpenDistinct(t.requests);
  }

  // ----- the request of a completed opportunity is fulfilled -----

  predicate CompletedFor(opps: Opportunities, o: Id, r: Id) {
    Serves(opps, o, r) && opps[o].status.Completed?
  }

  predicate CompletedFulfilled(opps: Opportunities, requests: Requests) {
    forall o | o in opps && opps[o].status.Completed? ::
      && opps[o].requestId.Some? && opps[o].requestId.value in requests
      && requests[opps[o].requestId.value].status.Fulfilled?
  }

  /** Not a successful approval of a request that has a completed opportunity. */
  ghost predicate ApprovesUncompleted(t: Tables, e: Event) {
    e.call.Approve? && Succeeds(t, e) ==> forall o :: !CompletedFor(t.opportunities, o, e.call.requestId)
  }

  lemma ApproveCompletedIff(t: Tables, p: Id, r: Id, override: Option<string>, now: int)
    requires Sequences(t) && CompletedFulfilled(t.opportunities, t.requests)
    requires ApproveInternal(t, p, r, override, now).reply.Done?
    ensures var t' := ApproveInternal(t, p, r, override, now).tables;
      CompletedFulfilled(t'.opportunities, t'.requests) <==> forall o :: !CompletedFor(t.opportunities, o, r)
  {
    hide RequestedType, HasActiveOfType;
    var t' := ApproveInternal(t, p, r, override, now).tables;
    forall o | CompletedFor(t.opportunities, o, r)
      ensures !CompletedFulfilled(t'.opportunities, t'.requests)
    {
      assert o in t'.opportunities && t'.opportunities[o] == t.opportunities[o];
    }
    if forall o :: !CompletedFor(t.opportunities, o, r) {
      forall o | o in t'.opportunities && t'.opportunities[o].status.Completed?
        ensures t'.requests[t'.opportunities[o].requestId.value].status.Fulfilled?
      {
        assert !CompletedFor(t.opportunities, o, r);
      }
    }
  }

  lemma CreateKeepsCompleted(t: Tables, p: Id, payload: Payload, now: int)
    requires Sequences(t) && CompletedFulfilled(t.opportunities, t.requests)
    ensures var t' := CreateRequest(t, p, payload, now).tables; CompletedFulfilled(t'.opportunities, t'.requests)
  {
    hide RequestedType, HasActiveOfType, HasDuplicateRequest;
  }

  lemma AssignKeepsCompleted(t: Tables, o: Id, a: Id, now: int)
    requires Sequences(t) && OpportunitiesLinked(t.opportunities, t.requests, t.projects)
    requires CompletedFulfilled(t.opportunities, t.requests)
    ensures var t' := AssignCopilot(t, o, a, now).tables; CompletedFulfilled(t'.opportunities, t'.requests)
  {
    hide WithCopilot, Settled;
  }

  lemma StepCompletedIff(t: Tables, e: Event)
    requires Inv(t) && CompletedFulfilled(t.opportunities, t.requests)
    ensures CompletedFulfilled(After(t, e).opportunities, After(t, e).requests) <==> ApprovesUncompleted(t, e)
  {
    if !Succeeds(t, e) {
      FailureKeepsRows(t, e);
      hide Step, Inv, CompletedFulfilled;
    } else {
      hide CompletedFor, RequestedType, StatusesAgree, MembersUnique, ApplicationsUnique, RequestsServed;
      match e.call
      case Create(p, payload) => CreateKeepsCompleted(t, p, payload, e.now);
        hide CreateRequest, CompletedFulfilled;
      case Update(r, patch) =>
        hide UpdateConflicts;
      case Approve(p, r, override) => ApproveCompletedIff(t, p, r, override, e.now);
        hide ApproveInternal, CompletedFulfilled;
      case Apply(o, u, notes) =>
      case Assign(o, a) => AssignKeepsCompleted(t, o, a, e.now);
        hide AssignCopilot, CompletedFulfilled;
      case Cancel(o) =>
        hide Settled;
    }
  }

  /** In every state of a run the requests of completed opportunities are fulfilled if and only if no
      successful approval of the run named a request with a completed opportunity. */
  lemma RunCompletedIff(states: seq<Tables>, events: seq<Event>)
    requires IsRun(states, events)
    ensures (forall i | 0 <= i < |states| :: CompletedFulfilled(states[i].opportunities, states[i].requests))
       <==> (forall i | 0 <= i < |events| :: ApprovesUncompleted(states[i], events[i]))
  {
    assert CompletedFulfilled(states[0].opportunities, states[0].requests);
    hide After, ApprovesUncompleted, CompletedFulfilled, IsRun;
    var holds := (t: Tables) => CompletedFulfilled(t.opportunities, t.requests);
    forall i | 0 <= i < |events| && holds(states[i])
      ensures holds(states[i + 1]) <==> ApprovesUncompleted(states[i], events[i])
    {
      RunInv(states, events, i) by { SameLength(states, events); }
      StepCompletedIff(states[i], events[i]);
      NextAfter(states, events, i);
    }
    LiftIff(states, events, holds, ApprovesUncompleted);
    assert forall t :: holds(t) == CompletedFulfilled(t.opportunities, t.requests);
  }

  /** A run that never approves a fulfilled request successfully has both properties throughout. */
  lemma WithoutReapproval(states: seq<Tables>, events: seq<Event>)
    requires IsRun(states, events)
    requires forall i | 0 <= i < |events| :: !Reapproves(states[i], events[i])
    ensures forall i | 0 <= i < |states| ::
      OpenDistinct(states[i].requests) && CompletedFulfilled(states[i].opportunities, states[i].requests)
  {
    RunDistinctIff(states, events);
    hide OpenDistinct, After, IsRun, Step;
    assert CompletedFulfilled(states[0].opportunities, states[0].requests) by { StartsFulfilled(states, events); }
    SameLength(states, events);
    for n := 0 to |events|
      invariant forall i | 0 <= i <= n :: CompletedFulfilled(states[i].opportunities, states[i].requests)
    {
      RunInv(states, events, n);
      StepCompletedIff(states[n], events[n]);
      NextAfter(states, events, n);
      CompletedIsFulfilled(states[n], events[n]);
    }
  }

  lemma StartsFulfilled(states: seq<Tables>, events: seq<Event>)
    requires IsRun(states, events)
    ensures |states| > 0 && CompletedFulfilled(states[0].opportunities, states[0].requests)
  {
    hide After;
  }

  lemma CompletedIsFulfilled(t: Tables, e: Event)
    requires Inv(t) && CompletedFulfilled(t.opportunities, t.requests) && !Reapproves(t, e)
    ensures ApprovesUncompleted(t, e)
  {
    hide Step;
    assert forall r | r in t.requests :: !t.requests[r].deleted;
  }

  // ----- fulfilled for good -----

  /** From `t` to `t'`, request `r` stays fulfilled with the same data, gains no opportunity, and its
      opportunities keep their types and are not active. */
  ghost predicate Final(t: Tables, t': Tables, r: Id) {
    && r in t.requests && r in t'.requests
    && t.requests[r].status.Fulfilled? && t'.requests[r].status.Fulfilled?
    && t'.requests[r].data == t.requests[r].data
    && forall o | Serves(t'.opportunities, o, r) ::
         && Serves(t.opportunities, o, r)
         && t'.opportunities[o].kind == t.opportunities[o].kind
         && !t'.opportunities[o].status.Active?
  }

  predicate ActiveFor(opps: Opportunities, o: Id, r: Id) {
    Serves(opps, o, r) && opps[o].status.Active?
  }

  lemma FinalComposes(t: Tables, t': Tables, t'': Tables, r: Id)
    requires Final(t, t', r) && Final(t', t'', r)
    ensures Final(t, t'', r)
  {
  }

  lemma CreateFinal(t: Tables, p: Id, payload: Payload, now: int, r: Id)
    requires Sequences(t) && Final(t, t, r)
    ensures Final(t, CreateRequest(t, p, payload, now).tables, r)
  {
    hide RequestedType, HasActiveOfType, HasDuplicateRequest;
  }

  lemma ApprovalFinalIff(t: Tables, p: Id, s: Id, override: Option<string>, now: int, r: Id)
    requires Sequences(t) && Final(t, t, r) && ApproveInternal(t, p, s, override, now).reply.Done?
    ensures Final(t, ApproveInternal(t, p, s, override, now).tables, r) <==> s != r
  {
    hide RequestedType, HasActiveOfType;
  }

  lemma AssignFinal(t: Tables, o: Id, a: Id, now: int, r: Id)
    requires Final(t, t, r)
    ensures Final(t, AssignCopilot(t, o, a, now).tables, r)
  {
    hide WithCopilot, Settled;
    assert Serves(t.opportunities, o, r) ==> !t.opportunities[o].status.Active?;
  }

  lemma RowsFinal(t: Tables, t': Tables, r: Id)
    requires Final(t, t, r) && t'.requests == t.requests && t'.opportunities == t.opportunities
    ensures Final(t, t', r)
  {
  }

  /** A call ends the finality of a fulfilled request if and only if it approves that request. */
  lemma StepFinalIff(t: Tables, e: Event, r: Id)
    requires Sequences(t) && Final(t, t, r)
    ensures Final(t, After(t, e), r) <==> !ApprovesNow(t, e, r)
  {
    if !Succeeds(t, e) {
      FailureKeepsRows(t, e);
      RowsFinal(t, After(t, e), r);
      hide Step, Final;
    } else {
      hide Sequences;
      match e.call
      case Create(p, payload) => CreateFinal(t, p, payload, e.now, r);
        hide CreateRequest, Final;
      case Update(s, patch) =>
        hide UpdateConflicts;
      case Approve(p, s, override) => ApprovalFinalIff(t, p, s, override, e.now, r);
        hide ApproveInternal, Final;
      case Apply(o, u, notes) => RowsFinal(t, After(t, e), r);
      case Assign(o, a) => AssignFinal(t, o, a, e.now, r);
        hide AssignCopilot, Final;
      case Cancel(o) =>
        hide Settled;
    }
  }

  lemma {:induction false} FinalWhileUnapproved(states: seq<Tables>, events: seq<Event>, i: nat, j: nat, r: Id)
    requires IsRun(states, events) && i <= j < |states| && Final(states[i], states[i], r)
    requires forall n | i <= n < j :: !ApprovesNow(states[n], events[n], r)
    ensures Final(states[i], states[j], r)
  {
    hide After, ApprovesNow, IsRun;
    if i < j {
      FinalWhileUnapproved(states, events, i, j - 1, r);
      assert Final(states[j - 1], states[j - 1], r);
      RunInv(states, events, j - 1);
      SameLength(states, events);
      StepFinalIff(states[j - 1], events[j - 1], r);
      NextAfter(states, events, j - 1);
      FinalComposes(states[i], states[j - 1], states[j], r);
    }
  }

  /** A fulfilled request stays so for the rest of the run, with its data, its opportunities and their types
      unchanged and none of them active, if and only if none is active now and no later call approves it. */
  lemma FulfilledIsFinalIff(states: seq<Tables>, events: seq<Event>, i: nat, r: Id)
    requires IsRun(states, events) && i < |states|
    requires r in states[i].requests && states[i].requests[r].status.Fulfilled?
    ensures (forall j | i <= j < |states| :: Final(states[i], states[j], r))
       <==> (&& (forall o :: !ActiveFor(states[i].opportunities, o, r))
             && forall j | i <= j < |events| :: !ApprovesNow(states[j], events[j], r))
  {
    SameLength(states, events);
    FinalIffInactive(states[i], r);
    hide IsRun, After, ApprovesNow, Final, ActiveFor;
    if forall j | i <= j < |states| :: Final(states[i], states[j], r) {
      assert Final(states[i], states[i], r);
      forall j | i <= j < |events|
        ensures !ApprovesNow(states[j], events[j], r)
      {
        NextAfter(states, events, j);
        assert Final(states[i], states[j + 1], r);
        FinalNotApproved(states[i], states[j], events[j], r);
      }
    }
    if Final(states[i], states[i], r) && forall j | i <= j < |events| :: !ApprovesNow(states[j], events[j], r) {
      forall j | i <= j < |states|
        ensures Final(states[i], states[j], r)
      {
        FinalWhileUnapproved(states, events, i, j, r);
      }
    }
  }

  lemma FinalIffInactive(t: Tables, r: Id)
    requires r in t.requests && t.requests[r].status.Fulfilled?
    ensures Final(t, t, r) <==> forall o :: !ActiveFor(t.opportunities, o, r)
  {
    forall o | Serves(t.opportunities, o, r) && !ActiveFor(t.opportunities, o, r)
      ensures !t.opportunities[o].status.Active?
    {
    }
  }

  lemma FinalNotApproved(t: Tables, t': Tables, e: Event, r: Id)
    requires Final(t, After(t', e), r)
    ensures !ApprovesNow(t', e, r)
  {
  }

  /** In a run of aligned calls a fulfilled request has no active opportunity, so only an approval can end it. */
  lemma FulfilledIsFinal(states: seq<Tables>, events: seq<Event>, i: nat, j: nat, r: Id)
    requires AlignedRun(states, events) && i <= j < |states|
    requires r in states[i].requests && states[i].requests[r].status.Fulfilled?
    requires forall n | i <= n < j :: !ApprovesNow(states[n], events[n], r)
    ensures Final(states[i], states[j], r)
  {
    hide IsRun, ApprovesNow;
    RunInv(states, events, i);
    RunCoherent(states, events, i);
    FinalNow(states[i], r);
    FinalWhileUnapproved(states, events, i, j, r);
  }

  lemma FinalNow(t: Tables, r: Id)
    requires Inv(t) && Coherent(t) && r in t.requests && t.requests[r].status.Fulfilled?
    ensures Final(t, t, r)
  {
    hide UniqueActive, Follows;
  }
}
