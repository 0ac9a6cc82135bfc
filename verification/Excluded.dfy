/** Runs of calls that the controllers admit and that break what the code checks for. */
module Excluded {
  import opened Domain
  import opened Text
  import opened Workflow
  import opened Invariants
  import opened Runs
  import opened Scopes
  import opened Reopening
  import opened OpportunityListing
  import opened Eligibility

  /** Two projects, the given copilot rows, and nothing deleted. */
  function State(requests: Requests, opps: Opportunities, r: Id, o: Id): Tables {
    Tables(map[1 := Project("one", false), 2 := Project("two", false)], requests, opps, map[], map[], r, o, 1, 1)
  }

  function At(call: Call): Event {
    Event(call, 0)
  }

  function PayloadOf(k: OpportunityType): Payload {
    Payload(0, k, map[])
  }

  function Row(p: Id, k: Option<OpportunityType>): Request {
    Request(Some(p), Approved, RequestData(k, Some(p), map[]), false, 0, 0)
  }

  function Offer(p: Id, r: Id, k: OpportunityType): Opportunity {
    Opportunity(Some(p), Some(r), Active, k, false, 0, 0)
  }

  lemma Creates(t: Tables, p: Id, k: OpportunityType)
    requires LiveProject(t.projects, p)
    requires !HasDuplicateRequest(t.requests, p, k, 0) && !HasActiveOfType(t.opportunities, p, k)
    ensures After(t, At(Create(p, PayloadOf(k)))) ==
      t.(requests := t.requests[t.requestSeq := Row(p, Some(k))], requestSeq := t.requestSeq + 1,
         opportunities := t.opportunities[t.opportunitySeq := Offer(p, t.requestSeq, k)],
         opportunitySeq := t.opportunitySeq + 1)
  {
    ParsesItsName(k);
  }

  lemma Approves(t: Tables, p: Id, r: Id, override: Option<string>, k: OpportunityType)
    requires LiveProject(t.projects, p) && LiveRequest(t.requests, r)
    requires RequestedType(override, t.requests[r].data) == Some(k) && !HasActiveOfType(t.opportunities, p, k)
    ensures After(t, At(Approve(p, r, override))) ==
      t.(requests := t.requests[r := t.requests[r].(status := Approved, updatedAt := 0)],
         opportunities := t.opportunities[t.opportunitySeq := Offer(p, r, k)],
         opportunitySeq := t.opportunitySeq + 1)
  {
  }

  lemma Updates(t: Tables, r: Id, kind: PatchedType)
    requires LiveRequest(t.requests, r) && Open(t.requests[r].status)
    requires !UpdateConflicts(t.requests, r, Patch(kind, map[]))
    ensures After(t, At(Update(r, Patch(kind, map[])))) ==
      t.(requests := t.requests[r := t.requests[r].(
           data := Merged(t.requests[r].data, Patch(kind, map[]), t.requests[r].projectId), updatedAt := 0)],
         opportunities := Retyped(t.opportunities, r, kind, 0))
  {
  }

  lemma Applies(t: Tables, o: Id, u: nat, notes: string)
    requires ActiveOpportunity(t.opportunities, o) && !exists a :: ApplicationOf(t.applications, a, o, u)
    ensures After(t, At(Apply(o, u, notes))) ==
      t.(applications := t.applications[t.applicationSeq := Application(o, u, notes, Pending, false, 0, 0)],
         applicationSeq := t.applicationSeq + 1)
  {
  }

  lemma Assigns(t: Tables, o: Id, a: Id)
    requires ActiveOpportunity(t.opportunities, o) && t.opportunities[o].projectId.Some?
    requires t.opportunities[o].projectId.value != 0
    requires ApplicationTo(t.applications, a, o) && !t.applications[a].status.Accepted?
    requires !exists m :: MemberOf(t.members, m, t.opportunities[o].projectId.value, t.applications[a].userId)
    ensures After(t, At(Assign(o, a))) ==
      t.(applications := Settled(t.applications, o, Some(a), 0),
         opportunities := t.opportunities[o := t.opportunities[o].(status := Completed, updatedAt := 0)],
         requests := Fulfil(t.requests, t.opportunities[o].requestId, 0),
         members := t.members[t.memberSeq :=
           Member(t.opportunities[o].projectId.value, t.applications[a].userId, Copilot, false)],
         memberSeq := t.memberSeq + 1)
  {
  }

  lemma Cancels(t: Tables, o: Id)
    requires LiveOpportunity(t.opportunities, o)
    ensures After(t, At(Cancel(o))) ==
      t.(applications := Settled(t.applications, o, None, 0),
         opportunities := t.opportunities[o :=
           t.opportunities[o].(status := OpportunityStatus.Canceled, updatedAt := 0)])
  {
  }

  lemma Starts()
    ensures IsRun([State(map[], map[], 1, 1)], [])
  {
  }

  lemma Extend(states: seq<Tables>, events: seq<Event>, c: Call, t: Tables)
      returns (states': seq<Tables>, events': seq<Event>)
    requires IsRun(states, events) && After(states[|events|], At(c)) == t
    ensures IsRun(states', events') && |states| == |events| + 1
    ensures states' == states + [t] && events' == events + [At(c)]
  {
    hide After;
    states', events' := states + [t], events + [At(c)];
  }

  /** One dev request of project 1, created and open. */
  function Created(): Tables {
    State(map[1 := Row(1, Some(Dev))], map[1 := Offer(1, 1, Dev)], 2, 2)
  }

  lemma CreatedRun() returns (states: seq<Tables>, events: seq<Event>)
    ensures IsRun(states, events) && |states| == 2 && |events| == 1
    ensures events[0] == At(Create(1, PayloadOf(Dev))) && Aligned(states[0], events[0].call)
    ensures states[1] == Created()
  {
    hide After, IsRun;
    var t0 := State(map[], map[], 1, 1);
    Starts();
    Creates(t0, 1, Dev);
    states, events := Extend([t0], [], Create(1, PayloadOf(Dev)), Created());
  }

  /** A second request of project 1, of type qa. */
  function BothCreated(): Tables {
    State(map[1 := Row(1, Some(Dev)), 2 := Row(1, Some(Qa))], map[1 := Offer(1, 1, Dev), 2 := Offer(1, 2, Qa)], 3, 3)
  }

  /** The first request after its type was nulled. */
  function Nulled(): Tables {
    BothCreated().(requests := map[1 := Row(1, None), 2 := Row(1, Some(Qa))])
  }

  function NulledThenRetyped(): Tables {
    State(map[1 := Row(1, None), 2 := Row(1, Some(Dev))], map[1 := Offer(1, 1, Dev), 2 := Offer(1, 2, Dev)], 3, 3)
  }

  lemma NullPatchSteps()
    ensures After(Created(), At(Create(1, PayloadOf(Qa)))) == BothCreated()
    ensures After(BothCreated(), At(Update(1, Patch(Null, map[])))) == Nulled()
    ensures After(Nulled(), At(Update(2, Patch(Value(Dev), map[])))) == NulledThenRetyped()
  {
    hide After;
    Creates(Created(), 1, Qa);
    Updates(BothCreated(), 1, Null);
    assert Retyped(BothCreated().opportunities, 1, Null, 0) == Nulled().opportunities;
    Updates(Nulled(), 2, Value(Dev));
  }

  /** Nulling a type hides the request from the duplicate check while its opportunity stays active:
      afterwards another request can be given the type. */
  lemma NullPatchBreaksUniqueness() returns (states: seq<Tables>, events: seq<Event>)
    ensures IsRun(states, events) && |events| == 4
    ensures forall i | 0 <= i < 4 && i != 2 :: Aligned(states[i], events[i].call)
    ensures events[2].call == Update(1, Patch(Null, map[]))
    ensures !UniqueActive(states[4].opportunities)
  {
    hide After, IsRun, Created, BothCreated, Nulled;
    NullPatchSteps();
    states, events := CreatedRun();
    states, events := Extend(states, events, Create(1, PayloadOf(Qa)), BothCreated());
    states, events := Extend(states, events, Update(1, Patch(Null, map[])), Nulled());
    states, events := Extend(states, events, Update(2, Patch(Value(Dev), map[])), NulledThenRetyped());
    assert Clash(NulledThenRetyped().opportunities, 1, 2);
  }

  function TwiceApproved(): Tables {
    Created().(opportunities := map[1 := Offer(1, 1, Dev), 2 := Offer(1, 1, Qa)], opportunitySeq := 3)
  }

  function Merging(): Tables {
    State(map[1 := Row(1, Some(Qa))], map[1 := Offer(1, 1, Qa), 2 := Offer(1, 1, Qa)], 2, 3)
  }

  lemma OverrideSteps()
    ensures After(Created(), At(Approve(1, 1, Some("qa")))) == TwiceApproved()
    ensures After(TwiceApproved(), At(Update(1, Patch(Value(Qa), map[])))) == Merging()
  {
    hide After;
    ParsesItsName(Qa);
    Approves(Created(), 1, 1, Some("qa"), Qa);
    Updates(TwiceApproved(), 1, Value(Qa));
  }

  /** An override lets one request have active opportunities of two types; one update then merges them. */
  lemma OverrideBreaksUniqueness() returns (states: seq<Tables>, events: seq<Event>)
    ensures IsRun(states, events) && |events| == 3
    ensures forall i | 0 <= i < 3 && i != 1 :: Aligned(states[i], events[i].call)
    ensures events[1].call == Approve(1, 1, Some("qa"))
    ensures !UniqueActive(states[3].opportunities)
  {
    hide After, IsRun, Created, TwiceApproved;
    OverrideSteps();
    states, events := CreatedRun();
    states, events := Extend(states, events, Approve(1, 1, Some("qa")), TwiceApproved());
    states, events := Extend(states, events, Update(1, Patch(Value(Qa), map[])), Merging());
    assert Clash(Merging().opportunities, 1, 2);
  }

  function ElsewhereApproved(): Tables {
    Created().(opportunities := map[1 := Offer(1, 1, Dev), 2 := Offer(2, 1, Dev)], opportunitySeq := 3)
  }

  function SecondProject(k: OpportunityType): Tables {
    State(map[1 := Row(1, Some(Dev)), 2 := Row(2, Some(k))],
          map[1 := Offer(1, 1, Dev), 2 := Offer(2, 1, Dev), 3 := Offer(2, 2, k)], 3, 4)
  }

  lemma OtherProjectSteps()
    ensures After(Created(), At(Approve(2, 1, None))) == ElsewhereApproved()
    ensures After(ElsewhereApproved(), At(Create(2, PayloadOf(Qa)))) == SecondProject(Qa)
    ensures After(SecondProject(Qa), At(Update(2, Patch(Value(Dev), map[])))) == SecondProject(Dev)
  {
    hide After;
    ParsesItsName(Dev);
    Approves(Created(), 2, 1, None, Dev);
    Creates(ElsewhereApproved(), 2, Qa);
    Updates(SecondProject(Qa), 2, Value(Dev));
  }

  /** Approving under another project's path puts an opportunity where the duplicate check does not look. */
  lemma OtherProjectBreaksUniqueness() returns (states: seq<Tables>, events: seq<Event>)
    ensures IsRun(states, events) && |events| == 4
    ensures forall i | 0 <= i < 4 && i != 1 :: Aligned(states[i], events[i].call)
    ensures events[1].call == Approve(2, 1, None)
    ensures !UniqueActive(states[4].opportunities)
  {
    hide After, IsRun, Created, ElsewhereApproved;
    OtherProjectSteps();
    states, events := CreatedRun();
    states, events := Extend(states, events, Approve(2, 1, None), ElsewhereApproved());
    states, events := Extend(states, events, Create(2, PayloadOf(Qa)), SecondProject(Qa));
    states, events := Extend(states, events, Update(2, Patch(Value(Dev), map[])), SecondProject(Dev));
    assert Clash(SecondProject(Dev).opportunities, 2, 3);
  }

  function Applicant(): Application {
    Application(1, 7, "notes", Pending, false, 0, 0)
  }

  function Applied(): Tables {
    Created().(applications := map[1 := Applicant()], applicationSeq := 2)
  }

  /** The first request is fulfilled by user 7. */
  function Staffing(requests: Requests, opps: Opportunities, r: Id, o: Id): Tables {
    State(requests, opps, r, o).(
      applications := map[1 := Applicant().(status := Accepted)], applicationSeq := 2,
      members := map[1 := Member(1, 7, Copilot, false)], memberSeq := 2)
  }

  function Served(): Tables {
    Staffing(map[1 := Row(1, Some(Dev)).(status := Fulfilled)], map[1 := Offer(1, 1, Dev).(status := Completed)], 2, 2)
  }

  function Again(status: OpportunityStatus): Tables {
    Staffing(map[1 := Row(1, Some(Dev)).(status := Fulfilled), 2 := Row(1, Some(Dev))],
             map[1 := Offer(1, 1, Dev).(status := Completed), 2 := Offer(1, 2, Dev).(status := status)], 3, 3)
  }

  function Reopened(): Tables {
    Staffing(map[1 := Row(1, Some(Dev)), 2 := Row(1, Some(Dev))],
             map[1 := Offer(1, 1, Dev).(status := Completed),
                 2 := Offer(1, 2, Dev).(status := OpportunityStatus.Canceled),
                 3 := Offer(1, 1, Dev)], 3, 4)
  }

  lemma ServingSteps()
    ensures After(Created(), At(Apply(1, 7, "notes"))) == Applied()
    ensures After(Applied(), At(Assign(1, 1))) == Served()
  {
    hide After;
    Applies(Created(), 1, 7, "notes");
    Assigns(Applied(), 1, 1);
    assert Settled(Applied().applications, 1, Some(1), 0) == Served().applications;
  }

  lemma ReopeningSteps()
    ensures After(Served(), At(Create(1, PayloadOf(Dev)))) == Again(Active)
    ensures After(Again(Active), At(Cancel(2))) == Again(OpportunityStatus.Canceled)
    ensures After(Again(OpportunityStatus.Canceled), At(Approve(1, 1, None))) == Reopened()
  {
    hide After;
    Creates(Served(), 1, Dev);
    Cancels(Again(Active), 2);
    assert Settled(Again(Active).applications, 2, None, 0) == Again(Active).applications;
    ParsesItsName(Dev);
    Approves(Again(OpportunityStatus.Canceled), 1, 1, None, Dev);
  }

  /** Approving a fulfilled request again reopens it beside an open request of the same type, although
      createRequest refuses exactly that; its completed opportunity is left with a request that is not fulfilled. */
  lemma ReapprovalBreaksOpenDistinct() returns (states: seq<Tables>, events: seq<Event>)
    ensures IsRun(states, events) && |events| == 6
    ensures forall i | 0 <= i < 6 :: Aligned(states[i], events[i].call)
    ensures forall i | 0 <= i < 5 :: !events[i].call.Approve?
    ensures events[5].call == Approve(1, 1, None)
    ensures !OpenDistinct(states[6].requests)
    ensures !CompletedFulfilled(states[6].opportunities, states[6].requests)
  {
    hide After, IsRun, Created, Applied, Served;
    ServingSteps();
    ReopeningSteps();
    states, events := CreatedRun();
    states, events := Extend(states, events, Apply(1, 7, "notes"), Applied());
    states, events := Extend(states, events, Assign(1, 1), Served());
    states, events := Extend(states, events, Create(1, PayloadOf(Dev)), Again(Active));
    states, events := Extend(states, events, Cancel(2), Again(OpportunityStatus.Canceled));
    ParsesItsName(Dev);
    states, events := Extend(states, events, Approve(1, 1, None), Reopened());
    assert SameOpenType(Reopened().requests, 1, 2);
    assert 1 in Reopened().opportunities && Reopened().opportunities[1].status.Completed?;
  }

  /** A copilot whose user id is 0. */
  const ZERO: Caller := Some(User("0", false, {"copilot"}))

  lemma ZeroIsACopilot()
    ensures CurrentUserId(ZERO) == 0 && IsCopilotApplicant(ZERO)
  {
    TrimOfTrimmed("0");
  }

  /** The created request's opportunity with an application of user 0. */
  function ZeroApplied(): Tables {
    Created().(applications := map[1 := Application(1, 0, "notes", Pending, false, 0, 0)], applicationSeq := 2)
  }

  lemma ZeroSteps()
    requires Inv(Created())
    ensures After(Created(), At(Apply(1, 0, "notes"))) == ZeroApplied()
    ensures After(ZeroApplied(), At(Apply(1, 0, "notes"))) == ZeroApplied()
  {
    Applies(Created(), 1, 0, "notes");
    ApplyingTwice(Created(), 1, 0, "notes", 0, "notes", 0);
    hide Inv, ApplyToOpportunity, Created;
  }

  lemma ZeroShown()
    requires Inv(Created())
    ensures Shown(Created(), 1, ZERO)
  {
    ZeroIsACopilot();
    var t := Created();
    assert ActiveOpportunity(t.opportunities, 1) && t.opportunities[1].projectId == Some(1) && t.members == map[];
    ShownTo(t, 1, ZERO);
    hide Created, Inv, Shown, CurrentUserId, IsCopilotApplicant, ApplicationOf;
  }

  lemma ZeroShownAgain()
    requires Inv(Created()) && Shown(Created(), 1, ZERO)
    ensures Shown(After(Created(), At(Apply(1, 0, "notes"))), 1, ZERO)
  {
    ZeroIsACopilot();
    hide Inv, Shown, CurrentUserId, IsCopilotApplicant, ApplyToOpportunity, Created, ApplicationOf, IdentifiedAs;
    EligibilityIsSound(Created(), 1, ZERO, "notes", 0);
  }

  /** A copilot with user id 0 applies and is still shown as able to apply, although the application is stored;
      applying again returns it. */
  lemma ZeroStaysEligible() returns (states: seq<Tables>, events: seq<Event>)
    ensures IsRun(states, events) && |events| == 3
    ensures events[1].call == events[2].call == Apply(1, CurrentUserId(ZERO), "notes")
    ensures forall i | 1 <= i < 4 :: Shown(states[i], 1, ZERO)
    ensures !(exists a :: ApplicationOf(states[1].applications, a, 1, 0))
    ensures ApplicationOf(states[2].applications, 1, 1, 0) && states[3] == states[2]
  {
    ZeroIsACopilot();
    hide After, IsRun, Shown, Created, CurrentUserId, Inv;
    states, events := CreatedRun();
    RunInv(states, events, 1);
    ZeroSteps();
    ZeroShown();
    ZeroShownAgain();
    Nobody();
    states, events := Extend(states, events, Apply(1, 0, "notes"), ZeroApplied());
    states, events := Extend(states, events, Apply(1, 0, "notes"), ZeroApplied());
  }

  lemma Nobody()
    ensures Created().applications == map[]
  {
  }
}
