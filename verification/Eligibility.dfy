/** What the displayed eligibility and application state promise about applying. */
module Eligibility {
  import opened Domain
  import opened Text
  import opened Workflow
  import opened Invariants
  import opened Discovery
  import opened OpportunityPages
  import opened OpportunityListing

  /** Reading opportunity `o` tells the caller that they can apply. */
  ghost predicate Shown(t: Tables, o: Id, caller: Caller) {
    var d := GetOpportunity(t, Decimal(o), caller);
    d.Found? && d.response.canApply
  }

  lemma ShownMeans(t: Tables, o: Id, caller: Caller)
    requires Inv(t)
    ensures Shown(t, o, caller) <==> LiveOpportunity(t.opportunities, o) && Eligible(t, o, caller)
  {
    hide Inv, Eligible, Decimal, Load, ParseDecimal;
    if LiveOpportunity(t.opportunities, o) {
      ResponsePromises(t, o, caller);
      hide GetOpportunity;
    } else {
      DecimalIsTrimmed(o);
      DecimalRoundTrip(o);
    }
  }

  /** The display goes by the user's one id, and by the rows that the workflow looks at. */
  lemma ShownTo(t: Tables, o: Id, caller: Caller)
    requires Inv(t)
    ensures var u := CurrentUserId(caller);
      Shown(t, o, caller) <==>
      && IsCopilotApplicant(caller)
      && ActiveOpportunity(t.opportunities, o)
      && !(exists m :: MemberOf(t.members, m, t.opportunities[o].projectId.value, u))
      && (u == 0 || !exists a :: ApplicationOf(t.applications, a, o, u))
  {
    var u := CurrentUserId(caller);
    ShownMeans(t, o, caller);
    if LiveOpportunity(t.opportunities, o) {
      JoinsIff(t, t.opportunities[o].projectId.value, u);
      AppliedIff(t, o, u);
    }
    if IsCopilotApplicant(caller) {
      assert IdentifiedAs(caller, u);
    }
    hide Shown, Joins, Applied, Trim, ParseDecimal, AllDigits, MemberOf, ApplicationOf;
    hide Sequences, MembersUnique, ApplicationsUnique, StatusesAgree, RequestsServed;
  }

  /** A caller who is shown as eligible can apply. Either one new pending application by that user is stored and
      nothing else changes, or the user has id 0 and applied before, and then that application is returned and
      nothing changes. Afterwards the caller is shown as not eligible, except for id 0, whose applications are
      never looked up for the display. */
  lemma EligibilityIsSound(t: Tables, o: Id, caller: Caller, notes: string, now: int)
    requires Inv(t) && Shown(t, o, caller)
    ensures var u := CurrentUserId(caller);
      var out := ApplyToOpportunity(t, o, u, notes, now);
      && out.reply.Done? && IdentifiedAs(caller, u)
      && ((exists a :: ApplicationOf(t.applications, a, o, u)) ==>
            u == 0 && out.tables == t && ApplicationOf(t.applications, out.reply.id, o, u))
      && ((!exists a :: ApplicationOf(t.applications, a, o, u)) ==>
            out == Outcome(
              t.(applications := t.applications[t.applicationSeq := Application(o, u, notes, Pending, false, now, now)],
                 applicationSeq := t.applicationSeq + 1),
              Done(t.applicationSeq)))
      && t.applicationSeq !in t.applications
      && (Shown(out.tables, o, caller) <==> u == 0)
  {
    var u := CurrentUserId(caller);
    var out := ApplyToOpportunity(t, o, u, notes, now);
    assert IsCopilotApplicant(caller) ==> IdentifiedAs(caller, u);
    ApplyKeepsInv(t, o, u, notes, now);
    ShownTo(t, o, caller);
    AppliedAfterwards(t, o, u, notes, now);
    ShownTo(out.tables, o, caller);
    FreshApplicationId(t);
    hide Inv, Shown, CurrentUserId, IsCopilotApplicant, MemberOf, IdentifiedAs, ApplyToOpportunity, ApplicationOf;
  }

  lemma AppliedAfterwards(t: Tables, o: Id, u: nat, notes: string, now: int)
    requires ActiveOpportunity(t.opportunities, o)
    ensures var out := ApplyToOpportunity(t, o, u, notes, now);
      && out.reply.Done?
      && out.tables.opportunities == t.opportunities && out.tables.members == t.members
      && (exists a :: ApplicationOf(out.tables.applications, a, o, u))
      && ((exists a :: ApplicationOf(t.applications, a, o, u)) ==>
            out.tables == t && ApplicationOf(t.applications, out.reply.id, o, u))
      && ((!exists a :: ApplicationOf(t.applications, a, o, u)) ==>
            out == Outcome(
              t.(applications := t.applications[t.applicationSeq := Application(o, u, notes, Pending, false, now, now)],
                 applicationSeq := t.applicationSeq + 1),
              Done(t.applicationSeq)))
  {
    var t' := ApplyToOpportunity(t, o, u, notes, now).tables;
    if !exists a :: ApplicationOf(t.applications, a, o, u) {
      assert ApplicationOf(t'.applications, t.applicationSeq, o, u);
    }
  }

  lemma FreshApplicationId(t: Tables)
    requires Inv(t)
    ensures t.applicationSeq !in t.applications
  {
  }

  /** Applying again while the opportunity is active changes nothing and returns the same application. */
  lemma ApplyingTwice(t: Tables, o: Id, u: nat, notes: string, now: int, again: string, later: int)
    requires Inv(t) && ApplyToOpportunity(t, o, u, notes, now).reply.Done?
    ensures var first := ApplyToOpportunity(t, o, u, notes, now);
      ApplyToOpportunity(first.tables, o, u, again, later) == first
  {
    var first := ApplyToOpportunity(t, o, u, notes, now);
    ApplyKeepsInv(t, o, u, notes, now);
    assert ApplicationOf(first.tables.applications, first.reply.id, o, u);
  }

  // ----- the filter on the caller's own applications -----

  /** The same query, restricted to opportunities without an application of the caller. */
  function Unapplied(f: Filters): Filters {
    f.(applied := Some(false), applicationStatuses := [])
  }

  /** The same query, restricted to opportunities where the caller's application has a status. */
  function WithStatus(f: Filters, status: ApplicationStatus): Filters {
    f.(applied := None, applicationStatuses := [status])
  }

  predicate Unfiltered(f: Filters) {
    f.currentUserId != 0 && f.applied.None? && f.applicationStatuses == []
  }

  ghost predicate OthersMatch(t: Tables, f: Filters, o: Id)
    requires o in t.opportunities
  {
    RowMatches(t, f, o) && TextMatches(t, f, o) && DateMatches(t, f, o)
  }

  lemma RestrictedMatches(t: Tables, f: Filters, o: Id, status: ApplicationStatus)
    requires Unfiltered(f) && o in t.opportunities
    ensures o in Matching(t, f) <==> OthersMatch(t, f, o)
    ensures o in Matching(t, Unapplied(f)) <==>
      OthersMatch(t, f, o) && !exists a :: ApplicationOf(t.applications, a, o, f.currentUserId)
    ensures o in Matching(t, WithStatus(f, status)) <==>
      OthersMatch(t, f, o)
      && exists a :: ApplicationOf(t.applications, a, o, f.currentUserId) && t.applications[a].status == status
  {
    var u := f.currentUserId;
    assert TextMatches(t, Unapplied(f), o) == TextMatches(t, f, o) == TextMatches(t, WithStatus(f, status), o);
    assert DateMatches(t, Unapplied(f), o) == DateMatches(t, f, o) == DateMatches(t, WithStatus(f, status), o);
    hide TextMatches, DateMatches, RowMatches;
    assert ApplicationExists(t, o, u, []) <==> exists a :: ApplicationOf(t.applications, a, o, u);
    assert ApplicationExists(t, o, u, [status])
      <==> exists a :: ApplicationOf(t.applications, a, o, u) && t.applications[a].status == status;
  }

  /** Whatever else is filtered, `applied=false` and the four application statuses split the selection into
      five disjoint parts, so the five totals add up to the total without that filter. */
  lemma ApplicationFilterPartitions(t: Tables, f: Filters)
    requires Inv(t) && Unfiltered(f)
    ensures var none := Matching(t, Unapplied(f));
      var pending, invited := Matching(t, WithStatus(f, Pending)), Matching(t, WithStatus(f, Invited));
      var accepted := Matching(t, WithStatus(f, Accepted));
      var canceled := Matching(t, WithStatus(f, ApplicationStatus.Canceled));
      && none !! pending && none !! invited && none !! accepted && none !! canceled
      && pending !! invited && pending !! accepted && pending !! canceled
      && invited !! accepted && invited !! canceled && accepted !! canceled
      && none + pending + invited + accepted + canceled == Matching(t, f)
      && |none| + |pending| + |invited| + |accepted| + |canceled| == |Matching(t, f)|
  {
    hide Matching, Inv, Unapplied, WithStatus, Unfiltered;
    var none := Matching(t, Unapplied(f));
    var pending, invited := Matching(t, WithStatus(f, Pending)), Matching(t, WithStatus(f, Invited));
    var accepted := Matching(t, WithStatus(f, Accepted));
    var canceled := Matching(t, WithStatus(f, ApplicationStatus.Canceled));
    forall o
      ensures o in Matching(t, f) <==> o in none || o in pending || o in invited || o in accepted || o in canceled
      ensures OneOf(o in none, o in pending, o in invited, o in accepted, o in canceled)
    {
      PartOf(t, f, o);
    }
    FiveParts(Matching(t, f), none, pending, invited, accepted, canceled);
  }

  lemma FiveParts(whole: set<Id>, a: set<Id>, b: set<Id>, c: set<Id>, d: set<Id>, e: set<Id>)
    requires forall o :: o in whole <==> o in a || o in b || o in c || o in d || o in e
    requires forall o :: OneOf(o in a, o in b, o in c, o in d, o in e)
    ensures a !! b && a !! c && a !! d && a !! e && b !! c && b !! d && b !! e && c !! d && c !! e && d !! e
    ensures a + b + c + d + e == whole
    ensures |a| + |b| + |c| + |d| + |e| == |whole|
  {
    assert a + b + c + d + e == whole;
    assert (a + b) !! c && (a + b + c) !! d && (a + b + c + d) !! e;
  }

  /** At most one of five. */
  predicate OneOf(a: bool, b: bool, c: bool, d: bool, e: bool) {
    && !(a && (b || c || d || e)) && !(b && (c || d || e)) && !(c && (d || e)) && !(d && e)
  }

  lemma PartOf(t: Tables, f: Filters, o: Id)
    requires Inv(t) && Unfiltered(f)
    ensures var none := o in Matching(t, Unapplied(f));
      var pending, invited := o in Matching(t, WithStatus(f, Pending)), o in Matching(t, WithStatus(f, Invited));
      var accepted := o in Matching(t, WithStatus(f, Accepted));
      var canceled := o in Matching(t, WithStatus(f, ApplicationStatus.Canceled));
      && (o in Matching(t, f) <==> none || pending || invited || accepted || canceled)
      && OneOf(none, pending, invited, accepted, canceled)
  {
    if o in t.opportunities {
      forall status { RestrictedMatches(t, f, o, status); }
      hide Matching, OthersMatch;
      hide Sequences, Linked, MembersUnique, StatusesAgree, RequestsServed;
      assert ApplicationsUnique(t.applications);
    }
  }
}
