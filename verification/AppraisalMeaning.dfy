/**
 The appraisal on the fields of the events alone: a reference written from the documented
 rules, next to the code's own notions of candidate, binding and disagreement, and what a
 status promises about the actions that ran.
 */
module AppraisalMeaning {
  import opened Prelude
  import opened Events
  import opened Appraisal

  /** The decision recorded last for `id`. */
  ghost predicate Decided(events: seq<Event>, id: string, decision: Decision) {
    exists i :: 0 <= i < |events| && DecidesLast(events, i) && events[i].id == id && events[i].body.decision == decision
  }

  ghost predicate DecidesLast(events: seq<Event>, i: nat)
    requires i < |events|
  {
    events[i].body.PolicyDecision? && forall j :: i < j < |events| && events[j].body.PolicyDecision? ==> events[j].id != events[i].id
  }

  /** An approval that repeats its request, member by member, and was given inside its window. */
  predicate Grants(request: Event, approval: Event) {
    && approval.body.Approval? && approval.body.kind == Approved
    && request.body == approval.body.(kind := Requested)
    && approval.body.approvalPolicy.Some? && approval.body.chainId.Some? && approval.body.chainVersion.Some? && approval.body.expiresAt.Some?
    && approval.body.requestedAt <= approval.time <= approval.body.expiresAt.value
  }

  /** An approval given for what the action names: an approval id or else a policy event. */
  predicate Concerns(approval: Event, action: Event) {
    && action.body.Action? && approval.body.Approval? && approval.body.kind == Approved
    && match action.body.actionApproval
       case Some(id) => approval.body.approvalId == id
       case None => approval.body.approvalPolicy == action.body.actionPolicy
  }

  /** The very action that was approved: same digest, no other policy event, not before the approval. */
  predicate IsApproved(approval: Event, action: Event)
    requires action.body.Action? && approval.body.Approval?
  {
    && action.body.actionDigest == approval.body.approvedDigest
    && (action.body.actionPolicy.None? || approval.body.approvalPolicy.None? || action.body.actionPolicy == approval.body.approvalPolicy)
    && approval.time <= action.time
  }

  /** The action ran, and names an approval or an event whose decision was a challenge. */
  ghost predicate NeedsApproval(events: seq<Event>, action: Event) {
    && action.body.Action? && action.body.outcome != Outcome.Denied
    && (action.body.actionApproval.Some? || (action.body.actionPolicy.Some? && Decided(events, action.body.actionPolicy.value, Challenge)))
  }

  ghost predicate Licensed(events: seq<Event>, action: Event) {
    exists request, approval ::
      request in events && approval in events && Grants(request, approval) && Concerns(approval, action) && IsApproved(approval, action)
  }

  /** Something other than the approved action ran. */
  ghost predicate Strayed(events: seq<Event>, action: Event) {
    && NeedsApproval(events, action) && !Licensed(events, action)
    && exists approval :: approval in events && Concerns(approval, action) && !IsApproved(approval, action)
  }

  ghost predicate Answered(events: seq<Event>, id: string) {
    exists request, approval :: request in events && approval in events && Grants(request, approval) && approval.body.approvalPolicy == Some(id)
  }

  ghost predicate Carries(events: seq<Event>, kind: ApprovalKind) {
    exists e :: e in events && e.body.Approval? && e.body.kind == kind
  }

  /** `contraindicated`, as documented. */
  ghost predicate Condemned(events: seq<Event>) {
    || (exists id :: Decided(events, id, Deny) || Decided(events, id, DecisionError))
    || Carries(events, Rejected) || Carries(events, Expired) || Carries(events, ExecutionFailed)
    || exists action :: action in events && Strayed(events, action)
  }

  /** `warning`, unless condemned. */
  ghost predicate Doubtful(events: seq<Event>) {
    || (exists id :: Decided(events, id, Challenge) && !Answered(events, id))
    || Carries(events, Withdrawn)
    || exists action :: action in events && NeedsApproval(events, action) && !Licensed(events, action)
  }

  ghost function Documented(events: seq<Event>): Status {
    if Condemned(events) then Contraindicated
    else if Doubtful(events) then Warning
    else if exists e :: e in events && (e.body.PolicyDecision? || e.body.Approval?) then Affirming
    else NoStatus
  }

  // ---- the code's notions are these ---------------------------------------------------------

  lemma DecidedIsCurrent(events: seq<Event>, id: string, decision: Decision)
    ensures Decided(events, id, decision) <==> HasDecision(Current(events), id, decision)
  {
    forall i | 0 <= i < |events| && events[i].body.PolicyDecision? ensures DecidesLast(events, i) <==> !Replaced(events, i) {
    }
    if Decided(events, id, decision) {
      var i :| 0 <= i < |events| && DecidesLast(events, i) && events[i].id == id && events[i].body.decision == decision;
      assert events[i] in Current(events);
    }
    if HasDecision(Current(events), id, decision) {
      var e :| e in Current(events) && e.IsDecision() && e.id == id && e.body.decision == decision;
      var i :| 0 <= i < |events| && !Replaced(events, i) && events[i] == e;
      assert DecidesLast(events, i);
    }
  }

  lemma GrantsIsResolves(request: Event, approval: Event)
    ensures Grants(request, approval) <==> Resolves(request, approval)
  {
  }

  lemma ConcernsIsCandidate(approval: Event, action: Event)
    ensures Concerns(approval, action) <==> Candidate(action, approval)
    ensures Concerns(approval, action) ==> (IsApproved(approval, action) <==> !Disagrees(action, approval))
  {
  }

  lemma NeedsApprovalIsGated(events: seq<Event>, action: Event)
    ensures NeedsApproval(events, action) <==> Gated(Current(events), action)
  {
    if action.body.Action? && action.body.actionPolicy.Some? {
      DecidedIsCurrent(events, action.body.actionPolicy.value, Challenge);
    }
  }

  lemma LicensedIsSatisfied(events: seq<Event>, action: Event)
    ensures Licensed(events, action) <==> Satisfied(Current(events), action)
  {
    if Licensed(events, action) {
      var request, approval :|
        request in events && approval in events && Grants(request, approval) && Concerns(approval, action) && IsApproved(approval, action);
      GrantsIsResolves(request, approval);
      ConcernsIsCandidate(approval, action);
      CurrentOthers(events, request);
      CurrentOthers(events, approval);
      assert IsBound(Current(events), approval);
    }
    if Satisfied(Current(events), action) {
      var approval :| approval in Current(events) && Candidate(action, approval) && !Disagrees(action, approval) && IsBound(Current(events), approval);
      var request :| request in Current(events) && Resolves(request, approval);
      GrantsIsResolves(request, approval);
      ConcernsIsCandidate(approval, action);
      CurrentOthers(events, request);
      CurrentOthers(events, approval);
    }
  }

  lemma StrayedIsContradicted(events: seq<Event>, action: Event)
    ensures Strayed(events, action) <==>
      Gated(Current(events), action) && !Satisfied(Current(events), action) && HasContradiction(Current(events), action)
  {
    NeedsApprovalIsGated(events, action);
    LicensedIsSatisfied(events, action);
    forall approval
      ensures approval in events && Concerns(approval, action) && !IsApproved(approval, action) <==>
              approval in Current(events) && Candidate(action, approval) && Disagrees(action, approval)
    {
      ConcernsIsCandidate(approval, action);
      CurrentOthers(events, approval);
    }
  }

  lemma AnsweredIsMet(events: seq<Event>, id: string)
    ensures Answered(events, id) <==> ChallengeMet(Current(events), id)
  {
    if Answered(events, id) {
      var request, approval :|
        request in events && approval in events && Grants(request, approval) && approval.body.approvalPolicy == Some(id);
      GrantsIsResolves(request, approval);
      CurrentOthers(events, request);
      CurrentOthers(events, approval);
      assert IsBound(Current(events), approval);
    }
    if ChallengeMet(Current(events), id) {
      var approval :| approval in Current(events) && IsBound(Current(events), approval) && approval.body.approvalPolicy == Some(id);
      var request :| request in Current(events) && Resolves(request, approval);
      GrantsIsResolves(request, approval);
      CurrentOthers(events, request);
      CurrentOthers(events, approval);
    }
  }

  lemma CondemnedIs(events: seq<Event>)
    ensures Condemned(events) <==> Refused(Current(events)) || ApprovalFailed(Current(events)) || ActionContradicted(Current(events))
  {
    var evs := Current(events);
    RefusedIs(events);
    forall e: Event ensures e.body.Approval? ==> (e in events <==> e in evs) {
      CurrentOthers(events, e);
    }
    forall action ensures action in events && Strayed(events, action) <==>
                          action in evs && Gated(evs, action) && !Satisfied(evs, action) && HasContradiction(evs, action) {
      StrayedIsContradicted(events, action);
      CurrentOthers(events, action);
    }
  }

  lemma RefusedIs(events: seq<Event>)
    ensures (exists id :: Decided(events, id, Deny) || Decided(events, id, DecisionError)) <==> Refused(Current(events))
  {
    if id :| Decided(events, id, Deny) || Decided(events, id, DecisionError) {
      DecidedIsCurrent(events, id, Deny);
      DecidedIsCurrent(events, id, DecisionError);
    }
    if Refused(Current(events)) {
      var e :| e in Current(events) && e.IsDecision() && Refusal(e.body.decision);
      assert HasDecision(Current(events), e.id, e.body.decision);
      DecidedIsCurrent(events, e.id, e.body.decision);
    }
  }

  lemma DoubtfulIs(events: seq<Event>)
    ensures Doubtful(events) <==> OpenChallenge(Current(events)) || ApprovalWithdrawn(Current(events)) || ActionUnsatisfied(Current(events))
  {
    var evs := Current(events);
    ChallengesAre(events);
    forall e: Event ensures e.body.Approval? ==> (e in events <==> e in evs) {
      CurrentOthers(events, e);
    }
    forall action ensures action in events && NeedsApproval(events, action) && !Licensed(events, action) <==>
                          action in evs && Gated(evs, action) && !Satisfied(evs, action) {
      NeedsApprovalIsGated(events, action);
      LicensedIsSatisfied(events, action);
      CurrentOthers(events, action);
    }
  }

  lemma ChallengesAre(events: seq<Event>)
    ensures (exists id :: Decided(events, id, Challenge) && !Answered(events, id)) <==> OpenChallenge(Current(events))
  {
    if id :| Decided(events, id, Challenge) && !Answered(events, id) {
      DecidedIsCurrent(events, id, Challenge);
      AnsweredIsMet(events, id);
    }
    if OpenChallenge(Current(events)) {
      var d :| d in Current(events) && d.IsDecision() && d.body.decision == Challenge && !ChallengeMet(Current(events), d.id);
      assert HasDecision(Current(events), d.id, Challenge);
      DecidedIsCurrent(events, d.id, Challenge);
      AnsweredIsMet(events, d.id);
    }
  }

  lemma GovernedIs(events: seq<Event>)
    ensures Governed(Current(events)) <==> exists e :: e in events && (e.body.PolicyDecision? || e.body.Approval?)
  {
    if e :| e in events && (e.body.PolicyDecision? || e.body.Approval?) {
      CurrentOthers(events, e);
      if e.IsDecision() {
        DecidedInDictionary(events, e.id);
        DecisionsMean(events, e.id, Decisions(events)[e.id]);
      }
    }
    if Governed(Current(events)) {
      var e :| e in Current(events) && (e.IsDecision() || e.IsApproval());
      CurrentOthers(events, e);
    }
  }

  /** What `_appraisal` computes is the documented status, with the last decision of each id taken for all of them. */
  lemma AppraisalIsDocumented(events: seq<Event>)
    ensures Verdict(Current(events)) == Documented(events)
  {
    CondemnedIs(events);
    DoubtfulIs(events);
    GovernedIs(events);
  }

  // ---- what a status promises ---------------------------------------------------------------

  /**
   In an affirmed run every action that ran and names an approval has the digest of an approval
   with that id, that repeats its request, was given in its window and no later than the action,
   and names no other policy event.
   */
  lemma AffirmedActionWasApproved(events: seq<Event>, action: Event, id: string)
    requires Verdict(Current(events)) == Affirming
    requires action in events && action.body.Action? && action.body.outcome != Outcome.Denied && action.body.actionApproval == Some(id)
    ensures exists request, approval ::
      && request in events && approval in events
      && approval.body.Approval? && approval.body.kind == Approved && request.body == approval.body.(kind := Requested)
      && approval.body.approvalId == id && approval.body.approvedDigest == action.body.actionDigest
      && (action.body.actionPolicy.Some? ==> approval.body.approvalPolicy == action.body.actionPolicy)
      && approval.body.expiresAt.Some? && approval.body.requestedAt <= approval.time <= approval.body.expiresAt.value
      && approval.time <= action.time
  {
    AppraisalIsDocumented(events);
    assert NeedsApproval(events, action) && Licensed(events, action);
  }

  /** The same for actions that name only a policy event whose decision was a challenge. */
  lemma AffirmedChallengeWasApproved(events: seq<Event>, action: Event, id: string)
    requires Verdict(Current(events)) == Affirming
    requires action in events && action.body.Action? && action.body.outcome != Outcome.Denied
    requires action.body.actionApproval == None && action.body.actionPolicy == Some(id) && Decided(events, id, Challenge)
    ensures exists request, approval ::
      && request in events && approval in events
      && approval.body.Approval? && approval.body.kind == Approved && request.body == approval.body.(kind := Requested)
      && approval.body.approvalPolicy == Some(id) && approval.body.approvedDigest == action.body.actionDigest
      && approval.body.expiresAt.Some? && approval.body.requestedAt <= approval.time <= approval.body.expiresAt.value
      && approval.time <= action.time
  {
    AppraisalIsDocumented(events);
    assert NeedsApproval(events, action) && Licensed(events, action);
  }

  /**
   An action ran under an approval id that was given, but every approval with that id is for
   another digest or policy event, or was given after the action.
   */
  lemma WrongApprovalCondemns(events: seq<Event>, action: Event, id: string)
    requires action in events && action.body.Action? && action.body.outcome != Outcome.Denied && action.body.actionApproval == Some(id)
    requires exists p :: p in events && p.body.Approval? && p.body.kind == Approved && p.body.approvalId == id
    requires forall p :: p in events && p.body.Approval? && p.body.kind == Approved && p.body.approvalId == id ==>
      || p.body.approvedDigest != action.body.actionDigest
      || (p.body.approvalPolicy.Some? && action.body.actionPolicy.Some? && p.body.approvalPolicy != action.body.actionPolicy)
      || p.time > action.time
    ensures Verdict(Current(events)) == Contraindicated
  {
    AppraisalIsDocumented(events);
    var p :| p in events && p.body.Approval? && p.body.kind == Approved && p.body.approvalId == id;
    assert Concerns(p, action) && !IsApproved(p, action);
    assert Strayed(events, action);
  }

  /** The same for actions joined to approvals by the challenged policy event. */
  lemma WrongApprovalOfChallengeCondemns(events: seq<Event>, action: Event, id: string)
    requires action in events && action.body.Action? && action.body.outcome != Outcome.Denied
    requires action.body.actionApproval == None && action.body.actionPolicy == Some(id) && Decided(events, id, Challenge)
    requires exists p :: p in events && p.body.Approval? && p.body.kind == Approved && p.body.approvalPolicy == Some(id)
    requires forall p :: p in events && p.body.Approval? && p.body.kind == Approved && p.body.approvalPolicy == Some(id) ==>
      p.body.approvedDigest != action.body.actionDigest || p.time > action.time
    ensures Verdict(Current(events)) == Contraindicated
  {
    AppraisalIsDocumented(events);
    var p :| p in events && p.body.Approval? && p.body.kind == Approved && p.body.approvalPolicy == Some(id);
    assert Concerns(p, action) && !IsApproved(p, action);
    assert Strayed(events, action);
  }

  /** An action that needs an approval and has none of its own makes a warning at least. */
  lemma UnapprovedActionWarns(events: seq<Event>, action: Event)
    requires action in events && NeedsApproval(events, action)
    requires forall p :: p in events && p.body.Approval? && p.body.kind == Approved ==> !Concerns(p, action)
    ensures Verdict(Current(events)) in {Warning, Contraindicated}
  {
    AppraisalIsDocumented(events);
    assert !Licensed(events, action);
  }
}
