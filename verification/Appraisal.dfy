/**
 The appraisal of a run: the nested loops that compute it, and the rules it stands for, stated
 on the set of events. An approval is bound by its value alone, so asking whether an event
 object is one of the bound ones is asking whether an equal event is.
 */
module Appraisal {
  import opened Prelude
  import opened Events

  datatype Status = NoStatus | Affirming | Warning | Contraindicated

  datatype ActionBinding = Bound | Unresolved | Contradicted

  // ---- the rules ----------------------------------------------------------------------------

  function Members(events: seq<Event>): set<Event> {
    set e | e in events
  }

  /** The approval answers the request on all seven binding fields, inside its window. */
  predicate Resolves(request: Event, approval: Event) {
    && request.IsApprovalOf(Requested) && approval.IsApprovalOf(Approved)
    && var a, r := approval.body, request.body;
       && a.approvalId == r.approvalId
       && a.approvalPolicy.Some? && a.approvalPolicy == r.approvalPolicy
       && a.approvedDigest == r.approvedDigest
       && a.chainId.Some? && a.chainId == r.chainId
       && a.chainVersion.Some? && a.chainVersion == r.chainVersion
       && a.requestedAt == r.requestedAt
       && a.expiresAt.Some? && a.expiresAt == r.expiresAt
       && r.requestedAt <= approval.time <= r.expiresAt.value
  }

  ghost predicate IsBound(evs: set<Event>, approval: Event) {
    exists request :: request in evs && Resolves(request, approval)
  }

  predicate Refusal(decision: Decision) {
    decision == Deny || decision == DecisionError
  }

  /** An action that ran and names an approval, or a decision that was a challenge. */
  ghost predicate Gated(evs: set<Event>, action: Event) {
    && action.IsAction() && action.body.outcome != Denied
    && (action.body.actionApproval.Some?
        || exists d :: d in evs && d.IsDecision() && d.body.decision == Challenge && action.body.actionPolicy == Some(d.id))
  }

  /** The approvals an action is compared with: by approval id if it names one, else by policy event. */
  predicate Candidate(action: Event, approval: Event) {
    && action.IsAction() && approval.IsApprovalOf(Approved)
    && if action.body.actionApproval.Some? then Some(approval.body.approvalId) == action.body.actionApproval
       else approval.body.approvalPolicy == action.body.actionPolicy
  }

  predicate Disagrees(action: Event, approval: Event)
    requires action.IsAction() && approval.IsApproval()
  {
    || approval.body.approvedDigest != action.body.actionDigest
    || (action.body.actionPolicy.Some? && approval.body.approvalPolicy.Some? && approval.body.approvalPolicy != action.body.actionPolicy)
    || approval.time > action.time
  }

  ghost predicate Satisfied(evs: set<Event>, action: Event) {
    exists approval :: approval in evs && Candidate(action, approval) && !Disagrees(action, approval) && IsBound(evs, approval)
  }

  ghost predicate HasContradiction(evs: set<Event>, action: Event) {
    exists approval :: approval in evs && Candidate(action, approval) && Disagrees(action, approval)
  }

  ghost predicate Refused(evs: set<Event>) {
    exists e :: e in evs && e.IsDecision() && Refusal(e.body.decision)
  }

  ghost predicate ApprovalFailed(evs: set<Event>) {
    exists e :: e in evs && (e.IsApprovalOf(Rejected) || e.IsApprovalOf(Expired) || e.IsApprovalOf(ExecutionFailed))
  }

  ghost predicate ActionContradicted(evs: set<Event>) {
    exists a :: a in evs && Gated(evs, a) && !Satisfied(evs, a) && HasContradiction(evs, a)
  }

  ghost predicate ActionUnsatisfied(evs: set<Event>) {
    exists a :: a in evs && Gated(evs, a) && !Satisfied(evs, a)
  }

  /** Some approval of this policy event is bound to a request. */
  ghost predicate ChallengeMet(evs: set<Event>, id: string) {
    exists approval :: approval in evs && IsBound(evs, approval) && approval.body.approvalPolicy == Some(id)
  }

  ghost predicate OpenChallenge(evs: set<Event>) {
    exists d :: d in evs && d.IsDecision() && d.body.decision == Challenge && !ChallengeMet(evs, d.id)
  }

  ghost predicate ApprovalWithdrawn(evs: set<Event>) {
    exists e :: e in evs && e.IsApprovalOf(Withdrawn)
  }

  ghost predicate Governed(evs: set<Event>) {
    exists e :: e in evs && (e.IsDecision() || e.IsApproval())
  }

  ghost function Verdict(evs: set<Event>): Status {
    if Refused(evs) || ApprovalFailed(evs) || ActionContradicted(evs) then Contraindicated
    else if OpenChallenge(evs) || ApprovalWithdrawn(evs) || ActionUnsatisfied(evs) then Warning
    else if Governed(evs) then Affirming
    else NoStatus
  }

  // ---- the decisions dictionary -------------------------------------------------------------

  /** Decisions by event id; a later decision with the same id replaces an earlier one. */
  function Decisions(events: seq<Event>): map<string, Decision> {
    if events == [] then map[]
    else
      var last := events[|events| - 1];
      var before := Decisions(events[..|events| - 1]);
      if last.IsDecision() then before[last.id := last.body.decision] else before
  }

  /** A later decision carries the same id. */
  ghost predicate Replaced(events: seq<Event>, i: nat)
    requires i < |events|
  {
    events[i].IsDecision() && exists j :: i < j < |events| && events[j].IsDecision() && events[j].id == events[i].id
  }

  /** The events that the dictionary does not forget. */
  ghost function Current(events: seq<Event>): set<Event> {
    set i | 0 <= i < |events| && !Replaced(events, i) :: events[i]
  }

  ghost predicate HasDecision(evs: set<Event>, id: string, d: Decision) {
    exists e :: e in evs && e.IsDecision() && e.id == id && e.body.decision == d
  }

  lemma {:induction false} CurrentIsKept(events: seq<Event>, i: nat)
    requires i < |events| && events[i].IsDecision() && !Replaced(events, i)
    ensures events[i].id in Decisions(events) && Decisions(events)[events[i].id] == events[i].body.decision
  {
    var n := |events| - 1;
    if i < n {
      assert events[..n][i] == events[i];
      assert !Replaced(events[..n], i);
      CurrentIsKept(events[..n], i);
    }
  }

  lemma {:induction false} KeptIsCurrent(events: seq<Event>, id: string) returns (i: nat)
    requires id in Decisions(events)
    ensures i < |events| && events[i].IsDecision() && !Replaced(events, i) && events[i].id == id
  {
    var n := |events| - 1;
    if events[n].IsDecision() && events[n].id == id {
      i := n;
    } else {
      assert id in Decisions(events[..n]);
      i := KeptIsCurrent(events[..n], id);
      assert events[..n][i] == events[i];
      forall j | i < j < n && events[j].IsDecision() ensures events[j].id != id {
        assert events[..n][j] == events[j];
      }
    }
  }

  /** The dictionary says exactly what the current decisions say. */
  lemma DecisionsMean(events: seq<Event>, id: string, d: Decision)
    ensures (id in Decisions(events) && Decisions(events)[id] == d) <==> HasDecision(Current(events), id, d)
  {
    if id in Decisions(events) && Decisions(events)[id] == d {
      var i := KeptIsCurrent(events, id);
      CurrentIsKept(events, i);
      assert events[i] in Current(events);
    }
    if HasDecision(Current(events), id, d) {
      var e :| e in Current(events) && e.IsDecision() && e.id == id && e.body.decision == d;
      var i :| 0 <= i < |events| && !Replaced(events, i) && events[i] == e;
      CurrentIsKept(events, i);
    }
  }

  /** No two decisions share an id and differ. */
  ghost predicate Consistent(events: seq<Event>) {
    forall d, e :: d in events && e in events && d.IsDecision() && e.IsDecision() && d.id == e.id ==> d.body.decision == e.body.decision
  }

  lemma CurrentOthers(events: seq<Event>, e: Event)
    ensures e in Current(events) ==> e in events
    ensures e in events && !e.IsDecision() ==> e in Current(events)
  {
    if e in events && !e.IsDecision() {
      var i :| 0 <= i < |events| && events[i] == e;
      assert !Replaced(events, i);
    }
  }

  /** Consistent events have no decision that the dictionary forgets. */
  lemma CurrentDecisions(events: seq<Event>, id: string, d: Decision)
    requires Consistent(events)
    ensures HasDecision(Current(events), id, d) <==> HasDecision(Members(events), id, d)
  {
    if HasDecision(Current(events), id, d) {
      var e :| e in Current(events) && e.IsDecision() && e.id == id && e.body.decision == d;
      CurrentOthers(events, e);
    }
    if HasDecision(Members(events), id, d) {
      var e :| e in Members(events) && e.IsDecision() && e.id == id && e.body.decision == d;
      DecidedInDictionary(events, id);
      var i := KeptIsCurrent(events, id);
      assert events[i] in Current(events);
    }
  }

  lemma {:induction false} DecidedInDictionary(events: seq<Event>, id: string)
    requires exists e :: e in events && e.IsDecision() && e.id == id
    ensures id in Decisions(events)
  {
    var n := |events| - 1;
    if !(events[n].IsDecision() && events[n].id == id) {
      var e :| e in events && e.IsDecision() && e.id == id;
      assert e in events[..n];
      DecidedInDictionary(events[..n], id);
    }
  }

  /** The verdict reads decisions only through their id and decision. */
  lemma VerdictReads(evs: set<Event>, evs': set<Event>)
    requires forall e: Event :: !e.IsDecision() ==> (e in evs <==> e in evs')
    requires forall id, d :: HasDecision(evs, id, d) <==> HasDecision(evs', id, d)
    ensures Verdict(evs) == Verdict(evs')
  {
    VerdictHalf(evs, evs');
    VerdictHalf(evs', evs);
  }

  lemma VerdictHalf(evs: set<Event>, evs': set<Event>)
    requires forall e: Event :: !e.IsDecision() ==> (e in evs <==> e in evs')
    requires forall id, d :: HasDecision(evs, id, d) <==> HasDecision(evs', id, d)
    ensures Refused(evs) ==> Refused(evs')
    ensures ApprovalFailed(evs) ==> ApprovalFailed(evs')
    ensures ActionContradicted(evs) ==> ActionContradicted(evs')
    ensures ActionUnsatisfied(evs) ==> ActionUnsatisfied(evs')
    ensures OpenChallenge(evs) ==> OpenChallenge(evs')
    ensures ApprovalWithdrawn(evs) ==> ApprovalWithdrawn(evs')
    ensures Governed(evs) ==> Governed(evs')
  {
    forall a ensures IsBound(evs, a) == IsBound(evs', a) {}
    forall a ensures Satisfied(evs, a) == Satisfied(evs', a) && HasContradiction(evs, a) == HasContradiction(evs', a) {}
    forall a ensures Gated(evs, a) ==> Gated(evs', a) {
      if Gated(evs, a) && a.body.actionApproval.None? {
        assert HasDecision(evs, a.body.actionPolicy.value, Challenge);
        assert HasDecision(evs', a.body.actionPolicy.value, Challenge);
      }
    }
    forall e | e in evs && e.IsDecision() ensures HasDecision(evs', e.id, e.body.decision) {
      assert HasDecision(evs, e.id, e.body.decision);
    }
  }

  // ---- the loops ----------------------------------------------------------------------------

  predicate AnyApproval(e: Event) { e.IsApproval() }

  method BoundApprovals(approvals: seq<Event>) returns (resolved: seq<Event>)
    ensures forall e :: e in resolved <==> e in approvals && IsBound(Members(approvals), e)
  {
    var requests := Filter((e: Event) => e.IsApprovalOf(Requested), approvals);
    resolved := [];
    for i := 0 to |approvals|
      invariant forall e :: e in resolved <==> e in approvals[..i] && IsBound(Members(approvals), e)
    {
      var approval := approvals[i];
      assert forall e :: e in approvals[..i + 1] <==> e in approvals[..i] || e == approval;
      if !approval.IsApprovalOf(Approved) {
        assert !IsBound(Members(approvals), approval);
        continue;
      }
      var found := false;
      var j := 0;
      while j < |requests| && !found
        invariant 0 <= j <= |requests|
        invariant found ==> IsBound(Members(approvals), approval)
        invariant !found ==> forall k :: 0 <= k < j ==> !Resolves(requests[k], approval)
      {
        var request := requests[j];
        if Resolves(request, approval) {
          assert request in Members(approvals);
          found := true;
        }
        j := j + 1;
      }
      if found {
        resolved := resolved + [approval];
      } else {
        forall request | request in Members(approvals) ensures !Resolves(request, approval) {
          if request.IsApprovalOf(Requested) {
            assert request in requests;
          }
        }
      }
    }
    assert approvals[..|approvals|] == approvals;
  }

  /** `Gated`, as the dictionary shows it. */
  predicate GatedBy(decisions: map<string, Decision>, action: Event) {
    && action.IsAction() && action.body.outcome != Denied
    && (action.body.actionApproval.Some?
        || (action.body.actionPolicy.Some? && action.body.actionPolicy.value in decisions && decisions[action.body.actionPolicy.value] == Challenge))
  }

  ghost predicate SatisfiedBy(approvals: seq<Event>, bound: seq<Event>, action: Event) {
    exists p :: p in approvals && Candidate(action, p) && !Disagrees(action, p) && p in bound
  }

  ghost predicate ContradictedBy(approvals: seq<Event>, action: Event) {
    exists p :: p in approvals && Candidate(action, p) && Disagrees(action, p)
  }

  method ActionApprovalBinding(events: seq<Event>, decisions: map<string, Decision>, approvals: seq<Event>, bound: seq<Event>)
    returns (result: ActionBinding)
    ensures result == Contradicted <==>
      exists a :: a in events && GatedBy(decisions, a) && !SatisfiedBy(approvals, bound, a) && ContradictedBy(approvals, a)
    ensures result == Bound <==> forall a :: a in events && GatedBy(decisions, a) ==> SatisfiedBy(approvals, bound, a)
  {
    result := Bound;
    for i := 0 to |events|
      invariant result != Contradicted
      invariant forall a :: a in events[..i] && GatedBy(decisions, a) && !SatisfiedBy(approvals, bound, a) ==> !ContradictedBy(approvals, a)
      invariant result == Bound <==> forall a :: a in events[..i] && GatedBy(decisions, a) ==> SatisfiedBy(approvals, bound, a)
    {
      var action := events[i];
      assert forall e :: e in events[..i + 1] <==> e in events[..i] || e == action;
      if !GatedBy(decisions, action) {
        continue;
      }
      var satisfied, contradicted := CompareCandidates(approvals, bound, action);
      if satisfied {
        continue;
      }
      if contradicted {
        assert action in events;
        return Contradicted;
      }
      result := Unresolved;
    }
    assert events[..|events|] == events;
  }

  /** The inner loop: every candidate approval, whatever the earlier ones showed. */
  method CompareCandidates(approvals: seq<Event>, bound: seq<Event>, action: Event) returns (satisfied: bool, contradicted: bool)
    requires action.IsAction()
    ensures satisfied <==> SatisfiedBy(approvals, bound, action)
    ensures contradicted <==> ContradictedBy(approvals, action)
  {
    satisfied, contradicted := false, false;
    for i := 0 to |approvals|
      invariant satisfied <==> SatisfiedBy(approvals[..i], bound, action)
      invariant contradicted <==> ContradictedBy(approvals[..i], action)
    {
      var approval := approvals[i];
      assert forall e :: e in approvals[..i + 1] <==> e in approvals[..i] || e == approval;
      if Candidate(action, approval) {
        if Disagrees(action, approval) {
          contradicted := true;
        } else if approval in bound {
          satisfied := true;
        }
      }
    }
    assert approvals[..|approvals|] == approvals;
  }

  // ---- what the loops see, in terms of the current events ------------------------------------

  ghost predicate ApprovalsOf(events: seq<Event>, approvals: seq<Event>) {
    forall e :: e in approvals <==> e in events && e.IsApproval()
  }

  lemma ApprovalsCurrent(events: seq<Event>, approvals: seq<Event>)
    requires ApprovalsOf(events, approvals)
    ensures forall e :: e in approvals <==> e in Current(events) && e.IsApproval()
    ensures forall e :: IsBound(Members(approvals), e) <==> IsBound(Current(events), e)
  {
    forall e ensures e in approvals <==> e in Current(events) && e.IsApproval() {
      CurrentOthers(events, e);
    }
    forall e ensures IsBound(Members(approvals), e) <==> IsBound(Current(events), e) {
      if IsBound(Members(approvals), e) {
        var r :| r in Members(approvals) && Resolves(r, e);
        assert r in Current(events);
      }
      if IsBound(Current(events), e) {
        var r :| r in Current(events) && Resolves(r, e);
        assert r in Members(approvals);
      }
    }
  }

  lemma GatesMean(events: seq<Event>, action: Event)
    ensures GatedBy(Decisions(events), action) <==> Gated(Current(events), action)
  {
    if action.IsAction() && action.body.actionPolicy.Some? {
      DecisionsMean(events, action.body.actionPolicy.value, Challenge);
    }
  }

  lemma CandidatesMean(events: seq<Event>, approvals: seq<Event>, bound: seq<Event>, action: Event)
    requires ApprovalsOf(events, approvals)
    requires forall e :: e in bound <==> e in approvals && IsBound(Members(approvals), e)
    ensures SatisfiedBy(approvals, bound, action) <==> Satisfied(Current(events), action)
    ensures ContradictedBy(approvals, action) <==> HasContradiction(Current(events), action)
  {
    ApprovalsCurrent(events, approvals);
  }

  lemma BindingMeans(events: seq<Event>, approvals: seq<Event>, bound: seq<Event>, binding: ActionBinding)
    requires ApprovalsOf(events, approvals)
    requires forall e :: e in bound <==> e in approvals && IsBound(Members(approvals), e)
    requires var decisions := Decisions(events);
             && (binding == Contradicted <==>
                  exists a :: a in events && GatedBy(decisions, a) && !SatisfiedBy(approvals, bound, a) && ContradictedBy(approvals, a))
             && (binding == Bound <==> forall a :: a in events && GatedBy(decisions, a) ==> SatisfiedBy(approvals, bound, a))
    ensures binding == Contradicted <==> ActionContradicted(Current(events))
    ensures binding == Bound <==> !ActionUnsatisfied(Current(events))
  {
    forall a ensures GatedBy(Decisions(events), a) <==> Gated(Current(events), a)
             ensures SatisfiedBy(approvals, bound, a) <==> Satisfied(Current(events), a)
             ensures ContradictedBy(approvals, a) <==> HasContradiction(Current(events), a)
             ensures a.IsAction() ==> (a in events <==> a in Current(events))
    {
      GatesMean(events, a);
      CandidatesMean(events, approvals, bound, a);
      CurrentOthers(events, a);
    }
  }

  lemma ValuesMean(events: seq<Event>)
    ensures Decisions(events).Values * {Deny, DecisionError} != {} <==> Refused(Current(events))
    ensures Decisions(events) == map[] <==> !exists e :: e in Current(events) && e.IsDecision()
  {
    var decisions := Decisions(events);
    if d :| d in decisions.Values && Refusal(d) {
      var id :| id in decisions && decisions[id] == d;
      DecisionsMean(events, id, d);
      assert d in decisions.Values * {Deny, DecisionError};
    }
    if e :| e in Current(events) && e.IsDecision() {
      assert HasDecision(Current(events), e.id, e.body.decision);
      DecisionsMean(events, e.id, e.body.decision);
    }
    if Refused(Current(events)) {
      var e :| e in Current(events) && e.IsDecision() && Refusal(e.body.decision);
      assert HasDecision(Current(events), e.id, e.body.decision);
      DecisionsMean(events, e.id, e.body.decision);
      assert decisions[e.id] in decisions.Values * {Deny, DecisionError};
    }
    if decisions != map[] {
      var id :| id in decisions;
      DecisionsMean(events, id, decisions[id]);
    }
  }

  /** Challenges that no bound approval names. */
  function UnresolvedChallenges(decisions: map<string, Decision>, bound: seq<Event>): set<string> {
    var approvedPolicies := set e | e in bound && e.IsApproval() && e.body.approvalPolicy.Some? :: e.body.approvalPolicy.value;
    set id | id in decisions && decisions[id] == Challenge && id !in approvedPolicies
  }

  lemma ChallengesMean(events: seq<Event>, approvals: seq<Event>, bound: seq<Event>)
    requires ApprovalsOf(events, approvals)
    requires forall e :: e in bound <==> e in approvals && IsBound(Members(approvals), e)
    ensures UnresolvedChallenges(Decisions(events), bound) != {} <==> OpenChallenge(Current(events))
  {
    var evs, decisions := Current(events), Decisions(events);
    var unresolved := UnresolvedChallenges(decisions, bound);
    ApprovalsCurrent(events, approvals);
    forall id ensures id in unresolved <==> id in decisions && decisions[id] == Challenge && !ChallengeMet(evs, id) {
      if ChallengeMet(evs, id) {
        var e :| e in evs && IsBound(evs, e) && e.body.approvalPolicy == Some(id);
        assert e in bound && e.IsApproval();
      }
    }
    if unresolved != {} {
      var id :| id in unresolved;
      DecisionsMean(events, id, Challenge);
    }
    if OpenChallenge(evs) {
      var d :| d in evs && d.IsDecision() && d.body.decision == Challenge && !ChallengeMet(evs, d.id);
      assert HasDecision(evs, d.id, Challenge);
      DecisionsMean(events, d.id, Challenge);
      assert d.id in unresolved;
    }
  }

  function Kinds(approvals: seq<Event>): set<ApprovalKind> {
    set e | e in approvals && e.IsApproval() :: e.body.kind
  }

  lemma KindsMean(events: seq<Event>, approvals: seq<Event>)
    requires ApprovalsOf(events, approvals)
    ensures Kinds(approvals) * {Rejected, Expired, ExecutionFailed} != {} <==> ApprovalFailed(Current(events))
    ensures Withdrawn in Kinds(approvals) <==> ApprovalWithdrawn(Current(events))
    ensures Kinds(approvals) != {} <==> exists e :: e in Current(events) && e.IsApproval()
  {
    var types := Kinds(approvals);
    ApprovalsCurrent(events, approvals);
    if k :| k in types && k in {Rejected, Expired, ExecutionFailed} {
      assert k in types * {Rejected, Expired, ExecutionFailed};
    }
    if e :| e in Current(events) && e.IsApproval() {
      assert e.body.kind in types;
    }
    if ApprovalFailed(Current(events)) {
      var e :| e in Current(events) && (e.IsApprovalOf(Rejected) || e.IsApprovalOf(Expired) || e.IsApprovalOf(ExecutionFailed));
      assert e.body.kind in types * {Rejected, Expired, ExecutionFailed};
    }
  }

  /**
   `_appraisal`: the verdict on the events that the decisions dictionary keeps, and on all
   events when no decision is replaced by a different one.
   */
  method Appraise(events: seq<Event>) returns (status: Status)
    ensures status == Verdict(Current(events))
    ensures Consistent(events) ==> status == Verdict(Members(events))
  {
    var decisions := Decisions(events);
    var approvals := Filter(AnyApproval, events);
    var bound := BoundApprovals(approvals);
    var binding := ActionApprovalBinding(events, decisions, approvals, bound);
    var kinds := Kinds(approvals);
    var unresolved := UnresolvedChallenges(decisions, bound);
    ghost var evs := Current(events);
    assert ApprovalsOf(events, approvals);
    var refused := decisions.Values * {Deny, DecisionError} != {};
    var failed := kinds * {Rejected, Expired, ExecutionFailed} != {};
    assert refused == Refused(evs) && (decisions != map[] || kinds != {}) == Governed(evs) by {
      ValuesMean(events);
      KindsMean(events, approvals);
    }
    assert failed == ApprovalFailed(evs) && (Withdrawn in kinds) == ApprovalWithdrawn(evs) by {
      KindsMean(events, approvals);
    }
    assert (binding == Contradicted) == ActionContradicted(evs) && (binding == Bound) == !ActionUnsatisfied(evs) by {
      BindingMeans(events, approvals, bound, binding);
    }
    assert (unresolved != {}) == OpenChallenge(evs) by {
      ChallengesMean(events, approvals, bound);
    }
    if Consistent(events) {
      ConsistentVerdict(events);
    }
    if refused || failed || binding == Contradicted {
      status := Contraindicated;
    } else if unresolved != {} || Withdrawn in kinds || binding == Unresolved {
      status := Warning;
    } else if decisions != map[] || kinds != {} {
      status := Affirming;
    } else {
      status := NoStatus;
    }
  }

  lemma ConsistentVerdict(events: seq<Event>)
    requires Consistent(events)
    ensures Verdict(Current(events)) == Verdict(Members(events))
  {
    forall e: Event | !e.IsDecision() ensures e in Current(events) <==> e in Members(events) {
      CurrentOthers(events, e);
    }
    forall id, d ensures HasDecision(Current(events), id, d) <==> HasDecision(Members(events), id, d) {
      CurrentDecisions(events, id, d);
    }
    VerdictReads(Current(events), Members(events));
  }
}
