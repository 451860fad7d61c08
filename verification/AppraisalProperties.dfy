/** What the appraisal does not depend on, and which way it can move. */
module AppraisalProperties {
  import opened Prelude
  import opened Events
  import opened Appraisal

  // ---- order of events ----------------------------------------------------------------------

  function MoveToEnd(events: seq<Event>, i: nat): (moved: seq<Event>)
    requires i < |events|
    ensures Permutation(moved, events) && |moved| == |events| && moved[|events| - 1] == events[i]
  {
    assert events == events[..i] + [events[i]] + events[i + 1..];
    events[..i] + events[i + 1..] + [events[i]]
  }

  lemma ConsistentPermutation(a: seq<Event>, b: seq<Event>)
    requires Permutation(a, b) && Consistent(a)
    ensures Consistent(b) && Members(a) == Members(b)
  {
    PermutationMembers(a, b);
  }

  /** Consistent events decide a decision's id in one way only. */
  lemma ConsistentValue(events: seq<Event>, id: string)
    requires Consistent(events) && id in Decisions(events)
    ensures exists e :: e in events && e.IsDecision() && e.id == id && e.body.decision == Decisions(events)[id]
  {
    var i := KeptIsCurrent(events, id);
    CurrentIsKept(events, i);
    assert events[i] in events;
  }

  lemma SameDecisions(a: seq<Event>, b: seq<Event>)
    requires Permutation(a, b) && Consistent(a)
    ensures Decisions(a) == Decisions(b)
  {
    ConsistentPermutation(a, b);
    forall id ensures id in Decisions(a) <==> id in Decisions(b)
              ensures id in Decisions(a) && id in Decisions(b) ==> Decisions(a)[id] == Decisions(b)[id]
    {
      PermutationMembers(a, b);
      if id in Decisions(a) {
        ConsistentValue(a, id);
        DecidedInDictionary(b, id);
      }
      if id in Decisions(b) {
        ConsistentValue(b, id);
        DecidedInDictionary(a, id);
      }
    }
  }

  /**
   The decisions dictionary is the same for every order of the events exactly when no two
   decisions share an id and differ.
   */
  lemma DecisionsOrderFree(events: seq<Event>)
    ensures (forall other :: Permutation(other, events) ==> Decisions(other) == Decisions(events)) <==> Consistent(events)
  {
    if Consistent(events) {
      forall other | Permutation(other, events) ensures Decisions(other) == Decisions(events) {
        SameDecisions(events, other);
      }
    } else {
      var d, e :| d in events && e in events && d.IsDecision() && e.IsDecision() && d.id == e.id && d.body.decision != e.body.decision;
      var i :| 0 <= i < |events| && events[i] == d;
      var j :| 0 <= j < |events| && events[j] == e;
      var first, second := MoveToEnd(events, i), MoveToEnd(events, j);
      assert Decisions(first)[d.id] == d.body.decision && Decisions(second)[d.id] == e.body.decision;
      assert Permutation(first, events) && Permutation(second, events);
    }
  }

  /** The appraisal of consistent events is the same in every order. */
  lemma AppraisalOrderFree(a: seq<Event>, b: seq<Event>)
    requires Permutation(a, b) && Consistent(a)
    ensures Verdict(Current(a)) == Verdict(Current(b))
  {
    ConsistentPermutation(a, b);
    ConsistentVerdict(a);
    ConsistentVerdict(b);
  }

  /** Distinct event ids, which every accumulator guarantees, are consistent. */
  lemma DistinctIdsConsistent(events: seq<Event>)
    requires forall i, j :: 0 <= i < j < |events| ==> events[i].id != events[j].id
    ensures Consistent(events)
  {
  }

  // ---- what condemns a run ------------------------------------------------------------------

  /** A denial or an error that no later decision with its id replaces. */
  ghost predicate StandingRefusal(events: seq<Event>, i: nat)
    requires i < |events|
  {
    && events[i].IsDecision() && Refusal(events[i].body.decision)
    && forall j :: i < j < |events| && events[j].IsDecision() ==> events[j].id != events[i].id
  }

  /** The documented rule holds of a run exactly when one of its refusals stands, unless something else condemns it. */
  lemma DenialHeardIffItStands(events: seq<Event>)
    requires Refused(Members(events))
    requires !ApprovalFailed(Current(events)) && !ActionContradicted(Current(events))
    ensures Verdict(Current(events)) == Contraindicated <==> exists i :: 0 <= i < |events| && StandingRefusal(events, i)
  {
    if i :| 0 <= i < |events| && StandingRefusal(events, i) {
      assert !Replaced(events, i);
      assert events[i] in Current(events);
    }
    if Refused(Current(events)) {
      var e :| e in Current(events) && e.IsDecision() && Refusal(e.body.decision);
      var i :| 0 <= i < |events| && !Replaced(events, i) && events[i] == e;
      assert StandingRefusal(events, i);
    }
  }

  /** An approval that disagrees with its action does not contradict it when another one that agrees is bound. */
  lemma AgreeingApprovalOutweighs(request: Event, agrees: Event, disagrees: Event, action: Event)
    requires Candidate(action, agrees) && !Disagrees(action, agrees) && Resolves(request, agrees)
    requires Candidate(action, disagrees) && Disagrees(action, disagrees)
    ensures Verdict({request, agrees, disagrees, action}) == Affirming
  {
    var evs := {request, agrees, disagrees, action};
    assert request in evs && agrees in evs && IsBound(evs, agrees);
    assert Satisfied(evs, action);
    assert forall a :: a in evs && Gated(evs, a) ==> a == action;
    assert agrees in evs && Governed(evs);
  }

  /** Some candidate agrees with the action and is bound: what outweighs a disagreeing one. */
  ghost predicate Outweighed(evs: set<Event>, action: Event) {
    exists p, r :: p in evs && r in evs && Candidate(action, p) && !Disagrees(action, p) && Resolves(r, p)
  }

  /**
   A gated action that a recorded approval disagrees with condemns the run exactly when no
   agreeing, bound approval outweighs it, unless something else condemns the run.
   */
  lemma DisagreementHeardIffNotOutweighed(evs: set<Event>, action: Event, disagrees: Event)
    requires action in evs && disagrees in evs && Gated(evs, action) && Candidate(action, disagrees) && Disagrees(action, disagrees)
    requires !Refused(evs) && !ApprovalFailed(evs)
    requires forall a :: a in evs && a != action && Gated(evs, a) && HasContradiction(evs, a) ==> Satisfied(evs, a)
    ensures Verdict(evs) == Contraindicated <==> !Outweighed(evs, action)
  {
    assert HasContradiction(evs, action);
    assert Satisfied(evs, action) <==> Outweighed(evs, action);
    if !Satisfied(evs, action) {
      assert ActionContradicted(evs);
    }
  }

  // ---- severity -----------------------------------------------------------------------------

  function Severity(status: Status): nat {
    match status
    case NoStatus => 0
    case Affirming => 1
    case Warning => 2
    case Contraindicated => 3
  }

  ghost predicate FreshId(events: seq<Event>, e: Event) {
    forall d :: d in events ==> d.id != e.id
  }

  lemma CurrentAppend(events: seq<Event>, e: Event)
    requires FreshId(events, e)
    ensures Current(events + [e]) == Current(events) + {e}
  {
    var longer, n := events + [e], |events|;
    forall i | 0 <= i < n ensures longer[i] == events[i] && (Replaced(longer, i) <==> Replaced(events, i)) {
      assert events[i] in events;
      if Replaced(longer, i) {
        var j :| i < j < |longer| && longer[j].IsDecision() && longer[j].id == longer[i].id;
        assert j < n && events[j].IsDecision() && events[j].id == events[i].id;
      }
      if Replaced(events, i) {
        var j :| i < j < n && events[j].IsDecision() && events[j].id == events[i].id;
        assert longer[j] == events[j];
      }
    }
    assert !Replaced(longer, n) && longer[n] == e;
    forall x ensures x in Current(longer) <==> x in Current(events) + {e} {
      if x in Current(events) {
        var i :| 0 <= i < n && !Replaced(events, i) && events[i] == x;
        assert longer[i] == x;
      }
    }
  }

  /** More events keep a satisfied action satisfied and an answered challenge answered. */
  lemma MoreEventsKeepSatisfied(evs: set<Event>, more: set<Event>, action: Event)
    requires evs <= more
    ensures Satisfied(evs, action) ==> Satisfied(more, action)
    ensures forall id :: ChallengeMet(evs, id) ==> ChallengeMet(more, id)
  {
    forall id | ChallengeMet(evs, id) ensures ChallengeMet(more, id) {
      var p :| p in evs && IsBound(evs, p) && p.body.approvalPolicy == Some(id);
      assert p in more && IsBound(more, p);
    }
    if Satisfied(evs, action) {
      var p :| p in evs && Candidate(action, p) && !Disagrees(action, p) && IsBound(evs, p);
      var r :| r in evs && Resolves(r, p);
      assert p in more && IsBound(more, p);
    }
  }

  /** An event that neither requests nor approves binds nothing. */
  lemma NoNewBinding(evs: set<Event>, e: Event, approval: Event)
    requires !e.IsApprovalOf(Requested) && !e.IsApprovalOf(Approved)
    ensures IsBound(evs + {e}, approval) <==> IsBound(evs, approval)
    ensures IsBound(evs, e) == false
  {
    if IsBound(evs + {e}, approval) {
      var r :| r in evs + {e} && Resolves(r, approval);
      assert r in evs;
    }
    if IsBound(evs, approval) {
      var r :| r in evs && Resolves(r, approval);
      assert r in evs + {e};
    }
  }

  lemma NoNewSatisfaction(evs: set<Event>, e: Event, action: Event)
    requires !e.IsApprovalOf(Requested) && !e.IsApprovalOf(Approved)
    ensures Satisfied(evs + {e}, action) <==> Satisfied(evs, action)
    ensures HasContradiction(evs + {e}, action) <==> HasContradiction(evs, action)
  {
    MoreEventsKeepSatisfied(evs, evs + {e}, action);
    if Satisfied(evs + {e}, action) {
      var p :| p in evs + {e} && Candidate(action, p) && !Disagrees(action, p) && IsBound(evs + {e}, p);
      NoNewBinding(evs, e, p);
      assert p in evs;
    }
    if HasContradiction(evs + {e}, action) {
      var p :| p in evs + {e} && Candidate(action, p) && Disagrees(action, p);
      assert p in evs;
    }
    if HasContradiction(evs, action) {
      var p :| p in evs && Candidate(action, p) && Disagrees(action, p);
      assert p in evs + {e};
    }
  }

  /** Appending a new event other than a request or an approval never lowers the appraisal. */
  lemma SeverityNeverFalls(events: seq<Event>, e: Event)
    requires FreshId(events, e)
    requires !e.IsApprovalOf(Requested) && !e.IsApprovalOf(Approved)
    ensures Severity(Verdict(Current(events))) <= Severity(Verdict(Current(events + [e])))
  {
    CurrentAppend(events, e);
    var evs, more := Current(events), Current(events) + {e};
    forall a ensures Satisfied(more, a) <==> Satisfied(evs, a)
             ensures HasContradiction(more, a) <==> HasContradiction(evs, a)
             ensures IsBound(more, a) <==> IsBound(evs, a)
             ensures Gated(evs, a) ==> Gated(more, a)
    {
      NoNewSatisfaction(evs, e, a);
      NoNewBinding(evs, e, a);
      if Gated(evs, a) && a.body.actionApproval.None? {
        var d :| d in evs && d.IsDecision() && d.body.decision == Challenge && a.body.actionPolicy == Some(d.id);
        assert d in more;
      }
    }
    RulesGrow(evs, e);
  }

  lemma RulesGrow(evs: set<Event>, e: Event)
    requires !e.IsApprovalOf(Requested) && !e.IsApprovalOf(Approved)
    requires forall a :: Satisfied(evs + {e}, a) <==> Satisfied(evs, a)
    requires forall a :: HasContradiction(evs + {e}, a) <==> HasContradiction(evs, a)
    requires forall a :: IsBound(evs + {e}, a) <==> IsBound(evs, a)
    requires forall a :: Gated(evs, a) ==> Gated(evs + {e}, a)
    ensures Refused(evs) ==> Refused(evs + {e})
    ensures ApprovalFailed(evs) ==> ApprovalFailed(evs + {e})
    ensures ActionContradicted(evs) ==> ActionContradicted(evs + {e})
    ensures ActionUnsatisfied(evs) ==> ActionUnsatisfied(evs + {e})
    ensures OpenChallenge(evs) ==> OpenChallenge(evs + {e})
    ensures ApprovalWithdrawn(evs) ==> ApprovalWithdrawn(evs + {e})
    ensures Governed(evs) ==> Governed(evs + {e})
  {
    var more := evs + {e};
    assert forall x :: x in evs ==> x in more;
    forall id ensures ChallengeMet(more, id) ==> ChallengeMet(evs, id) {
      if ChallengeMet(more, id) {
        var p :| p in more && IsBound(more, p) && p.body.approvalPolicy == Some(id);
        assert p in evs && IsBound(evs, p);
      }
    }
  }

  /** Requests are rightly excepted: one can bind an approval that was recorded before it. */
  lemma RequestLowersSeverity(challenge: Event, approval: Event, request: Event)
    requires challenge.IsDecision() && challenge.body.decision == Challenge
    requires Resolves(request, approval) && approval.body.approvalPolicy == Some(challenge.id)
    ensures Verdict({challenge, approval}) == Warning
    ensures Verdict({challenge, approval, request}) == Affirming
  {
    var evs, more := {challenge, approval}, {challenge, approval, request};
    assert OpenChallenge(evs) by {
      forall r | r in evs ensures !Resolves(r, approval) {}
      assert !ChallengeMet(evs, challenge.id);
      assert challenge in evs;
    }
    assert ChallengeMet(more, challenge.id) by {
      assert request in more && approval in more && IsBound(more, approval);
    }
    OnlyGovernance(evs);
    OnlyGovernance(more);
    assert challenge in more;
  }

  /** Without actions, refusals and failures only open challenges can spoil a run. */
  lemma OnlyGovernance(evs: set<Event>)
    requires forall e :: e in evs ==> !e.IsAction()
    requires forall e :: e in evs && e.IsDecision() ==> !Refusal(e.body.decision)
    requires forall e :: e in evs && e.IsApproval() ==> e.body.kind == Approved || e.body.kind == Requested
    ensures Verdict(evs) == if OpenChallenge(evs) then Warning else if Governed(evs) then Affirming else NoStatus
  {
  }
}
