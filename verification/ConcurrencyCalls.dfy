/**
 Where the evidence of a run comes from: every entry and every assessment was brought by a call
 that some thread began. And the other way: a call that nothing obstructs has its effect.
 */
module ConcurrencyCalls {
  import opened Prelude
  import opened Events
  import opened EvidenceChain
  import opened Ledger
  import opened Concurrency

  /** The calls that a schedule begins. */
  function Begun(schedule: Schedule): set<Call> {
    set k | 0 <= k < |schedule| && schedule[k].1.Begin? :: schedule[k].1.call
  }

  function BegunBy(action: Action): set<Call> {
    if action.Begin? then {action.call} else {}
  }

  /** The event was brought by an `append`, is valid and belongs to the run. */
  predicate Brought(s: Setup, calls: set<Call>, event: Event) {
    Append(event) in calls && s.validate(event) && event.runId == s.runId
  }

  predicate FrameFrom(s: Setup, calls: set<Call>, frame: Frame) {
    && frame.call in calls
    && (frame.call.Append? && !frame.pc.Entered? ==> Brought(s, calls, frame.call.event))
    && (frame.pc.InCallback? || frame.pc.CommitEntry? ==> frame.call.Append? && frame.pc.entry.event == frame.call.event)
    && (frame.pc.SetSealed? || frame.pc.SetCompleteness? ==> frame.call.Seal?)
  }

  ghost predicate StackFrom(s: Setup, calls: set<Call>, stack: seq<Frame>) {
    forall i :: 0 <= i < |stack| ==> FrameFrom(s, calls, stack[i])
  }

  /** Everything in `w` was brought by one of `calls`. */
  ghost predicate Accounted(s: Setup, calls: set<Call>, w: World) {
    && (forall t :: StackFrom(s, calls, w.Stack(t)))
    && (forall i :: 0 <= i < |w.ledger.entries| ==> Brought(s, calls, w.ledger.entries[i].event))
    && (w.ledger.sealed && !Assessing(Holder(w)) ==> Seal(w.ledger.completeness) in calls)
  }

  /** What is left of the top call: nothing, or the call at another place. */
  ghost predicate Moves(stack: seq<Frame>, after: seq<Frame>) {
    && stack != []
    && var rest, top := stack[..|stack| - 1], stack[|stack| - 1];
       after == rest || (|after| == |stack| && after == rest + [top.(pc := after[|stack| - 1].pc)])
  }

  lemma GotoMoves(w: World, x: World, t: Thread, pc: Pc)
    requires w.Stack(t) != [] && x.stacks == w.stacks
    ensures Moves(w.Stack(t), x.Goto(t, pc).Stack(t)) && Moves(w.Stack(t), x.Pop(t).Stack(t))
  {
    var rest, top := w.Stack(t)[..|w.Stack(t)| - 1], w.Top(t);
    assert x.Stack(t) == w.Stack(t) && x.Goto(t, pc).Stack(t) == rest + [top.(pc := pc)];
  }

  lemma AdvanceMoves(s: Setup, w: World, t: Thread)
    requires w.Stack(t) != [] && Next(s, w, t, Advance).Some?
    ensures Moves(w.Stack(t), Next(s, w, t, Advance).value.Stack(t))
  {
    var top, l := w.Top(t), w.ledger;
    match top.pc {
      case Entered => GotoMoves(w, w, t, OwnerCheck);
      case OwnerCheck =>
        GotoMoves(w, w, t, WaitForLock);
        GotoMoves(w, w.Record(), t, Unlock);
      case WaitForLock => GotoMoves(w, w.(lock := Some(t)), t, if top.call.TakeSnapshot? then ReadSnapshot else TakeOwner);
      case TakeOwner => GotoMoves(w, w.(owner := Some(t)), t, Body);
      case Body => GotoMoves(w, w, t, AfterChecks(s, l, top.call));
      case CommitEntry(entry) => GotoMoves(w, w.(ledger := l.(entries := l.entries + [entry])), t, CommitId(entry));
      case CommitId(entry) => GotoMoves(w, w.(ledger := l.(ids := l.ids + {entry.eventId})), t, DropOwner);
      case SetSealed => GotoMoves(w, w.(ledger := l.(sealed := true)), t, SetCompleteness);
      case SetCompleteness => GotoMoves(w, w.(ledger := l.(completeness := top.call.assessment)), t, ReadSnapshot);
      case ReadSnapshot => GotoMoves(w, w.Record(), t, if top.call.TakeSnapshot? then Unlock else DropOwner);
      case DropOwner => GotoMoves(w, w.(owner := None), t, Unlock);
      case Unlock => GotoMoves(w, w.(lock := None), t, Unlock);
    }
  }

  lemma CallbackMoves(s: Setup, w: World, t: Thread, acknowledged: bool)
    requires Next(s, w, t, CallbackReturns(acknowledged)).Some?
    ensures Moves(w.Stack(t), Next(s, w, t, CallbackReturns(acknowledged)).value.Stack(t))
  {
    var entry := w.Top(t).pc.entry;
    GotoMoves(w, w.(acknowledged := w.acknowledged + [entry]), t, CommitEntry(entry));
    GotoMoves(w, w, t, DropOwner);
  }

  lemma StackMoves(s: Setup, calls: set<Call>, w: World, t: Thread, action: Action)
    requires Next(s, w, t, action).Some? && StackFrom(s, calls, w.Stack(t))
    ensures StackFrom(s, calls + BegunBy(action), Next(s, w, t, action).value.Stack(t))
  {
    var stack, after := w.Stack(t), Next(s, w, t, action).value.Stack(t);
    if action.Begin? {
      assert after == stack + [Frame(action.call, Entered)];
    } else {
      if action.Advance? {
        AdvanceMoves(s, w, t);
      } else {
        CallbackMoves(s, w, t, action.acknowledged);
      }
      assert FrameFrom(s, calls, stack[|stack| - 1]);
      if |after| == |stack| {
        TopMoves(s, calls, w, t, action);
      }
      assert forall i :: 0 <= i < |after| && i < |stack| - 1 ==> after[i] == stack[i];
    }
  }

  lemma TopMoves(s: Setup, calls: set<Call>, w: World, t: Thread, action: Action)
    requires !action.Begin? && Next(s, w, t, action).Some? && w.Stack(t) != [] && FrameFrom(s, calls, w.Top(t))
    requires |Next(s, w, t, action).value.Stack(t)| == |w.Stack(t)|
    ensures FrameFrom(s, calls, Next(s, w, t, action).value.Top(t))
  {
    if action.Advance? {
      if Mutating(w.Top(t).pc) {
        MutationMoves(s, calls, w, t);
      } else {
        PlainMoves(s, calls, w, t);
      }
    }
  }

  lemma MutationMoves(s: Setup, calls: set<Call>, w: World, t: Thread)
    requires Next(s, w, t, Advance).Some? && w.Stack(t) != [] && FrameFrom(s, calls, w.Top(t)) && Mutating(w.Top(t).pc)
    requires |Next(s, w, t, Advance).value.Stack(t)| == |w.Stack(t)|
    ensures FrameFrom(s, calls, Next(s, w, t, Advance).value.Top(t))
  {
    if w.Top(t).pc.Body? {
      assert Next(s, w, t, Advance).value.Top(t) == w.Top(t).(pc := AfterChecks(s, w.ledger, w.Top(t).call));
    }
  }

  lemma PlainMoves(s: Setup, calls: set<Call>, w: World, t: Thread)
    requires Next(s, w, t, Advance).Some? && w.Stack(t) != [] && FrameFrom(s, calls, w.Top(t)) && !Mutating(w.Top(t).pc)
    requires |Next(s, w, t, Advance).value.Stack(t)| == |w.Stack(t)|
    ensures FrameFrom(s, calls, Next(s, w, t, Advance).value.Top(t))
  {
  }

  /** Entries and the assessment change only where a call brings them. */
  lemma LedgerMoves(s: Setup, calls: set<Call>, w: World, t: Thread, action: Action)
    requires Invariant(s, w) && Accounted(s, calls, w) && Next(s, w, t, action).Some?
    ensures var l, l' := w.ledger, Next(s, w, t, action).value.ledger;
            && (l'.entries == l.entries || exists e :: l'.entries == l.entries + [e] && Brought(s, calls, e.event))
            && (l'.completeness == l.completeness || Seal(l'.completeness) in calls)
  {
    if w.Stack(t) != [] {
      assert FrameFrom(s, calls, w.Top(t));
    }
  }

  /** A seal that is being assessed by a call of `calls` ends with its assessment. */
  lemma SealMoves(s: Setup, calls: set<Call>, w: World, t: Thread, action: Action)
    requires Invariant(s, w) && Accounted(s, calls, w) && Next(s, w, t, action).Some?
    ensures var w' := Next(s, w, t, action).value;
            w'.ledger.sealed && !Assessing(Holder(w')) ==> Seal(w'.ledger.completeness) in calls
  {
    var w' := Next(s, w, t, action).value;
    StepKeepsInvariant(s, w, t, action);
    assert StackOk(s, w, t) && StackFrom(s, calls, w.Stack(t));
    if w'.ledger.sealed && !Assessing(Holder(w')) && !(w.ledger.sealed && !Assessing(Holder(w))) {
      if w.lock != Some(t) {
        OutsideStep(s, w, t, action);
      } else if action.Begin? || |w.Stack(t)| == 2 {
        NestedStep(s, w, t, action);
      } else {
        HolderSeals(s, calls, w, t, action);
      }
    }
  }

  lemma HolderSeals(s: Setup, calls: set<Call>, w: World, t: Thread, action: Action)
    requires Invariant(s, w) && Accounted(s, calls, w) && Next(s, w, t, action).Some? && !action.Begin?
    requires w.lock == Some(t) && |w.Stack(t)| == 1 && !(w.ledger.sealed && !Assessing(Holder(w)))
    ensures var w' := Next(s, w, t, action).value;
            w'.ledger.sealed && !Assessing(Holder(w')) ==> Seal(w'.ledger.completeness) in calls
  {
    var w', frame := Next(s, w, t, action).value, w.Stack(t)[0];
    assert StackOk(s, w, t) && FrameFrom(s, calls, frame);
    assert w.Top(t) == frame && Holder(w) == Some(frame) && w.Stack(t)[..0] == [];
    if frame.pc.SetSealed? {
      assert Holder(w') == Some(w'.Stack(t)[0]) && Assessing(Holder(w'));
    }
  }

  lemma StepAccounted(s: Setup, calls: set<Call>, w: World, t: Thread, action: Action)
    requires Invariant(s, w) && Accounted(s, calls, w) && Next(s, w, t, action).Some?
    ensures Accounted(s, calls + BegunBy(action), Next(s, w, t, action).value)
  {
    var w', more := Next(s, w, t, action).value, calls + BegunBy(action);
    forall u ensures StackFrom(s, more, w'.Stack(u)) {
      assert StackFrom(s, calls, w.Stack(u));
      if u == t {
        StackMoves(s, calls, w, t, action);
      } else {
        assert StackOk(s, w, t) && StackOk(s, w, u);
        OtherThreads(s, w, t, action, u);
      }
    }
    LedgerMoves(s, calls, w, t, action);
    SealMoves(s, calls, w, t, action);
  }

  lemma {:induction false} RunAccounted(s: Setup, calls: set<Call>, w: World, schedule: Schedule)
    requires Invariant(s, w) && Accounted(s, calls, w) && Run(s, w, schedule).Some?
    ensures Invariant(s, Run(s, w, schedule).value)
    ensures Accounted(s, calls + Begun(schedule), Run(s, w, schedule).value)
    decreases |schedule|
  {
    if schedule == [] {
      assert calls + Begun([]) == calls;
    } else {
      var (t, action) := schedule[0];
      StepKeepsInvariant(s, w, t, action);
      StepAccounted(s, calls, w, t, action);
      RunAccounted(s, calls + BegunBy(action), Next(s, w, t, action).value, schedule[1..]);
      BegunSplit(schedule);
      assert calls + BegunBy(action) + Begun(schedule[1..]) == calls + Begun(schedule);
    }
  }

  lemma BegunSplit(schedule: Schedule)
    requires schedule != []
    ensures Begun(schedule) == BegunBy(schedule[0].1) + Begun(schedule[1..])
  {
    var rest := schedule[1..];
    forall call ensures call in Begun(schedule) <==> call in BegunBy(schedule[0].1) + Begun(rest) {
      if call in Begun(schedule) {
        var k :| 0 <= k < |schedule| && schedule[k].1 == Begin(call);
        assert k > 0 ==> rest[k - 1] == schedule[k];
      }
      if call in Begun(rest) {
        var k :| 0 <= k < |rest| && rest[k].1 == Begin(call);
        assert schedule[k + 1] == rest[k];
      }
    }
  }

  /** Every entry of every run is of a valid event of the run that some thread asked to append. */
  lemma EveryEntryWasBrought(s: Setup, schedule: Schedule, i: nat)
    requires Run(s, Initial(s), schedule).Some? && i < |Run(s, Initial(s), schedule).value.ledger.entries|
    ensures var event := Run(s, Initial(s), schedule).value.ledger.entries[i].event;
            && s.validate(event) && event.runId == s.runId
            && exists k :: 0 <= k < |schedule| && schedule[k].1 == Begin(Append(event))
  {
    RunAccounted(s, {}, Initial(s), schedule);
    var event := Run(s, Initial(s), schedule).value.ledger.entries[i].event;
    assert Brought(s, {} + Begun(schedule), event);
  }

  /** The completeness a sealed snapshot shows is the assessment of a `seal` that some thread began. */
  lemma CompletenessWasAsserted(s: Setup, schedule: Schedule, i: nat)
    requires Run(s, Initial(s), schedule).Some? && i < |Run(s, Initial(s), schedule).value.snapshots|
    requires Run(s, Initial(s), schedule).value.snapshots[i].sealed
    ensures exists k :: 0 <= k < |schedule| && schedule[k].1 == Begin(Seal(Run(s, Initial(s), schedule).value.snapshots[i].completeness))
  {
    RunAccounted(s, {}, Initial(s), schedule);
    var w := Run(s, Initial(s), schedule).value;
    assert SnapshotOk(s, w.ledger, Holder(w), w.snapshots[i]);
    assert Seal(w.ledger.completeness) in {} + Begun(schedule);
  }

  // ---- calls that nothing obstructs ---------------------------------------------------------

  /** Steps of thread `t` alone lead from `w` to `w'`. */
  ghost predicate Leads(s: Setup, t: Thread, w: World, w': World) {
    exists schedule: Schedule :: Alone(t, schedule) && Run(s, w, schedule) == Some(w')
  }

  predicate Alone(t: Thread, schedule: Schedule) {
    forall k :: 0 <= k < |schedule| ==> schedule[k].0 == t
  }

  lemma {:induction false} RunFurther(s: Setup, w: World, schedule: Schedule, more: Schedule)
    requires Run(s, w, schedule).Some?
    ensures Run(s, w, schedule + more) == Run(s, Run(s, w, schedule).value, more)
    decreases |schedule|
  {
    if schedule == [] {
      assert schedule + more == more;
    } else {
      assert (schedule + more)[1..] == schedule[1..] + more;
      RunFurther(s, Next(s, w, schedule[0].0, schedule[0].1).value, schedule[1..], more);
    }
  }

  lemma LeadsOn(s: Setup, t: Thread, w: World, x: World, action: Action, w': World)
    requires Leads(s, t, w, x) && Next(s, x, t, action) == Some(w')
    ensures Leads(s, t, w, w')
  {
    var schedule: Schedule :| Alone(t, schedule) && Run(s, w, schedule) == Some(x);
    RunFurther(s, w, schedule, [(t, action)]);
    assert Run(s, x, [(t, action)]) == Run(s, w', []);
    assert Alone(t, schedule + [(t, action)]);
  }

  /** `w` with thread `t` in one call. */
  function In(w: World, t: Thread, frame: Frame): World {
    w.(stacks := w.stacks[t := [frame]])
  }

  function Idle(w: World, t: Thread): World {
    w.(stacks := w.stacks[t := []])
  }

  lemma InMoves(w: World, t: Thread, frame: Frame, pc: Pc)
    ensures In(w, t, frame).Goto(t, pc) == In(w, t, frame.(pc := pc))
    ensures In(w, t, frame).Pop(t) == Idle(w, t)
    ensures In(w, t, frame).Top(t) == frame && In(w, t, frame).Stack(t) == [frame]
  {
    var one := In(w, t, frame);
    assert one.Stack(t) == [frame] && one.Top(t) == frame && [frame][..0] == [];
    assert [frame][..0] + [frame.(pc := pc)] == [frame.(pc := pc)];
    assert one.Goto(t, pc).stacks == w.stacks[t := [frame.(pc := pc)]];
    assert one.Pop(t).stacks == w.stacks[t := []];
  }

  predicate Free(w: World, t: Thread) {
    w.lock == None && w.owner == None && w.Stack(t) == []
  }

  /** A call that is not refused at once waits for the lock. */
  lemma ComesToWait(s: Setup, w: World, t: Thread, call: Call)
    requires Free(w, t)
    requires call.Append? ==> s.validate(call.event) && call.event.runId == s.runId
    ensures Leads(s, t, w, In(w, t, Frame(call, WaitForLock)))
  {
    Begins(s, w, t, call);
    InMoves(w, t, Frame(call, Entered), OwnerCheck);
    Advances(s, w, w, t, Frame(call, Entered), OwnerCheck);
    InMoves(w, t, Frame(call, OwnerCheck), WaitForLock);
    Advances(s, w, w, t, Frame(call, OwnerCheck), WaitForLock);
  }

  /** A mutation takes the lock and becomes the owner. */
  lemma EntersBody(s: Setup, w: World, t: Thread, call: Call)
    requires Free(w, t) && !call.TakeSnapshot?
    requires call.Append? ==> s.validate(call.event) && call.event.runId == s.runId
    ensures Leads(s, t, w, In(w.(lock := Some(t), owner := Some(t)), t, Frame(call, Body)))
  {
    var locked, owned := w.(lock := Some(t)), w.(lock := Some(t), owner := Some(t));
    ComesToWait(s, w, t, call);
    InMoves(w, t, Frame(call, WaitForLock), TakeOwner);
    InMoves(locked, t, Frame(call, WaitForLock), TakeOwner);
    LeadsOn(s, t, w, In(w, t, Frame(call, WaitForLock)), Advance, In(locked, t, Frame(call, TakeOwner)));
    InMoves(locked, t, Frame(call, TakeOwner), Body);
    InMoves(owned, t, Frame(call, TakeOwner), Body);
    LeadsOn(s, t, w, In(locked, t, Frame(call, TakeOwner)), Advance, In(owned, t, Frame(call, Body)));
  }

  lemma Begins(s: Setup, w: World, t: Thread, call: Call)
    requires w.Stack(t) == []
    ensures Leads(s, t, w, In(w, t, Frame(call, Entered)))
  {
    assert Run(s, w, []) == Some(w) && Alone(t, []);
    assert w.Stack(t) + [Frame(call, Entered)] == [Frame(call, Entered)];
    assert w.Push(t, Frame(call, Entered)) == In(w, t, Frame(call, Entered));
    LeadsOn(s, t, w, w, Begin(call), In(w, t, Frame(call, Entered)));
  }

  /** A step that changes only the place in the call. */
  lemma Advances(s: Setup, w: World, x: World, t: Thread, frame: Frame, pc: Pc)
    requires Leads(s, t, w, In(x, t, frame))
    requires Next(s, In(x, t, frame), t, Advance) == Some(In(x, t, frame).Goto(t, pc))
    ensures Leads(s, t, w, In(x, t, frame.(pc := pc)))
  {
    InMoves(x, t, frame, pc);
    LeadsOn(s, t, w, In(x, t, frame), Advance, In(x, t, frame.(pc := pc)));
  }

  /** The end of a mutation: the owner is dropped, the lock released, the call returns. */
  lemma LeavesBody(s: Setup, w: World, x: World, t: Thread, call: Call)
    requires Leads(s, t, w, In(x, t, Frame(call, DropOwner)))
    ensures Leads(s, t, w, Idle(x.(lock := None, owner := None), t))
  {
    var dropped := x.(owner := None);
    InMoves(dropped, t, Frame(call, DropOwner), Unlock);
    InMoves(x, t, Frame(call, DropOwner), Unlock);
    LeadsOn(s, t, w, In(x, t, Frame(call, DropOwner)), Advance, In(dropped, t, Frame(call, Unlock)));
    InMoves(dropped.(lock := None), t, Frame(call, Unlock), Unlock);
    InMoves(dropped, t, Frame(call, Unlock), Unlock);
    LeadsOn(s, t, w, In(dropped, t, Frame(call, Unlock)), Advance, Idle(dropped.(lock := None), t));
  }

  /** The confirmed entry is committed in two steps. */
  lemma Commits(s: Setup, w: World, x: World, t: Thread, call: Call, entry: Entry)
    requires Leads(s, t, w, In(x, t, Frame(call, CommitEntry(entry))))
    ensures Leads(s, t, w, In(x.(ledger := Commit(x.ledger, entry)), t, Frame(call, DropOwner)))
  {
    var frame := Frame(call, CommitEntry(entry));
    var half := x.(ledger := x.ledger.(entries := x.ledger.entries + [entry]));
    InMoves(x, t, frame, CommitId(entry));
    InMoves(half, t, frame, CommitId(entry));
    LeadsOn(s, t, w, In(x, t, frame), Advance, In(half, t, frame.(pc := CommitId(entry))));
    var full := x.(ledger := Commit(x.ledger, entry));
    InMoves(half, t, frame.(pc := CommitId(entry)), DropOwner);
    InMoves(full, t, frame.(pc := CommitId(entry)), DropOwner);
    LeadsOn(s, t, w, In(half, t, frame.(pc := CommitId(entry))), Advance, In(full, t, frame.(pc := DropOwner)));
  }

  /** An append that nothing obstructs, and that the callback confirms if there is one, adds its event. */
  lemma AppendTakesEffect(s: Setup, w: World, t: Thread, event: Event)
    requires Free(w, t) && s.validate(event) && event.runId == s.runId && Admit(s.crypto, w.ledger, event).Ok?
    ensures var entry := Admit(s.crypto, w.ledger, event).value;
            var after := w.(ledger := Commit(w.ledger, entry), acknowledged := if s.durable then w.acknowledged + [entry] else w.acknowledged);
            Leads(s, t, w, Idle(after, t))
  {
    var call, entry := Append(event), Admit(s.crypto, w.ledger, event).value;
    var x := w.(lock := Some(t), owner := Some(t));
    EntersBody(s, w, t, call);
    InMoves(x, t, Frame(call, Body), DropOwner);
    if s.durable {
      Advances(s, w, x, t, Frame(call, Body), InCallback(entry));
      var y := x.(acknowledged := w.acknowledged + [entry]);
      InMoves(x, t, Frame(call, InCallback(entry)), CommitEntry(entry));
      InMoves(y, t, Frame(call, InCallback(entry)), CommitEntry(entry));
      LeadsOn(s, t, w, In(x, t, Frame(call, InCallback(entry))), CallbackReturns(true), In(y, t, Frame(call, CommitEntry(entry))));
      Commits(s, w, y, t, call, entry);
      LeavesBody(s, w, y.(ledger := Commit(w.ledger, entry)), t, call);
    } else {
      Advances(s, w, x, t, Frame(call, Body), CommitEntry(entry));
      Commits(s, w, x, t, call, entry);
      LeavesBody(s, w, x.(ledger := Commit(w.ledger, entry)), t, call);
    }
  }

  /** A seal that nothing obstructs seals the run and hands out the sealed snapshot. */
  lemma SealTakesEffect(s: Setup, w: World, t: Thread, assessment: Completeness)
    requires Free(w, t) && !w.ledger.sealed
    ensures var after := w.(ledger := SealAs(w.ledger, assessment));
            Leads(s, t, w, Idle(after.Record(), t))
  {
    var call, x := Seal(assessment), w.(lock := Some(t), owner := Some(t));
    EntersBody(s, w, t, call);
    InMoves(x, t, Frame(call, Body), SetSealed);
    Advances(s, w, x, t, Frame(call, Body), SetSealed);
    var y := x.(ledger := x.ledger.(sealed := true));
    InMoves(x, t, Frame(call, SetSealed), SetCompleteness);
    InMoves(y, t, Frame(call, SetSealed), SetCompleteness);
    LeadsOn(s, t, w, In(x, t, Frame(call, SetSealed)), Advance, In(y, t, Frame(call, SetCompleteness)));
    SealFinishes(s, w, x, t, assessment);
  }

  lemma SealFinishes(s: Setup, w: World, x: World, t: Thread, assessment: Completeness)
    requires Leads(s, t, w, In(x.(ledger := x.ledger.(sealed := true)), t, Frame(Seal(assessment), SetCompleteness)))
    ensures Leads(s, t, w, Idle(x.(ledger := SealAs(x.ledger, assessment)).Record().(lock := None, owner := None), t))
  {
    var call, y, z := Seal(assessment), x.(ledger := x.ledger.(sealed := true)), x.(ledger := SealAs(x.ledger, assessment));
    InMoves(y, t, Frame(call, SetCompleteness), ReadSnapshot);
    InMoves(z, t, Frame(call, SetCompleteness), ReadSnapshot);
    LeadsOn(s, t, w, In(y, t, Frame(call, SetCompleteness)), Advance, In(z, t, Frame(call, ReadSnapshot)));
    InMoves(z, t, Frame(call, ReadSnapshot), DropOwner);
    InMoves(z.Record(), t, Frame(call, ReadSnapshot), DropOwner);
    LeadsOn(s, t, w, In(z, t, Frame(call, ReadSnapshot)), Advance, In(z.Record(), t, Frame(call, DropOwner)));
    LeavesBody(s, w, z.Record(), t, call);
  }

  /** With the lock, a snapshot is taken and the lock released. */
  lemma SnapshotReturns(s: Setup, w: World, t: Thread)
    requires Leads(s, t, w, In(w.(lock := Some(t)), t, Frame(Call.TakeSnapshot, ReadSnapshot))) && w.lock == None
    ensures Leads(s, t, w, Idle(w.Record(), t))
  {
    var call, x := Call.TakeSnapshot, w.(lock := Some(t));
    var y := x.Record();
    InMoves(x, t, Frame(call, ReadSnapshot), Unlock);
    InMoves(y, t, Frame(call, ReadSnapshot), Unlock);
    LeadsOn(s, t, w, In(x, t, Frame(call, ReadSnapshot)), Advance, In(y, t, Frame(call, Unlock)));
    InMoves(y, t, Frame(call, Unlock), Unlock);
    InMoves(w.Record(), t, Frame(call, Unlock), Unlock);
    assert y.(lock := None) == w.Record();
    LeadsOn(s, t, w, In(y, t, Frame(call, Unlock)), Advance, Idle(w.Record(), t));
  }

  /** A snapshot that nothing obstructs shows the committed entries and changes nothing. */
  lemma SnapshotTakesEffect(s: Setup, w: World, t: Thread)
    requires Free(w, t)
    ensures Leads(s, t, w, Idle(w.Record(), t))
  {
    var call, x := Call.TakeSnapshot, w.(lock := Some(t));
    ComesToWait(s, w, t, call);
    InMoves(w, t, Frame(call, WaitForLock), ReadSnapshot);
    InMoves(x, t, Frame(call, WaitForLock), ReadSnapshot);
    LeadsOn(s, t, w, In(w, t, Frame(call, WaitForLock)), Advance, In(x, t, Frame(call, ReadSnapshot)));
    SnapshotReturns(s, w, t);
  }

  /** From inside the callback a snapshot is answered at once, and a mutation is refused. */
  lemma CallsFromCallback(s: Setup, w: World, t: Thread, frame: Frame, call: Call)
    requires w.owner == Some(t) && w.Stack(t) == [frame] && frame.pc.InCallback?
    requires call.Append? ==> s.validate(call.event) && call.event.runId == s.runId
    ensures Leads(s, t, w, if call.TakeSnapshot? then In(w.Record(), t, frame) else In(w, t, frame))
  {
    assert Run(s, w, []) == Some(w) && Alone(t, []);
    var one, two := w.Push(t, Frame(call, Entered)), w.Push(t, Frame(call, OwnerCheck));
    assert one.Stack(t) == [frame, Frame(call, Entered)] && [frame, Frame(call, Entered)][..1] == [frame];
    assert two.Stack(t) == [frame, Frame(call, OwnerCheck)] && [frame, Frame(call, OwnerCheck)][..1] == [frame];
    LeadsOn(s, t, w, w, Begin(call), one);
    assert one.Goto(t, OwnerCheck).stacks == two.stacks;
    LeadsOn(s, t, w, one, Advance, two);
    assert two.Pop(t).stacks == w.stacks[t := [frame]];
    LeadsOn(s, t, w, two, Advance, if call.TakeSnapshot? then In(w.Record(), t, frame) else In(w, t, frame));
  }
}
