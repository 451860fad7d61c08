/**
 Threads that run `append`, `seal` and `snapshot` on one accumulator in any interleaving. A
 step is one shared-memory action of one thread; while a durable callback runs, its thread may
 start further calls (they run above the suspended append), and it may answer anything.
 The schedule decides everything else.
 */
module Concurrency {
  import opened Prelude
  import opened Events
  import opened EvidenceChain
  import opened Ledger

  type Thread = nat

  datatype Setup = Setup(crypto: Crypto, validate: Event -> bool, runId: string, maxEvents: nat, durable: bool)

  datatype Call = Append(event: Event) | Seal(assessment: Completeness) | TakeSnapshot

  /** Where a call stands: what it does when it moves next. */
  datatype Pc =
    | Entered | OwnerCheck | WaitForLock
    | TakeOwner | Body | InCallback(entry: Entry) | CommitEntry(entry: Entry) | CommitId(entry: Entry)
    | SetSealed | SetCompleteness | ReadSnapshot | DropOwner | Unlock

  datatype Frame = Frame(call: Call, pc: Pc)

  /** `acknowledged` and `snapshots` record what the callback confirmed and what was handed out. */
  datatype World = World(stacks: map<Thread, seq<Frame>>, lock: Option<Thread>, owner: Option<Thread>, ledger: Ledger,
                         acknowledged: seq<Entry>, snapshots: seq<Snapshot>) {
    function Stack(t: Thread): seq<Frame> {
      if t in stacks then stacks[t] else []
    }

    function Top(t: Thread): Frame
      requires Stack(t) != []
    {
      Stack(t)[|Stack(t)| - 1]
    }

    function Push(t: Thread, frame: Frame): World {
      this.(stacks := stacks[t := Stack(t) + [frame]])
    }

    /** The call on top returns or raises. */
    function Pop(t: Thread): World
      requires Stack(t) != []
    {
      this.(stacks := stacks[t := Stack(t)[..|Stack(t)| - 1]])
    }

    function Goto(t: Thread, pc: Pc): World
      requires Stack(t) != []
    {
      this.(stacks := stacks[t := Stack(t)[..|Stack(t)| - 1] + [Top(t).(pc := pc)]])
    }

    function Record(): World {
      this.(snapshots := snapshots + [SnapshotOf(ledger)])
    }
  }

  datatype Action = Begin(call: Call) | Advance | CallbackReturns(acknowledged: bool)

  function Initial(s: Setup): World {
    World(map[], None, None, Empty(s.runId, s.maxEvents), [], [])
  }

  /** The world after thread `t` takes `action`; None when it cannot. */
  function Next(s: Setup, w: World, t: Thread, action: Action): Option<World> {
    match action
    case Begin(call) =>
      if w.Stack(t) == [] || w.Top(t).pc.InCallback? then Some(w.Push(t, Frame(call, Entered))) else None
    case CallbackReturns(acknowledged) =>
      if w.Stack(t) == [] || !w.Top(t).pc.InCallback? then None
      else if acknowledged then
        var entry := w.Top(t).pc.entry;
        Some(w.(acknowledged := w.acknowledged + [entry]).Goto(t, CommitEntry(entry)))
      else Some(w.Goto(t, DropOwner))
    case Advance =>
      if w.Stack(t) == [] then None else AdvanceTop(s, w, t, w.Top(t))
  }

  function AdvanceTop(s: Setup, w: World, t: Thread, top: Frame): Option<World>
    requires w.Stack(t) != [] && top == w.Top(t)
  {
    match top.pc
    case Entered =>
      if top.call.Append? && (!s.validate(top.call.event) || top.call.event.runId != s.runId) then Some(w.Pop(t))
      else Some(w.Goto(t, OwnerCheck))
    case OwnerCheck =>
      if w.owner != Some(t) then Some(w.Goto(t, WaitForLock))
      else if top.call.TakeSnapshot? then Some(w.Record().Pop(t))
      else Some(w.Pop(t))
    case WaitForLock =>
      if w.lock != None then None
      else Some(w.(lock := Some(t)).Goto(t, if top.call.TakeSnapshot? then ReadSnapshot else TakeOwner))
    case TakeOwner => Some(w.(owner := Some(t)).Goto(t, Body))
    case Body => Some(w.Goto(t, AfterChecks(s, w.ledger, top.call)))
    case InCallback(_) => None
    case CommitEntry(entry) =>
      Some(w.(ledger := w.ledger.(entries := w.ledger.entries + [entry])).Goto(t, CommitId(entry)))
    case CommitId(entry) =>
      Some(w.(ledger := w.ledger.(ids := w.ledger.ids + {entry.eventId})).Goto(t, DropOwner))
    case SetSealed => Some(w.(ledger := w.ledger.(sealed := true)).Goto(t, SetCompleteness))
    case SetCompleteness =>
      if !top.call.Seal? then None
      else Some(w.(ledger := w.ledger.(completeness := top.call.assessment)).Goto(t, ReadSnapshot))
    case ReadSnapshot => Some(w.Record().Goto(t, if top.call.TakeSnapshot? then Unlock else DropOwner))
    case DropOwner => Some(w.(owner := None).Goto(t, Unlock))
    case Unlock => Some(w.(lock := None).Pop(t))
  }

  function AfterChecks(s: Setup, l: Ledger, call: Call): (pc: Pc)
    ensures pc.DropOwner? || (call.Append? && (pc.InCallback? || pc.CommitEntry?)) || (call.Seal? && pc.SetSealed?)
  {
    match call
    case Append(event) =>
      (match Admit(s.crypto, l, event)
       case Err(_) => DropOwner
       case Ok(entry) => if s.durable then InCallback(entry) else CommitEntry(entry))
    case Seal(_) => if l.sealed then DropOwner else SetSealed
    case TakeSnapshot => DropOwner
  }

  type Schedule = seq<(Thread, Action)>

  /** A run: the schedule's steps in order, as far as each is possible. */
  function Run(s: Setup, w: World, schedule: Schedule): Option<World>
    decreases |schedule|
  {
    if schedule == [] then Some(w)
    else
      match Next(s, w, schedule[0].0, schedule[0].1)
      case None => None
      case Some(w') => Run(s, w', schedule[1..])
  }

  // ---- the invariant ------------------------------------------------------------------------

  /** Between acquiring and releasing the lock. */
  predicate Critical(pc: Pc) {
    !pc.Entered? && !pc.OwnerCheck? && !pc.WaitForLock?
  }

  /** Between setting and clearing the owner. */
  predicate Owning(frame: Frame) {
    && Critical(frame.pc)
    && !frame.pc.TakeOwner? && !frame.pc.Unlock?
    && (frame.pc.ReadSnapshot? ==> !frame.call.TakeSnapshot?)
  }

  predicate WellTyped(frame: Frame) {
    match frame.pc
    case InCallback(_) => frame.call.Append?
    case CommitEntry(_) => frame.call.Append?
    case CommitId(_) => frame.call.Append?
    case SetSealed => frame.call.Seal?
    case SetCompleteness => frame.call.Seal?
    case ReadSnapshot => !frame.call.Append?
    case TakeOwner => !frame.call.TakeSnapshot?
    case Body => !frame.call.TakeSnapshot?
    case DropOwner => !frame.call.TakeSnapshot?
    case _ => true
  }

  /**
   A thread is in at most one call, except that its callback may have started one that is about
   to be refused. It holds the lock, and is the owner, exactly where its outer call says so.
   */
  ghost predicate StackShape(s: Setup, stack: seq<Frame>, holdsLock: bool, isOwner: bool) {
    && |stack| <= 2
    && (|stack| == 2 ==> stack[0].pc.InCallback? && (stack[1].pc.Entered? || stack[1].pc.OwnerCheck?))
    && (holdsLock <==> stack != [] && Critical(stack[0].pc))
    && (isOwner <==> stack != [] && Owning(stack[0]))
    && (stack != [] ==> WellTyped(stack[0]))
    && (stack != [] && stack[0].call.Append? && !stack[0].pc.Entered? ==> stack[0].call.event.runId == s.runId)
  }

  ghost predicate StackOk(s: Setup, w: World, t: Thread) {
    StackShape(s, w.Stack(t), w.lock == Some(t), w.owner == Some(t))
  }

  /** The outer call of the thread that holds the lock. */
  function Holder(w: World): Option<Frame> {
    if w.lock.Some? && w.Stack(w.lock.value) != [] then Some(w.Stack(w.lock.value)[0]) else None
  }

  /** The ledger as it will be once a half-made commit is finished. */
  function Settled(l: Ledger, holder: Option<Frame>): Ledger {
    if holder.Some? && holder.value.pc.CommitId? then l.(ids := l.ids + {holder.value.pc.entry.eventId}) else l
  }

  /** What the call in the critical section has established so far. */
  ghost predicate Progress(s: Setup, l: Ledger, frame: Frame) {
    && (frame.pc.SetSealed? || frame.pc.CommitId? ==> !l.sealed)
    && (frame.pc.SetCompleteness? ==> l.sealed)
    && (frame.pc.InCallback? ==> s.durable)
    && (frame.pc.InCallback? || frame.pc.CommitEntry? ==>
          && frame.call.Append? && frame.call.event.runId == s.runId
          && Admit(s.crypto, l, frame.call.event) == Ok(frame.pc.entry))
  }

  /** The callback has confirmed exactly the entries, and perhaps one about to be committed. */
  function Confirmed(l: Ledger, holder: Option<Frame>): seq<Entry> {
    if holder.Some? && holder.value.pc.CommitEntry? then l.entries + [holder.value.pc.entry] else l.entries
  }

  ghost predicate DataOk(s: Setup, l: Ledger, acknowledged: seq<Entry>, holder: Option<Frame>) {
    && l.runId == s.runId && l.maxEvents == s.maxEvents
    && Sound(s.crypto, Settled(l, holder))
    && (holder.Some? ==> Progress(s, l, holder.value))
    && (s.durable ==> acknowledged == Confirmed(l, holder))
  }

  /** Between setting the two fields of a seal. */
  predicate Assessing(holder: Option<Frame>) {
    holder.Some? && holder.value.pc.SetCompleteness?
  }

  /** A snapshot handed out earlier, seen from the current world. */
  ghost predicate SnapshotOk(s: Setup, l: Ledger, holder: Option<Frame>, shown: Snapshot) {
    && Verified(s.crypto, shown) && shown.runId == s.runId
    && shown.entries <= l.entries
    && (!shown.sealed ==> shown.completeness == Unknown)
    && (shown.sealed ==> l.sealed && shown == SnapshotOf(l) && !Assessing(holder))
  }

  ghost predicate Invariant(s: Setup, w: World) {
    && (forall t :: StackOk(s, w, t))
    && DataOk(s, w.ledger, w.acknowledged, Holder(w))
    && (forall i :: 0 <= i < |w.snapshots| ==> SnapshotOk(s, w.ledger, Holder(w), w.snapshots[i]))
  }

  // ---- one step, thread by thread -----------------------------------------------------------

  lemma OtherThreads(s: Setup, w: World, t: Thread, action: Action, u: Thread)
    requires StackOk(s, w, t) && StackOk(s, w, u) && Next(s, w, t, action).Some? && u != t
    ensures StackOk(s, Next(s, w, t, action).value, u)
    ensures Next(s, w, t, action).value.Stack(u) == w.Stack(u)
  {
    if w.Stack(t) != [] && action.Advance? {
      assert w.Top(t).pc.DropOwner? ==> Owning(w.Top(t));
    }
  }

  lemma OwnStack(s: Setup, w: World, t: Thread, action: Action)
    requires StackOk(s, w, t) && Next(s, w, t, action).Some?
    ensures StackOk(s, Next(s, w, t, action).value, t)
  {
    if action.Begin? {
      BeginStack(s, w, t, action);
    } else if |w.Stack(t)| == 2 {
      NestedStack(s, w, t);
    } else if action.CallbackReturns? || Critical(w.Stack(t)[0].pc) {
      InsideStack(s, w, t, action);
    } else {
      OutsideStack(s, w, t);
    }
  }

  lemma BeginStack(s: Setup, w: World, t: Thread, action: Action)
    requires StackOk(s, w, t) && Next(s, w, t, action).Some? && action.Begin?
    ensures StackOk(s, Next(s, w, t, action).value, t)
  {
  }

  /** A call that was started from inside the callback. */
  lemma NestedStack(s: Setup, w: World, t: Thread)
    requires StackOk(s, w, t) && Next(s, w, t, Advance).Some? && |w.Stack(t)| == 2
    ensures StackOk(s, Next(s, w, t, Advance).value, t)
  {
    var stack, w' := w.Stack(t), Next(s, w, t, Advance).value;
    assert w'.Stack(t) == [stack[0]] || (|w'.Stack(t)| == 2 && w'.Stack(t)[0] == stack[0]);
  }

  /** A call that does not hold the lock yet. */
  lemma OutsideStack(s: Setup, w: World, t: Thread)
    requires StackOk(s, w, t) && Next(s, w, t, Advance).Some? && |w.Stack(t)| == 1 && !Critical(w.Stack(t)[0].pc)
    ensures StackOk(s, Next(s, w, t, Advance).value, t)
  {
    var stack, w' := w.Stack(t), Next(s, w, t, Advance).value;
    assert w.Top(t) == stack[0] && stack[..0] == [];
    assert w'.Stack(t) == [] || |w'.Stack(t)| == 1;
  }

  /** A call that holds the lock. */
  lemma InsideStack(s: Setup, w: World, t: Thread, action: Action)
    requires StackOk(s, w, t) && Next(s, w, t, action).Some? && !action.Begin?
    requires |w.Stack(t)| == 1 && Critical(w.Stack(t)[0].pc)
    ensures StackOk(s, Next(s, w, t, action).value, t)
  {
    var frame := w.Stack(t)[0];
    assert w.Top(t) == frame && w.Stack(t)[..0] == [];
    if action.CallbackReturns? {
      assert |Next(s, w, t, action).value.Stack(t)| == 1;
    } else if Mutating(frame.pc) {
      MutatingStack(s, w, t, frame);
    } else {
      PlainStack(s, w, t, frame);
    }
  }

  predicate Mutating(pc: Pc) {
    pc.Body? || pc.CommitEntry? || pc.CommitId? || pc.SetSealed? || pc.SetCompleteness?
  }

  lemma MutatingStack(s: Setup, w: World, t: Thread, frame: Frame)
    requires StackOk(s, w, t) && Next(s, w, t, Advance).Some? && w.Stack(t) == [frame] && Mutating(frame.pc)
    ensures StackOk(s, Next(s, w, t, Advance).value, t)
  {
    assert w.Top(t) == frame && w.Stack(t)[..0] == [];
    assert |Next(s, w, t, Advance).value.Stack(t)| == 1;
  }

  lemma PlainStack(s: Setup, w: World, t: Thread, frame: Frame)
    requires StackOk(s, w, t) && Next(s, w, t, Advance).Some? && w.Stack(t) == [frame] && Critical(frame.pc) && !Mutating(frame.pc)
    ensures StackOk(s, Next(s, w, t, Advance).value, t)
  {
    var w' := Next(s, w, t, Advance).value;
    assert w.Top(t) == frame && w.Stack(t)[..0] == [];
    assert w'.Stack(t) == [] || |w'.Stack(t)| == 1;
  }

  // ---- one step, on the data ----------------------------------------------------------------

  predicate Quiet(holder: Option<Frame>) {
    holder.Some? ==>
      var pc := holder.value.pc;
      !pc.InCallback? && !pc.CommitEntry? && !pc.CommitId? && !pc.SetSealed? && !pc.SetCompleteness?
  }

  lemma QuietData(s: Setup, l: Ledger, acknowledged: seq<Entry>, before: Option<Frame>, after: Option<Frame>)
    requires Quiet(before) && Quiet(after) && DataOk(s, l, acknowledged, before)
    ensures DataOk(s, l, acknowledged, after)
  {
  }

  /** What one step of the lock holder may do to the ledger. */
  ghost predicate Grows(before: Ledger, after: Ledger) {
    && before.runId == after.runId && before.maxEvents == after.maxEvents
    && before.entries <= after.entries && before.ids <= after.ids
    && (before.sealed ==> after == before.(completeness := after.completeness))
  }

  lemma ChecksData(s: Setup, l: Ledger, acknowledged: seq<Entry>, frame: Frame)
    requires frame.pc.Body? && DataOk(s, l, acknowledged, Some(frame))
    requires frame.call.Append? ==> frame.call.event.runId == s.runId
    ensures DataOk(s, l, acknowledged, Some(frame.(pc := AfterChecks(s, l, frame.call))))
  {
  }

  lemma CallbackData(s: Setup, l: Ledger, acknowledged: seq<Entry>, frame: Frame, confirmed: bool)
    requires frame.pc.InCallback? && DataOk(s, l, acknowledged, Some(frame))
    ensures if confirmed then DataOk(s, l, acknowledged + [frame.pc.entry], Some(frame.(pc := CommitEntry(frame.pc.entry))))
            else DataOk(s, l, acknowledged, Some(frame.(pc := DropOwner)))
  {
  }

  lemma CommitData(s: Setup, l: Ledger, acknowledged: seq<Entry>, frame: Frame)
    requires frame.pc.CommitEntry? && DataOk(s, l, acknowledged, Some(frame))
    ensures !l.sealed
    ensures DataOk(s, l.(entries := l.entries + [frame.pc.entry]), acknowledged, Some(frame.(pc := CommitId(frame.pc.entry))))
  {
    CommitKeepsSound(s.crypto, l, frame.call.event);
    var l' := l.(entries := l.entries + [frame.pc.entry]);
    assert Settled(l', Some(frame.(pc := CommitId(frame.pc.entry)))) == Commit(l, frame.pc.entry);
  }

  lemma CommitIdData(s: Setup, l: Ledger, acknowledged: seq<Entry>, frame: Frame)
    requires frame.pc.CommitId? && DataOk(s, l, acknowledged, Some(frame))
    ensures DataOk(s, l.(ids := l.ids + {frame.pc.entry.eventId}), acknowledged, Some(frame.(pc := DropOwner)))
  {
  }

  lemma SealData(s: Setup, l: Ledger, acknowledged: seq<Entry>, frame: Frame, assessment: Completeness)
    requires DataOk(s, l, acknowledged, Some(frame))
    ensures frame.pc.SetSealed? ==> DataOk(s, l.(sealed := true), acknowledged, Some(frame.(pc := SetCompleteness)))
    ensures frame.pc.SetCompleteness? ==> DataOk(s, l.(completeness := assessment), acknowledged, Some(frame.(pc := ReadSnapshot)))
  {
  }

  /** A step of a thread without the lock changes no data; it may take a free lock. */
  lemma OutsideStep(s: Setup, w: World, t: Thread, action: Action)
    requires Invariant(s, w) && Next(s, w, t, action).Some? && w.lock != Some(t)
    ensures var w' := Next(s, w, t, action).value;
            && w'.ledger == w.ledger && w'.acknowledged == w.acknowledged && w'.snapshots == w.snapshots
            && DataOk(s, w'.ledger, w'.acknowledged, Holder(w'))
            && !(w.lock == None && Assessing(Holder(w'))) && (w.lock != None ==> Holder(w') == Holder(w))
  {
    var w' := Next(s, w, t, action).value;
    assert StackOk(s, w, t);
    assert |w.Stack(t)| <= 1;
    if w.lock.Some? {
      assert StackOk(s, w, w.lock.value);
      OtherThreads(s, w, t, action, w.lock.value);
      assert Holder(w') == Holder(w);
    } else {
      QuietData(s, w.ledger, w.acknowledged, Holder(w), Holder(w'));
    }
  }

  /** A call made from inside the callback changes nothing; `snapshot` shows what is committed. */
  lemma NestedStep(s: Setup, w: World, t: Thread, action: Action)
    requires Invariant(s, w) && Next(s, w, t, action).Some?
    requires action.Begin? || |w.Stack(t)| == 2
    ensures var w' := Next(s, w, t, action).value;
            && w'.ledger == w.ledger && w'.acknowledged == w.acknowledged && w'.lock == w.lock && w'.owner == w.owner
            && Holder(w') == Holder(w)
            && (w'.snapshots == w.snapshots || (w'.snapshots == w.snapshots + [SnapshotOf(w.ledger)] && !Assessing(Holder(w))))
  {
    assert StackOk(s, w, t);
    var w' := Next(s, w, t, action).value;
    if w.lock.Some? && w.lock.value != t {
      assert StackOk(s, w, w.lock.value);
      OtherThreads(s, w, t, action, w.lock.value);
    } else if w.lock == Some(t) {
      assert w'.Stack(t) != [] && w'.Stack(t)[0] == w.Stack(t)[0];
      assert Holder(w) == Some(w.Stack(t)[0]);
    }
  }

  /** What a step of the lock holder leaves true. */
  ghost predicate StepsWell(s: Setup, w: World, w': World) {
    && Grows(w.ledger, w'.ledger)
    && DataOk(s, w'.ledger, w'.acknowledged, Holder(w'))
    && (w'.snapshots == w.snapshots || (w'.snapshots == w.snapshots + [SnapshotOf(w.ledger)] && w'.ledger == w.ledger && !Assessing(Holder(w))))
    && (w.ledger.sealed && !Assessing(Holder(w)) ==> w'.ledger == w.ledger && !Assessing(Holder(w')))
    && w.acknowledged <= w'.acknowledged
  }

  lemma InsideStep(s: Setup, w: World, t: Thread, action: Action)
    requires Invariant(s, w) && Next(s, w, t, action).Some?
    requires w.lock == Some(t) && |w.Stack(t)| == 1 && !action.Begin?
    ensures StepsWell(s, w, Next(s, w, t, action).value)
  {
    assert StackOk(s, w, t);
    if action.CallbackReturns? {
      CallbackStep(s, w, t, action.acknowledged);
    } else if Mutating(w.Stack(t)[0].pc) {
      MutationStep(s, w, t, w.Stack(t)[0]);
    } else {
      PlainStep(s, w, t, w.Stack(t)[0]);
    }
  }

  lemma CallbackStep(s: Setup, w: World, t: Thread, acknowledged: bool)
    requires Invariant(s, w) && Next(s, w, t, CallbackReturns(acknowledged)).Some?
    requires w.lock == Some(t) && |w.Stack(t)| == 1
    ensures StepsWell(s, w, Next(s, w, t, CallbackReturns(acknowledged)).value)
  {
    var w', frame := Next(s, w, t, CallbackReturns(acknowledged)).value, w.Stack(t)[0];
    assert w.Top(t) == frame && Holder(w) == Some(frame) && w.Stack(t)[..0] == [];
    CallbackData(s, w.ledger, w.acknowledged, frame, acknowledged);
    assert Holder(w') == Some(w'.Stack(t)[0]);
  }

  /** The steps of the body that change or decide something. */
  lemma MutationStep(s: Setup, w: World, t: Thread, frame: Frame)
    requires Invariant(s, w) && StackOk(s, w, t) && Next(s, w, t, Advance).Some?
    requires w.lock == Some(t) && w.Stack(t) == [frame] && Mutating(frame.pc)
    ensures StepsWell(s, w, Next(s, w, t, Advance).value)
  {
    var w' := Next(s, w, t, Advance).value;
    assert w.Top(t) == frame && Holder(w) == Some(frame) && w.Stack(t)[..0] == [];
    assert Holder(w') == Some(w'.Stack(t)[0]) && w'.Stack(t)[0] == frame.(pc := w'.Stack(t)[0].pc);
    match frame.pc {
      case Body => ChecksData(s, w.ledger, w.acknowledged, frame);
      case CommitEntry(_) => CommitData(s, w.ledger, w.acknowledged, frame);
      case CommitId(_) => CommitIdData(s, w.ledger, w.acknowledged, frame);
      case SetSealed => SealData(s, w.ledger, w.acknowledged, frame, Unknown);
      case SetCompleteness => SealData(s, w.ledger, w.acknowledged, frame, frame.call.assessment);
      case _ =>
    }
  }

  /** The steps around the body: taking and dropping the ownership, reading a snapshot, releasing the lock. */
  lemma PlainStep(s: Setup, w: World, t: Thread, frame: Frame)
    requires Invariant(s, w) && StackOk(s, w, t) && Next(s, w, t, Advance).Some?
    requires w.lock == Some(t) && w.Stack(t) == [frame] && !Mutating(frame.pc)
    ensures StepsWell(s, w, Next(s, w, t, Advance).value)
  {
    var w' := Next(s, w, t, Advance).value;
    assert w.Top(t) == frame && Holder(w) == Some(frame) && w.Stack(t)[..0] == [];
    if frame.pc.Unlock? {
      assert Holder(w') == None;
    } else {
      assert Holder(w') == Some(w'.Stack(t)[0]) && w'.Stack(t)[0] == frame.(pc := w'.Stack(t)[0].pc);
    }
    QuietData(s, w.ledger, w.acknowledged, Some(frame), Holder(w'));
  }

  // ---- every run ----------------------------------------------------------------------------

  lemma SnapshotsStay(s: Setup, before: Ledger, after: Ledger, holder: Option<Frame>, holder': Option<Frame>, shown: Snapshot)
    requires SnapshotOk(s, before, holder, shown) && Grows(before, after)
    requires shown.sealed ==> after == before && !Assessing(holder')
    ensures SnapshotOk(s, after, holder', shown)
  {
  }

  lemma StepKeepsInvariant(s: Setup, w: World, t: Thread, action: Action)
    requires Invariant(s, w) && Next(s, w, t, action).Some?
    ensures var w' := Next(s, w, t, action).value;
            && Invariant(s, w')
            && Grows(w.ledger, w'.ledger) && w.acknowledged <= w'.acknowledged && w.snapshots <= w'.snapshots
            && (w.ledger.sealed && !Assessing(Holder(w)) ==> w'.ledger == w.ledger && !Assessing(Holder(w')))
  {
    var w' := Next(s, w, t, action).value;
    assert StackOk(s, w, t);
    OwnStack(s, w, t, action);
    forall u | u != t ensures StackOk(s, w', u) {
      assert StackOk(s, w, u);
      OtherThreads(s, w, t, action, u);
    }
    if w.lock != Some(t) {
      OutsideStep(s, w, t, action);
      assert w.lock == None ==> !Assessing(Holder(w));
    } else if action.Begin? || |w.Stack(t)| == 2 {
      NestedStep(s, w, t, action);
    } else {
      InsideStep(s, w, t, action);
    }
    forall i | 0 <= i < |w'.snapshots| ensures SnapshotOk(s, w'.ledger, Holder(w'), w'.snapshots[i]) {
      if i < |w.snapshots| {
        assert SnapshotOk(s, w.ledger, Holder(w), w.snapshots[i]);
        SnapshotsStay(s, w.ledger, w'.ledger, Holder(w), Holder(w'), w.snapshots[i]);
      } else {
        assert w'.snapshots[i] == SnapshotOf(w.ledger) && w'.ledger == w.ledger;
        SnapshotVerifies(s.crypto, w.ledger);
      }
    }
  }

  lemma {:induction false} RunKeepsInvariant(s: Setup, w: World, schedule: Schedule)
    requires Invariant(s, w) && Run(s, w, schedule).Some?
    ensures var w' := Run(s, w, schedule).value;
            && Invariant(s, w')
            && Grows(w.ledger, w'.ledger) && w.acknowledged <= w'.acknowledged && w.snapshots <= w'.snapshots
            && (w.ledger.sealed && !Assessing(Holder(w)) ==> w'.ledger == w.ledger)
    decreases |schedule|
  {
    if schedule != [] {
      StepKeepsInvariant(s, w, schedule[0].0, schedule[0].1);
      RunKeepsInvariant(s, Next(s, w, schedule[0].0, schedule[0].1).value, schedule[1..]);
    }
  }

  ghost predicate Reachable(s: Setup, w: World) {
    exists schedule :: Run(s, Initial(s), schedule) == Some(w)
  }

  lemma ReachableInvariant(s: Setup, w: World)
    requires Reachable(s, w)
    ensures Invariant(s, w)
  {
    var schedule :| Run(s, Initial(s), schedule) == Some(w);
    RunKeepsInvariant(s, Initial(s), schedule);
  }

  /** A thread that waits for the lock does not hold it, and then some other thread can move. */
  lemma NoSelfDeadlock(s: Setup, w: World, t: Thread)
    requires Reachable(s, w)
    requires w.Stack(t) != [] && w.Top(t).pc.WaitForLock?
    ensures w.lock != Some(t)
    ensures if w.lock == None then Next(s, w, t, Advance).Some?
            else Next(s, w, w.lock.value, Advance).Some? || Next(s, w, w.lock.value, CallbackReturns(false)).Some?
  {
    ReachableInvariant(s, w);
    assert StackOk(s, w, t);
    if w.lock.Some? {
      assert StackOk(s, w, w.lock.value);
    }
  }

  /** At most one thread is between acquiring and releasing the lock, and only it is the owner. */
  lemma OneMutation(s: Setup, w: World, t: Thread, u: Thread)
    requires Reachable(s, w) && w.Stack(t) != [] && w.Stack(u) != []
    requires Critical(w.Stack(t)[0].pc) && Critical(w.Stack(u)[0].pc)
    ensures t == u && (w.owner == None || w.owner == Some(t))
  {
    ReachableInvariant(s, w);
    assert StackOk(s, w, t) && StackOk(s, w, u);
    if w.owner.Some? {
      assert StackOk(s, w, w.owner.value);
    }
  }

  /** At every moment: unique ids, bounded size, one verifiable chain. */
  lemma AlwaysSound(s: Setup, w: World)
    requires Reachable(s, w)
    ensures DistinctIds(w.ledger.entries) && |w.ledger.entries| <= s.maxEvents
    ensures Chain(s.crypto, s.runId, w.ledger.entries)
    ensures s.durable ==> w.ledger.entries <= w.acknowledged && |w.acknowledged| <= |w.ledger.entries| + 1
    ensures s.durable && w.lock == None ==> w.acknowledged == w.ledger.entries
  {
    ReachableInvariant(s, w);
  }

  /** Every snapshot ever handed out verifies; all sealed ones are the same one. */
  lemma SnapshotsAgree(s: Setup, w: World, i: nat, j: nat)
    requires Reachable(s, w) && i < |w.snapshots| && j < |w.snapshots|
    ensures Verified(s.crypto, w.snapshots[i])
    ensures !w.snapshots[i].sealed ==> w.snapshots[i].completeness == Unknown
    ensures w.snapshots[i].sealed && w.snapshots[j].sealed ==> w.snapshots[i] == w.snapshots[j]
    ensures w.snapshots[i].sealed ==> w.snapshots[j].entries <= w.snapshots[i].entries
  {
    ReachableInvariant(s, w);
    assert SnapshotOk(s, w.ledger, Holder(w), w.snapshots[i]) && SnapshotOk(s, w.ledger, Holder(w), w.snapshots[j]);
  }

  /** Once a sealed snapshot is out, no run changes the evidence any more. */
  lemma SealedIsFinal(s: Setup, w: World, i: nat, schedule: Schedule)
    requires Reachable(s, w) && i < |w.snapshots| && w.snapshots[i].sealed
    requires Run(s, w, schedule).Some?
    ensures Run(s, w, schedule).value.ledger == w.ledger
    ensures SnapshotOf(Run(s, w, schedule).value.ledger) == w.snapshots[i]
  {
    ReachableInvariant(s, w);
    assert SnapshotOk(s, w.ledger, Holder(w), w.snapshots[i]);
    RunKeepsInvariant(s, w, schedule);
  }
}
