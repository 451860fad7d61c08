/**
 The durable log behind the accumulator's callback, under faults. A write can fail before a
 line is on disk, or after it but before its id is remembered; a reply can be lost after both.
 The accumulator then keeps its old state, and the caller is expected to retry.

 A line is either on disk or not (torn writes are left out), and the log starts empty.
 */
module DurableLog {
  import opened Prelude
  import opened Events
  import opened EvidenceChain
  import opened Ledger

  datatype Fault = NoFault | BeforeWrite | AfterWrite | ReplyLost

  datatype Store = Store(lines: seq<Entry>, ids: set<string>)

  /** What one `append` does to the store, and whether the caller hears True. */
  function Persist(s: Store, entry: Entry, fault: Fault): (Store, bool) {
    if entry.eventId in s.ids then (s, fault != ReplyLost)
    else match fault
      case BeforeWrite => (s, false)
      case AfterWrite => (s.(lines := s.lines + [entry]), false)
      case ReplyLost => (Store(s.lines + [entry], s.ids + {entry.eventId}), false)
      case NoFault => (Store(s.lines + [entry], s.ids + {entry.eventId}), true)
  }

  class JsonlEvidenceStore {
    var lines: seq<Entry>
    var eventIds: set<string>

    function Contents(): Store
      reads this
    {
      Store(lines, eventIds)
    }

    constructor ()
      ensures Contents() == Store([], {})
    {
      lines, eventIds := [], {};
    }

    method Append(entry: Entry, fault: Fault) returns (acknowledged: bool)
      modifies this
      ensures (Contents(), acknowledged) == Persist(old(Contents()), entry, fault)
      // field by field
      ensures lines == if entry.eventId in old(eventIds) || fault == BeforeWrite then old(lines) else old(lines) + [entry]
      ensures acknowledged ==> entry.eventId in eventIds
      ensures entry.eventId in old(eventIds) ==> eventIds == old(eventIds) && (acknowledged <==> fault != ReplyLost)
      ensures entry.eventId !in old(eventIds) ==> (acknowledged <==> fault == NoFault)
      ensures entry.eventId !in old(eventIds) ==> (entry.eventId in eventIds <==> fault == NoFault || fault == ReplyLost)
    {
      if entry.eventId in eventIds {
        return fault != ReplyLost;
      }
      if fault == BeforeWrite {
        return false;
      }
      lines := lines + [entry];
      if fault == AfterWrite {
        return false;
      }
      eventIds := eventIds + {entry.eventId};
      return fault != ReplyLost;
    }
  }

  // ---- runs ---------------------------------------------------------------------------------

  datatype World = World(ledger: Ledger, store: Store)

  datatype Step = Append(event: Event, fault: Fault) | Seal(completeness: Completeness)

  function Attempt(c: Crypto, l: Ledger, event: Event): Result<Entry, EvidenceError> {
    if event.runId != l.runId then Err(WrongRun) else Admit(c, l, event)
  }

  function Next(c: Crypto, w: World, step: Step): World {
    match step
    case Seal(completeness) => if w.ledger.sealed then w else w.(ledger := SealAs(w.ledger, completeness))
    case Append(event, fault) =>
      match Attempt(c, w.ledger, event)
      case Err(_) => w
      case Ok(entry) =>
        var (store, acknowledged) := Persist(w.store, entry, fault);
        World(if acknowledged then Commit(w.ledger, entry) else w.ledger, store)
  }

  function Start(runId: string, maxEvents: nat): World {
    World(Empty(runId, maxEvents), Store([], {}))
  }

  function After(c: Crypto, w: World, steps: seq<Step>): World {
    if steps == [] then w else Next(c, After(c, w, steps[..|steps| - 1]), steps[|steps| - 1])
  }

  function IdsIn(entries: seq<Entry>): set<string> {
    set e | e in entries :: e.eventId
  }

  /** The log with repeated event ids collapsed: the first line of each id. */
  function Collapse(lines: seq<Entry>): (r: seq<Entry>)
    ensures IdsIn(r) == IdsIn(lines)
  {
    if lines == [] then [] else
      var before, last := Collapse(lines[..|lines| - 1]), lines[|lines| - 1];
      assert lines == lines[..|lines| - 1] + [last];
      JoinedIds(lines[..|lines| - 1], [last]);
      JoinedIds(before, [last]);
      if last.eventId in IdsIn(before) then before else before + [last]
  }

  /** `line` is the `i`th line, and the first one with its id. */
  ghost predicate FirstOfId(lines: seq<Entry>, line: Entry, i: int) {
    0 <= i < |lines| && lines[i] == line && forall j :: 0 <= j < i ==> lines[j].eventId != line.eventId
  }

  lemma FirstOfLonger(lines: seq<Entry>, last: Entry, line: Entry, i: int)
    ensures i != |lines| ==> (FirstOfId(lines + [last], line, i) <==> FirstOfId(lines, line, i))
    ensures FirstOfId(lines + [last], line, |lines|) <==> line == last && last.eventId !in IdsIn(lines)
  {
    var longer := lines + [last];
    assert forall j :: 0 <= j < |lines| ==> longer[j] == lines[j];
    if line == last && last.eventId !in IdsIn(lines) {
      forall j | 0 <= j < |lines| ensures longer[j].eventId != line.eventId {
        assert lines[j] in lines;
      }
    }
    if line == last && last.eventId in IdsIn(lines) {
      var e :| e in lines && e.eventId == last.eventId;
      var j :| 0 <= j < |lines| && lines[j] == e;
      assert longer[j].eventId == line.eventId;
    }
  }

  /** The collapsed log keeps, of every id, the line that was written first. */
  lemma {:induction false} CollapseMeans(lines: seq<Entry>, line: Entry)
    ensures line in Collapse(lines) <==> exists i :: FirstOfId(lines, line, i)
  {
    if lines != [] {
      var n := |lines| - 1;
      CollapseMeans(lines[..n], line);
      assert lines == lines[..n] + [lines[n]];
      CollapseNext(lines[..n], lines[n]);
      if i :| FirstOfId(lines, line, i) {
        FirstOfLonger(lines[..n], lines[n], line, i);
      }
      if i :| FirstOfId(lines[..n], line, i) {
        FirstOfLonger(lines[..n], lines[n], line, i);
        assert FirstOfId(lines, line, i);
      }
      FirstOfLonger(lines[..n], lines[n], line, n);
    }
  }

  lemma CollapseNext(lines: seq<Entry>, entry: Entry)
    ensures Collapse(lines + [entry]) == if entry.eventId in IdsIn(lines) then Collapse(lines) else Collapse(lines) + [entry]
  {
    assert (lines + [entry])[..|lines|] == lines;
  }

  lemma JoinedIds(entries: seq<Entry>, more: seq<Entry>)
    ensures IdsIn(entries + more) == IdsIn(entries) + IdsIn(more)
  {
  }

  function Log(w: World): seq<Entry> {
    Collapse(w.store.lines)
  }

  /** The entry that is on disk but not committed locally. */
  function InFlight(w: World): Option<Entry> {
    if |Log(w)| > |w.ledger.entries| then Some(Log(w)[|w.ledger.entries|]) else None
  }

  /** The ledger as if it were still open. */
  function Open(l: Ledger): Ledger {
    l.(sealed := false)
  }

  /** The collapsed log is the local entries, plus at most one entry that the ledger could take next. */
  ghost predicate Refines(c: Crypto, w: World) {
    && Sound(c, w.ledger)
    && w.ledger.entries <= Log(w) && |Log(w)| <= |w.ledger.entries| + 1
    && (InFlight(w).Some? ==> Attempt(c, Open(w.ledger), InFlight(w).value.event) == Ok(InFlight(w).value))
    && w.store.ids <= IdsIn(w.store.lines)
  }

  /** True is answered only for an id that is on disk, in every run of appends. */
  lemma AcknowledgedIsOnDisk(s: Store, entry: Entry, fault: Fault)
    requires s.ids <= IdsIn(s.lines)
    ensures var (after, acknowledged) := Persist(s, entry, fault);
            && after.ids <= IdsIn(after.lines) && s.lines <= after.lines
            && (acknowledged ==> exists line :: line in after.lines && line.eventId == entry.eventId)
  {
    Written(s, entry, fault);
    var (after, acknowledged) := Persist(s, entry, fault);
    if acknowledged {
      assert entry.eventId in IdsIn(after.lines);
    }
  }

  // ---- exactly which steps keep that --------------------------------------------------------

  /**
   While an entry is in flight, an append of another event does no harm only if nothing is
   written for it or, when it reuses the id in flight, if it is not acknowledged.
   */
  predicate SafeStep(c: Crypto, w: World, step: Step) {
    step.Append? && InFlight(w).Some? && Attempt(c, w.ledger, step.event).Ok? ==>
      var pending, entry := InFlight(w).value, Attempt(c, w.ledger, step.event).value;
      || entry == pending
      || if entry.eventId == pending.eventId then !Persist(w.store, entry, step.fault).1 else step.fault == BeforeWrite
  }

  lemma LedgerIds(c: Crypto, l: Ledger)
    requires Sound(c, l)
    ensures IdsIn(l.entries) == l.ids
  {
    forall id | id in l.ids ensures id in IdsIn(l.entries) {
      var i :| 0 <= i < |l.entries| && l.entries[i].eventId == id;
      assert l.entries[i] in l.entries;
    }
  }

  /** The log is the entries, or the entries and the one in flight. */
  lemma LogShape(c: Crypto, w: World)
    requires Refines(c, w)
    ensures Log(w) == w.ledger.entries + (if InFlight(w).Some? then [InFlight(w).value] else [])
    ensures IdsIn(w.store.lines) == w.ledger.ids + (if InFlight(w).Some? then {InFlight(w).value.eventId} else {})
  {
    LedgerIds(c, w.ledger);
    var pending := if InFlight(w).Some? then [InFlight(w).value] else [];
    assert Log(w) == w.ledger.entries + pending;
    JoinedIds(w.ledger.entries, pending);
    assert IdsIn(pending) == if InFlight(w).Some? then {InFlight(w).value.eventId} else {};
  }

  /** What a line adds to the log. */
  lemma Written(s: Store, entry: Entry, fault: Fault)
    requires s.ids <= IdsIn(s.lines)
    ensures var after := Persist(s, entry, fault).0;
            && after.ids <= IdsIn(after.lines)
            && Collapse(after.lines) == if entry.eventId in IdsIn(s.lines) || fault == BeforeWrite then Collapse(s.lines) else Collapse(s.lines) + [entry]
  {
    CollapseNext(s.lines, entry);
    JoinedIds(s.lines, [entry]);
    assert entry in [entry];
  }

  lemma FirstAttemptRefines(c: Crypto, w: World, entry: Entry, fault: Fault)
    requires Refines(c, w) && InFlight(w).None? && Attempt(c, w.ledger, entry.event) == Ok(entry)
    ensures Refines(c, Next(c, w, Append(entry.event, fault)))
  {
    LogShape(c, w);
    Written(w.store, entry, fault);
    CommitKeepsSound(c, w.ledger, entry.event);
    assert Open(w.ledger) == w.ledger;
    assert w.ledger.entries + [] == w.ledger.entries;
  }

  lemma RetryRefines(c: Crypto, w: World, entry: Entry, fault: Fault)
    requires Refines(c, w) && InFlight(w) == Some(entry) && Attempt(c, w.ledger, entry.event) == Ok(entry)
    ensures Refines(c, Next(c, w, Append(entry.event, fault)))
  {
    LogShape(c, w);
    Written(w.store, entry, fault);
    CommitKeepsSound(c, w.ledger, entry.event);
  }

  /** Another event with the id in flight: the log keeps the first line, so it must not be committed. */
  lemma SameIdRefinesIff(c: Crypto, w: World, entry: Entry, fault: Fault)
    requires Refines(c, w) && InFlight(w).Some? && Attempt(c, w.ledger, entry.event) == Ok(entry)
    requires entry != InFlight(w).value && entry.eventId == InFlight(w).value.eventId
    ensures Refines(c, Next(c, w, Append(entry.event, fault))) <==> !Persist(w.store, entry, fault).1
  {
    LogShape(c, w);
    Written(w.store, entry, fault);
    var after := Next(c, w, Append(entry.event, fault));
    assert Log(after) == Log(w);
    if Persist(w.store, entry, fault).1 {
      assert after.ledger.entries[|w.ledger.entries|] == entry && Log(after)[|w.ledger.entries|] == InFlight(w).value;
    } else {
      assert after.ledger == w.ledger && InFlight(after) == InFlight(w);
    }
  }

  /** Another event with another id: a second line is one too many. */
  lemma OtherIdRefinesIff(c: Crypto, w: World, entry: Entry, fault: Fault)
    requires Refines(c, w) && InFlight(w).Some? && Attempt(c, w.ledger, entry.event) == Ok(entry)
    requires entry.eventId != InFlight(w).value.eventId
    ensures Refines(c, Next(c, w, Append(entry.event, fault))) <==> fault == BeforeWrite
  {
    LogShape(c, w);
    Written(w.store, entry, fault);
    assert entry.eventId !in w.store.ids;
    var after := Next(c, w, Append(entry.event, fault));
    if fault == BeforeWrite {
      assert after == w;
    } else {
      assert Log(after) == Log(w) + [entry];
      assert Log(after)[|w.ledger.entries|] == InFlight(w).value;
    }
  }

  /** A step keeps log and entries together exactly when it is safe. */
  lemma StepRefinesIff(c: Crypto, w: World, step: Step)
    requires Refines(c, w)
    ensures Refines(c, Next(c, w, step)) <==> SafeStep(c, w, step)
  {
    if step.Append? && Attempt(c, w.ledger, step.event).Ok? {
      var entry := Attempt(c, w.ledger, step.event).value;
      if InFlight(w).None? {
        FirstAttemptRefines(c, w, entry, step.fault);
      } else if entry == InFlight(w).value {
        RetryRefines(c, w, entry, step.fault);
      } else if entry.eventId == InFlight(w).value.eventId {
        SameIdRefinesIff(c, w, entry, step.fault);
      } else {
        OtherIdRefinesIff(c, w, entry, step.fault);
      }
    }
  }

  /** A caller who cannot know the fault is safe exactly when it retries the event in flight. */
  lemma RetryingIsWhatKeepsItSafe(c: Crypto, w: World, event: Event)
    requires Refines(c, w) && InFlight(w).Some? && Attempt(c, w.ledger, event).Ok?
    ensures (forall fault :: Refines(c, Next(c, w, Append(event, fault)))) <==> event == InFlight(w).value.event
  {
    forall fault ensures Refines(c, Next(c, w, Append(event, fault))) <==> SafeStep(c, w, Append(event, fault)) {
      StepRefinesIff(c, w, Append(event, fault));
    }
    assert Open(w.ledger) == w.ledger;
    var entry := Attempt(c, w.ledger, event).value;
    assert entry == InFlight(w).value <==> event == InFlight(w).value.event;
    if entry != InFlight(w).value {
      assert !SafeStep(c, w, Append(event, NoFault));
    }
  }

  // ---- every run ----------------------------------------------------------------------------

  ghost predicate Safe(c: Crypto, w: World, steps: seq<Step>) {
    forall n :: 0 <= n < |steps| ==> SafeStep(c, After(c, w, steps[..n]), steps[n])
  }

  ghost predicate RefinesThroughout(c: Crypto, w: World, steps: seq<Step>) {
    forall n :: 0 <= n <= |steps| ==> Refines(c, After(c, w, steps[..n]))
  }

  lemma AfterNext(c: Crypto, w: World, steps: seq<Step>, n: nat)
    requires n < |steps|
    ensures After(c, w, steps[..n + 1]) == Next(c, After(c, w, steps[..n]), steps[n])
  {
    assert steps[..n + 1][..n] == steps[..n];
  }

  /**
   The durable log refines the chain at every moment of a run exactly when every step of the
   run is safe.
   */
  lemma RunRefinesIff(c: Crypto, runId: string, maxEvents: nat, steps: seq<Step>)
    ensures RefinesThroughout(c, Start(runId, maxEvents), steps) <==> Safe(c, Start(runId, maxEvents), steps)
  {
    var w := Start(runId, maxEvents);
    if RefinesThroughout(c, w, steps) {
      forall n | 0 <= n < |steps| ensures SafeStep(c, After(c, w, steps[..n]), steps[n]) {
        AfterNext(c, w, steps, n);
        StepRefinesIff(c, After(c, w, steps[..n]), steps[n]);
      }
    }
    if Safe(c, w, steps) {
      forall n | 0 <= n <= |steps| ensures Refines(c, After(c, w, steps[..n])) {
        SafeRefines(c, w, steps, n);
      }
    }
  }

  lemma {:induction false} SafeRefines(c: Crypto, w: World, steps: seq<Step>, n: nat)
    requires Refines(c, w) && Safe(c, w, steps) && n <= |steps|
    ensures Refines(c, After(c, w, steps[..n]))
    decreases n
  {
    if n > 0 {
      SafeRefines(c, w, steps, n - 1);
      AfterNext(c, w, steps, n - 1);
      StepRefinesIff(c, After(c, w, steps[..n - 1]), steps[n - 1]);
    }
  }

  /**
   Whatever faults occur in a safe run, the collapsed log is the local entries, plus at most the
   one entry in flight, and it is itself a chain.
   */
  lemma LogRefinesChain(c: Crypto, runId: string, maxEvents: nat, steps: seq<Step>)
    requires Safe(c, Start(runId, maxEvents), steps)
    ensures var w := After(c, Start(runId, maxEvents), steps);
            && w.ledger.entries <= Log(w) && |Log(w)| <= |w.ledger.entries| + 1
            && Chain(c, runId, Log(w))
  {
    var w := After(c, Start(runId, maxEvents), steps);
    SafeRefines(c, Start(runId, maxEvents), steps, |steps|);
    assert steps[..|steps|] == steps;
    RunIdKept(c, Start(runId, maxEvents), steps);
    LogShape(c, w);
    if InFlight(w).Some? {
      CommitKeepsSound(c, Open(w.ledger), InFlight(w).value.event);
    } else {
      assert Log(w) == w.ledger.entries;
    }
  }

  lemma {:induction false} RunIdKept(c: Crypto, w: World, steps: seq<Step>)
    ensures After(c, w, steps).ledger.runId == w.ledger.runId
  {
    if steps != [] {
      RunIdKept(c, w, steps[..|steps| - 1]);
    }
  }

  /** An acknowledged retry, or an acknowledged first attempt, brings the log and the entries together. */
  lemma RetryCatchesUp(c: Crypto, w: World, event: Event)
    requires Refines(c, w) && SafeStep(c, w, Append(event, NoFault)) && Attempt(c, w.ledger, event).Ok?
    ensures var after := Next(c, w, Append(event, NoFault));
            Log(after) == after.ledger.entries == w.ledger.entries + [Attempt(c, w.ledger, event).value]
  {
    var entry := Attempt(c, w.ledger, event).value;
    LogShape(c, w);
    Written(w.store, entry, NoFault);
    if InFlight(w).Some? {
      assert entry == InFlight(w).value;
    }
  }
}
