/**
 `EvidenceAccumulator` as an object: its fields, its calls, and which event objects it keeps.
 Events are references into the interpreter's heap; the code around the accumulator, the
 durable callback included, may do anything with the references it has got hold of.

 `schema` is what validation does after the shape check: it reads a JSON value as a typed
 event, or refuses it. A call is shown from the moment it holds the lock: a thread that is not
 the owner waits while another one is inside, so it starts when `owner` is None.
 */
module Accumulator {
  import opened Prelude
  import opened Events
  import opened EvidenceChain
  import opened JsonShape
  import opened Ledger
  import opened Objects

  type Schema = Json -> Option<Event>

  /** The event that a reference shows, if it is valid. */
  function Read(schema: Schema, limit: nat, heap: Heap, event: Ref): Option<Event>
    requires Closed(heap) && event < |heap|
  {
    var t := Tree(heap, event, limit + 1);
    if Fits(t) then schema(t) else None
  }

  /** An `EvidenceEntry`: its event is a reference. */
  datatype HeldEntry = HeldEntry(sequence: nat, eventId: string, previousDigest: Option<string>, digest: string, event: Ref) {
    function With(event: Event): Entry {
      Entry(sequence, eventId, previousDigest, digest, event)
    }
  }

  /** `held` shows `entry`. */
  ghost predicate Holds(schema: Schema, limit: nat, heap: Heap, held: HeldEntry, entry: Entry)
    requires Closed(heap)
  {
    held.event < |heap| && Read(schema, limit, heap, held.event) == Some(entry.event) && held.With(entry.event) == entry
  }

  ghost predicate HoldsAll(schema: Schema, limit: nat, heap: Heap, held: seq<HeldEntry>, entries: seq<Entry>)
    requires Closed(heap)
  {
    |held| == |entries| && forall i :: 0 <= i < |held| ==> Holds(schema, limit, heap, held[i], entries[i])
  }

  /** The heap may grow and change outside `kept`. */
  ghost predicate Keeps(before: Heap, after: Heap, kept: set<Ref>) {
    |before| <= |after| && forall r :: r in kept ==> r < |before| && after[r] == before[r]
  }

  lemma ReadStays(schema: Schema, limit: nat, before: Heap, after: Heap, known: set<Ref>, kept: set<Ref>, event: Ref)
    requires Secluded(before, known, kept) && Closed(after) && Keeps(before, after, kept) && event in kept
    ensures Read(schema, limit, before, event) == Read(schema, limit, after, event)
  {
    TreeFrame(before, after, kept, event, limit + 1);
  }

  lemma HoldsAllStays(schema: Schema, limit: nat, before: Heap, after: Heap, known: set<Ref>, kept: set<Ref>, held: seq<HeldEntry>, entries: seq<Entry>)
    requires Secluded(before, known, kept) && Closed(after) && Keeps(before, after, kept)
    requires forall i :: 0 <= i < |held| ==> held[i].event in kept
    requires HoldsAll(schema, limit, before, held, entries)
    ensures HoldsAll(schema, limit, after, held, entries)
  {
    forall i | 0 <= i < |held| ensures Holds(schema, limit, after, held[i], entries[i]) {
      ReadStays(schema, limit, before, after, known, kept, held[i].event);
    }
  }

  /** New objects leave what others show as it is. */
  lemma HoldsAllExtends(schema: Schema, limit: nat, before: Heap, after: Heap, held: seq<HeldEntry>, entries: seq<Entry>)
    requires Closed(before) && Closed(after) && before <= after && HoldsAll(schema, limit, before, held, entries)
    ensures HoldsAll(schema, limit, after, held, entries)
  {
    forall i | 0 <= i < |held| ensures Holds(schema, limit, after, held[i], entries[i]) {
      ValuesStay(before, after, held[i].event, limit + 1);
    }
  }

  /** A freshly copied part of the heap may be kept or handed out. */
  function Part(from: nat, to: nat): set<Ref> {
    set r | from <= r < to && Within(from, r, to)
  }

  predicate Within(from: nat, r: Ref, to: nat) {
    from <= r < to
  }

  lemma FreshPartSecluded(before: Heap, after: Heap, known: set<Ref>, kept: set<Ref>)
    requires Secluded(before, known, kept) && before <= after && Closed(after) && NewFrom(after, |before|)
    ensures Secluded(after, known, kept)
    ensures Secluded(after, known, kept + Part(|before|, |after|))
    ensures forall r :: |before| <= r < |after| ==> Secluded(after, known + {r}, kept)
  {
  }

  datatype Reply = Acknowledged | NotTrue | Raised

  datatype HeldSnapshot = HeldSnapshot(runId: string, entries: seq<HeldEntry>, chainDigest: Option<string>,
                                       profile: string, completeness: Completeness, sealed: bool)

  class EvidenceAccumulator {
    const crypto: Crypto
    const schema: Schema
    const limit: nat
    const memory: Memory
    const runId: string
    const maxEvents: nat
    const durable: bool
    var entries: seq<HeldEntry>
    var eventIds: set<string>
    var sealed: bool
    var completeness: Completeness
    var owner: Option<nat>
    /** The entries as values. */
    ghost var log: seq<Entry>
    /** Every object that only the accumulator may have a reference to. */
    ghost var kept: set<Ref>
    /** The entries for which the callback returned True, in order. */
    ghost var acknowledged: seq<Entry>

    ghost function State(): Ledger
      reads this
    {
      Ledger(runId, maxEvents, log, eventIds, sealed, completeness)
    }

    /** The retained objects show `log`, and nothing outside leads to them. */
    ghost predicate Mirrored()
      reads this, memory
    {
      && Secluded(memory.objects, memory.known, kept)
      && (forall i :: 0 <= i < |entries| ==> entries[i].event in kept)
      && HoldsAll(schema, limit, memory.objects, entries, log)
    }

    ghost predicate Valid()
      reads this, memory
    {
      && Mirrored()
      && Sound(crypto, State())
      && (durable ==> acknowledged == log)
    }

    ghost function Shown(event: Ref): Option<Event>
      requires Closed(memory.objects) && event < |memory.objects|
      reads this, memory
    {
      Read(schema, limit, memory.objects, event)
    }

    constructor (crypto: Crypto, schema: Schema, limit: nat, memory: Memory, runId: string, maxEvents: nat, durable: bool)
      requires Closed(memory.objects) && (forall r :: r in memory.known ==> r < |memory.objects|)
      requires runId != "" && maxEvents >= 1
      ensures Valid() && kept == {} && owner == None
      ensures State() == Empty(runId, maxEvents) && this.durable == durable
      ensures this.crypto == crypto && this.schema == schema && this.limit == limit && this.memory == memory
    {
      this.crypto, this.schema, this.limit, this.memory := crypto, schema, limit, memory;
      this.runId, this.maxEvents, this.durable := runId, maxEvents, durable;
      entries, eventIds, sealed, completeness, owner := [], {}, false, Unknown, None;
      log, kept, acknowledged := [], {}, [];
    }

    /** What `append` answers before the callback is asked. */
    ghost function Verdict(event: Ref, me: nat): Result<Entry, EvidenceError>
      requires Closed(memory.objects) && event < |memory.objects|
      reads this, memory
    {
      match Shown(event)
      case None => Err(InvalidEvent)
      case Some(value) =>
        if value.runId != runId then Err(WrongRun)
        else if owner == Some(me) then Err(Reentrant)
        else Admit(crypto, State(), value)
    }

    /** An entry that is admitted carries what the event shows; the checks before the lock come in this order. */
    lemma VerdictShows(event: Ref, me: nat)
      requires Closed(memory.objects) && event < |memory.objects|
      ensures Verdict(event, me).Ok? ==> Shown(event) == Some(Verdict(event, me).value.event)
      ensures Verdict(event, me) == Err(InvalidEvent) <==> Shown(event).None?
      ensures Verdict(event, me) == Err(WrongRun) <==> Shown(event).Some? && Shown(event).value.runId != runId
      ensures Verdict(event, me) == Err(Reentrant) <==> Shown(event).Some? && Shown(event).value.runId == runId && owner == Some(me)
    {
    }

    /** New objects made outside leave an accumulator as it is. */
    twostate lemma StaysValid()
      requires old(Valid()) && unchanged(this)
      requires old(memory.objects) <= memory.objects && Secluded(memory.objects, memory.known, kept)
      ensures Valid()
    {
      HoldsAllExtends(schema, limit, old(memory.objects), memory.objects, entries, log);
    }

    /** Shape check and schema. */
    method Validate(event: Ref) returns (value: Option<Event>)
      requires Closed(memory.objects) && event < |memory.objects|
      ensures value == Shown(event)
      ensures value.Some? ==> Bounded(memory.objects, event, limit)
    {
      var fault := Walk(memory.objects, event, limit);
      FitsIffGood(memory.objects, event, limit);
      if fault.Some? {
        return None;
      }
      return schema(Tree(memory.objects, event, limit + 1));
    }

    /** A copy in new objects, which nobody else has a reference to yet. */
    method Copy(event: Ref) returns (copy: Ref)
      requires Mirrored() && event < |memory.objects| && Shown(event).Some?
      modifies memory`objects
      ensures Mirrored() && old(memory.objects) <= memory.objects
      ensures copy < |memory.objects| && Shown(copy) == old(Shown(event))
      ensures copy in Part(|old(memory.objects)|, |memory.objects|)
      ensures Secluded(memory.objects, memory.known, kept + Part(|old(memory.objects)|, |memory.objects|))
      ensures Secluded(memory.objects, memory.known + {copy}, kept)
    {
      FitsIffGood(memory.objects, event, limit);
      copy := memory.DeepCopy(event, limit);
      FreshPartSecluded(old(memory.objects), memory.objects, memory.known, kept);
      HoldsAllStays(schema, limit, old(memory.objects), memory.objects, memory.known, kept, entries, log);
    }

    /** A copy that is kept. */
    method CopyToKeep(event: Ref) returns (copy: Ref)
      requires Mirrored() && event < |memory.objects| && Shown(event).Some?
      modifies memory`objects, this`kept
      ensures Mirrored() && old(kept) <= kept && old(memory.objects) <= memory.objects
      ensures copy in kept && copy !in old(kept) && Shown(copy) == old(Shown(event))
    {
      copy := Copy(event);
      kept := kept + Part(|old(memory.objects)|, |memory.objects|);
    }

    /** A copy that is handed out. */
    method CopyToShow(event: Ref) returns (copy: Ref)
      requires Mirrored() && event < |memory.objects| && Shown(event).Some?
      modifies memory
      ensures Mirrored() && old(memory.known) <= memory.known && old(memory.objects) <= memory.objects
      ensures copy in memory.known && copy !in kept && Shown(copy) == old(Shown(event))
    {
      copy := Copy(event);
      memory.known := memory.known + {copy};
    }

    method Append(me: nat, event: Ref) returns (r: Result<HeldEntry, EvidenceError>)
      requires Valid() && event in memory.known
      requires owner == None || owner == Some(me)
      modifies this, memory
      ensures Valid() && owner == old(owner) && old(kept) <= kept && old(memory.known) <= memory.known
      // refused by a check, or by the callback: nothing observable changed
      ensures old(Verdict(event, me)).Err? ==> r == Err(old(Verdict(event, me)).error)
      ensures r.Err? && old(Verdict(event, me)).Ok? ==> durable && r.error == NotPersisted
      ensures r.Err? ==> State() == old(State()) && entries == old(entries) && acknowledged == old(acknowledged)
      // accepted: the value the event had on entry, whatever outside code did meanwhile
      ensures r.Ok? ==> State() == Commit(old(State()), old(Verdict(event, me)).value)
      ensures r.Ok? ==> Holds(schema, limit, memory.objects, r.value, old(Verdict(event, me)).value) && r.value.event in memory.known
      // field by field
      ensures r.Ok? ==> old(Shown(event)).Some? && log == old(log) + [r.value.With(old(Shown(event)).value)]
      ensures r.Ok? ==> eventIds == old(eventIds) + {r.value.eventId} && sealed == old(sealed) && completeness == old(completeness)
      // only the callback lets other code run
      ensures !durable ==> old(memory.objects) <= memory.objects
    {
      VerdictShows(event, me);
      var checked := CheckAndCopy(event);
      if checked.Err? {
        return Err(checked.error);
      }
      if owner == Some(me) {
        return Err(Reentrant);
      }
      owner := Some(me);
      r := AppendLocked(checked.value.0, checked.value.1);
      owner := None;
    }

    /** What happens before the lock: the event is validated, copied and matched with the run. */
    method CheckAndCopy(event: Ref) returns (r: Result<(Ref, Event), EvidenceError>)
      requires Valid() && event in memory.known
      modifies this`kept, memory`objects
      ensures Valid() && old(kept) <= kept && old(memory.objects) <= memory.objects
      ensures match r
        case Err(error) =>
          || (old(Shown(event)).None? && error == InvalidEvent)
          || (old(Shown(event)).Some? && old(Shown(event)).value.runId != runId && error == WrongRun)
        case Ok(copy) => copy.0 in kept && Shown(copy.0) == Some(copy.1) && old(Shown(event)) == Some(copy.1) && copy.1.runId == runId
    {
      var value := Validate(event);
      if value.None? {
        return Err(InvalidEvent);
      }
      var eventCopy := CopyToKeep(event);
      if value.value.runId != runId {
        return Err(WrongRun);
      }
      return Ok((eventCopy, value.value));
    }

    /** The body of `append`, with the lock held. */
    method AppendLocked(eventCopy: Ref, value: Event) returns (r: Result<HeldEntry, EvidenceError>)
      requires Valid() && eventCopy in kept && Shown(eventCopy) == Some(value) && value.runId == runId
      modifies this`entries, this`eventIds, this`log, this`kept, this`acknowledged, memory
      ensures Valid() && old(kept) <= kept && old(memory.known) <= memory.known
      ensures old(Admit(crypto, State(), value)).Err? ==> r == Err(old(Admit(crypto, State(), value)).error)
      ensures r.Err? && old(Admit(crypto, State(), value)).Ok? ==> durable && r.error == NotPersisted
      ensures r.Err? ==> State() == old(State()) && entries == old(entries) && acknowledged == old(acknowledged)
      ensures r.Ok? ==> State() == Commit(old(State()), old(Admit(crypto, State(), value)).value)
      ensures r.Ok? ==> Holds(schema, limit, memory.objects, r.value, old(Admit(crypto, State(), value)).value) && r.value.event in memory.known
      ensures !durable ==> old(memory.objects) <= memory.objects
    {
      var prepared := Prepare(eventCopy, value);
      if prepared.Err? {
        return Err(prepared.error);
      }
      var entry := prepared.value;
      CommitKeepsSound(crypto, State(), value);
      if durable {
        var reply, argument := AskCallback(entry);
        if reply != Acknowledged {
          return Err(NotPersisted);
        }
      }
      var copy := Keep(entry, value);
      return Ok(copy);
    }

    /** The checks, and the entry they allow. */
    method Prepare(eventCopy: Ref, value: Event) returns (r: Result<HeldEntry, EvidenceError>)
      requires Mirrored() && eventCopy in kept && Shown(eventCopy) == Some(value)
      ensures r.Err? ==> Admit(crypto, State(), value) == Err(r.error)
      ensures r.Ok? ==> r.value.event == eventCopy && Admit(crypto, State(), value) == Ok(r.value.With(value))
    {
      if sealed {
        return Err(RunSealed);
      }
      if value.id in eventIds {
        return Err(DuplicateId);
      }
      if |entries| >= maxEvents {
        return Err(TooManyEvents);
      }
      var sequence := |entries|;
      var previous := if entries == [] then None else Some(entries[|entries| - 1].digest);
      assert previous == LastDigest(log);
      var digest := EntryDigest(crypto, sequence, previous, value);
      if digest.Err? {
        return Err(Undigestible(digest.error));
      }
      return Ok(HeldEntry(sequence, value.id, previous, digest.value, eventCopy));
    }

    /**
     The callback gets a copy of the entry and may then do anything with whatever it knows;
     only `True` acknowledges.
     */
    method AskCallback(entry: HeldEntry) returns (reply: Reply, argument: HeldEntry)
      requires Mirrored() && entry.event in kept && Shown(entry.event).Some?
      modifies this`acknowledged, memory
      ensures Mirrored() && State() == old(State()) && entries == old(entries) && old(memory.known) <= memory.known
      ensures argument.event in memory.known && argument.event !in kept && argument == entry.(event := argument.event)
      ensures Shown(entry.event) == old(Shown(entry.event))
      ensures acknowledged == if reply == Acknowledged then old(acknowledged) + [entry.With(Shown(entry.event).value)] else old(acknowledged)
    {
      var copy := CopyToShow(entry.event);
      argument := entry.(event := copy);
      ValuesStay(old(memory.objects), memory.objects, entry.event, limit + 1);
      reply := RunCallback(argument);
      if reply == Acknowledged {
        acknowledged := acknowledged + [entry.With(Shown(entry.event).value)];
      }
    }

    /** The callback itself: arbitrary code that knows its argument. */
    method RunCallback(argument: HeldEntry) returns (reply: Reply)
      requires Mirrored() && argument.event in memory.known
      modifies memory
      ensures Mirrored() && old(memory.known) <= memory.known
      ensures Keeps(old(memory.objects), memory.objects, kept)
      ensures forall event :: event in kept ==> Shown(event) == old(Shown(event))
    {
      memory.Act(kept);
      reply := *;
      HoldsAllStays(schema, limit, old(memory.objects), memory.objects, old(memory.known), kept, entries, log);
      forall event | event in kept ensures Shown(event) == old(Shown(event)) {
        ReadStays(schema, limit, old(memory.objects), memory.objects, old(memory.known), kept, event);
      }
    }

    /** Between two calls: whatever code outside does with what it knows. */
    method LetOutsideAct()
      requires Valid()
      modifies memory
      ensures Valid() && old(memory.known) <= memory.known && Keeps(old(memory.objects), memory.objects, kept)
    {
      memory.Act(kept);
      HoldsAllStays(schema, limit, old(memory.objects), memory.objects, old(memory.known), kept, entries, log);
    }

    /** Retain one copy and return another. */
    method Keep(entry: HeldEntry, ghost value: Event) returns (copy: HeldEntry)
      requires Mirrored() && entry.event in kept && Shown(entry.event) == Some(value)
      modifies this`entries, this`eventIds, this`log, this`kept, memory
      ensures Mirrored() && old(kept) <= kept && old(memory.known) <= memory.known
      ensures State() == Commit(old(State()), entry.With(value)) && old(memory.objects) <= memory.objects
      ensures Holds(schema, limit, memory.objects, copy, entry.With(value)) && copy.event in memory.known
    {
      var retained := CopyToKeep(entry.event);
      entries := entries + [entry.(event := retained)];
      eventIds := eventIds + {entry.eventId};
      log := log + [entry.With(value)];
      var shown := CopyToShow(retained);
      copy := entry.(event := shown);
    }

    method Seal(me: nat, assessment: Completeness) returns (r: Result<HeldSnapshot, EvidenceError>)
      requires Valid()
      requires owner == None || owner == Some(me)
      modifies this, memory
      ensures Valid() && owner == old(owner) && entries == old(entries) && old(kept) <= kept && old(memory.known) <= memory.known
      ensures r.Err? <==> old(owner) == Some(me) || old(sealed)
      ensures r.Err? ==> State() == old(State()) && r.error == if old(owner) == Some(me) then Reentrant else AlreadySealed
      ensures r.Ok? ==> State() == SealAs(old(State()), assessment) && Shows(r.value) && Verified(crypto, SnapshotOf(State()))
      // field by field
      ensures r.Ok? ==> sealed && completeness == assessment && log == old(log) && eventIds == old(eventIds)
      ensures r.Ok? ==> r.value.sealed && r.value.completeness == assessment && r.value.runId == runId && |r.value.entries| == |entries|
    {
      if owner == Some(me) {
        return Err(Reentrant);
      }
      owner := Some(me);
      assert State() == old(State());
      if sealed {
        owner := None;
        return Err(AlreadySealed);
      }
      Close(assessment);
      var snapshot := TakeSnapshot();
      owner := None;
      return Ok(snapshot);
    }

    method Close(assessment: Completeness)
      requires Valid()
      modifies this`sealed, this`completeness
      ensures Valid() && State() == SealAs(old(State()), assessment) && sealed && completeness == assessment
    {
      sealed := true;
      completeness := assessment;
    }

    /** `s` is the current state, in objects that outside code now knows and the accumulator does not keep. */
    ghost predicate Shows(s: HeldSnapshot)
      requires Closed(memory.objects)
      reads this, memory
    {
      && HoldsAll(schema, limit, memory.objects, s.entries, log)
      && (forall i :: 0 <= i < |s.entries| ==> s.entries[i].event in memory.known && s.entries[i].event !in kept)
      && Snapshot(s.runId, log, s.chainDigest, s.profile, s.completeness, s.sealed) == SnapshotOf(State())
    }

    /** `snapshot` may be called by the owner as well: it only reads committed entries. */
    method TakeSnapshot() returns (s: HeldSnapshot)
      requires Valid()
      modifies memory
      ensures Valid() && old(memory.known) <= memory.known
      ensures Shows(s) && Verified(crypto, SnapshotOf(State()))
      // field by field
      ensures s.runId == runId && s.profile == "rfc8785-jcs-v1" && |s.entries| == |entries|
      ensures s.sealed == sealed && s.completeness == if sealed then completeness else Unknown
      ensures s.chainDigest == if entries == [] then None else Some(entries[|entries| - 1].digest)
    {
      var copies := CopyEntries();
      SnapshotVerifies(crypto, State());
      var chainDigest := if copies == [] then None else Some(copies[|copies| - 1].digest);
      s := HeldSnapshot(runId, copies, chainDigest, PROFILE, if sealed then completeness else Unknown, sealed);
    }

    method CopyEntries() returns (copies: seq<HeldEntry>)
      requires Mirrored()
      modifies memory
      ensures Mirrored() && old(memory.known) <= memory.known
      ensures HoldsAll(schema, limit, memory.objects, copies, log)
      ensures forall i :: 0 <= i < |copies| ==> copies[i].event in memory.known && copies[i].event !in kept
    {
      copies := [];
      for i := 0 to |entries|
        invariant Mirrored() && old(memory.known) <= memory.known && i <= |log|
        invariant HoldsAll(schema, limit, memory.objects, copies, log[..i])
        invariant forall k :: 0 <= k < i ==> copies[k].event in memory.known && copies[k].event !in kept
      {
        ghost var before := memory.objects;
        var copy := CopyToShow(entries[i].event);
        HoldsAllExtends(schema, limit, before, memory.objects, copies, log[..i]);
        HoldsOneMore(schema, limit, memory.objects, copies, log, entries[i].(event := copy));
        copies := copies + [entries[i].(event := copy)];
      }
      assert log[..|log|] == log;
    }
  }

  lemma HoldsOneMore(schema: Schema, limit: nat, heap: Heap, held: seq<HeldEntry>, log: seq<Entry>, next: HeldEntry)
    requires Closed(heap) && |held| < |log| && HoldsAll(schema, limit, heap, held, log[..|held|])
    requires Holds(schema, limit, heap, next, log[|held|])
    ensures HoldsAll(schema, limit, heap, held + [next], log[..|held| + 1])
  {
  }

  /** `__init__`: bad arguments are an error. */
  method NewAccumulator(crypto: Crypto, schema: Schema, limit: nat, memory: Memory, runId: string, maxEvents: int, durable: bool)
    returns (r: Result<EvidenceAccumulator, EvidenceError>)
    requires Closed(memory.objects) && (forall r :: r in memory.known ==> r < |memory.objects|)
    ensures r.Ok? <==> runId != "" && maxEvents >= 1
    ensures r.Err? ==> r.error == BadArgument
    ensures r.Ok? ==> fresh(r.value) && r.value.memory == memory && r.value.Valid() && r.value.owner == None
                      && r.value.State() == Empty(runId, maxEvents)
    ensures r.Ok? ==> r.value.runId == runId && r.value.maxEvents == maxEvents && r.value.durable == durable
                      && r.value.entries == [] && r.value.eventIds == {} && !r.value.sealed && r.value.completeness == Unknown
  {
    if runId == "" || maxEvents < 1 {
      return Err(BadArgument);
    }
    var a := new EvidenceAccumulator(crypto, schema, limit, memory, runId, maxEvents, durable);
    return Ok(a);
  }

  // ---- copy isolation -----------------------------------------------------------------------

  /** What can happen next: a call, or anything the code around the accumulator does by itself. */
  datatype Happening = CallAppend(me: nat, event: Ref) | CallSeal(me: nat, assessment: Completeness) | CallSnapshot | OutsideActs

  /** One of them: `accepted` is the entry it adds, if it adds one. */
  method OneHappening(a: EvidenceAccumulator, happening: Happening) returns (ghost accepted: seq<Entry>)
    requires a.Valid() && a.owner == None
    modifies a, a.memory
    ensures a.Valid() && a.owner == None && a.log == old(a.log) + accepted
    ensures accepted != [] ==>
              && happening.CallAppend? && happening.event in old(a.memory.known)
              && old(a.Verdict(happening.event, happening.me)).Ok?
              && accepted == [old(a.Verdict(happening.event, happening.me)).value]
  {
    accepted := [];
    match happening
    case CallAppend(me, event) =>
      if event in a.memory.known {
        ghost var verdict := a.Verdict(event, me);
        var r := a.Append(me, event);
        if r.Ok? {
          accepted := [verdict.value];
        }
      }
    case CallSeal(me, assessment) =>
      var r := a.Seal(me, assessment);
    case CallSnapshot =>
      var shown := a.TakeSnapshot();
    case OutsideActs =>
      a.LetOutsideAct();
  }

  /**
   Copy isolation over any run of calls mixed with arbitrary changes, by outside code, to
   whatever it has been given: each entry still shows the value it was accepted with, and a
   snapshot taken at the end shows exactly those values.
   */
  method AnyRun(a: EvidenceAccumulator, happenings: seq<Happening>) returns (s: HeldSnapshot, ghost accepted: seq<Entry>)
    requires a.Valid() && a.owner == None
    modifies a, a.memory
    ensures a.Valid() && a.owner == None
    ensures a.log == old(a.log) + accepted
    ensures a.Shows(s) && Verified(a.crypto, SnapshotOf(a.State()))
    ensures forall r, path :: r in a.memory.known && Follow(a.memory.objects, r, path).Some? ==>
              Follow(a.memory.objects, r, path).value !in a.kept
  {
    accepted := [];
    for i := 0 to |happenings|
      invariant a.Valid() && a.owner == None
      invariant a.log == old(a.log) + accepted
    {
      ghost var more := OneHappening(a, happenings[i]);
      accepted := accepted + more;
    }
    s := a.TakeSnapshot();
    forall r, path | r in a.memory.known && Follow(a.memory.objects, r, path).Some?
      ensures Follow(a.memory.objects, r, path).value !in a.kept
    {
      NothingKeptIsReachable(a.memory.objects, a.memory.known, a.kept, r, path);
    }
  }
}
