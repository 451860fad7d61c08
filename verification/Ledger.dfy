/** One run's evidence as a value: what the calls of the accumulator do to it. */
module Ledger {
  import opened Prelude
  import opened Events
  import opened EvidenceChain

  datatype EvidenceError =
    | BadArgument | InvalidEvent | WrongRun | Reentrant | RunSealed | AlreadySealed
    | DuplicateId | TooManyEvents | Undigestible(cause: DigestError) | NotPersisted

  datatype Ledger = Ledger(runId: string, maxEvents: nat, entries: seq<Entry>, ids: set<string>,
                           sealed: bool, completeness: Completeness)

  function Empty(runId: string, maxEvents: nat): Ledger {
    Ledger(runId, maxEvents, [], {}, false, Unknown)
  }

  /** The checks made under the lock; on success the entry to persist and commit. */
  function Admit(c: Crypto, l: Ledger, event: Event): Result<Entry, EvidenceError> {
    if l.sealed then Err(RunSealed)
    else if event.id in l.ids then Err(DuplicateId)
    else if |l.entries| >= l.maxEvents then Err(TooManyEvents)
    else
      match EntryDigest(c, |l.entries|, LastDigest(l.entries), event)
      case Err(e) => Err(Undigestible(e))
      case Ok(digest) => Ok(Entry(|l.entries|, event.id, LastDigest(l.entries), digest, event))
  }

  function Commit(l: Ledger, entry: Entry): Ledger {
    l.(entries := l.entries + [entry], ids := l.ids + {entry.eventId})
  }

  function SealAs(l: Ledger, completeness: Completeness): Ledger {
    l.(sealed := true, completeness := completeness)
  }

  function SnapshotOf(l: Ledger): Snapshot {
    Snapshot(l.runId, l.entries, LastDigest(l.entries), PROFILE, if l.sealed then l.completeness else Unknown, l.sealed)
  }

  ghost predicate DistinctIds(entries: seq<Entry>) {
    forall i, j :: 0 <= i < j < |entries| ==> entries[i].eventId != entries[j].eventId
  }

  /** Holds whenever no mutation is in progress. */
  ghost predicate Sound(c: Crypto, l: Ledger) {
    && Chain(c, l.runId, l.entries)
    && DistinctIds(l.entries)
    && (forall id :: id in l.ids <==> exists i :: 0 <= i < |l.entries| && l.entries[i].eventId == id)
    && |l.entries| <= l.maxEvents
  }

  /**
   Which events a run admits: new ones, while it is open and has room, that can be
   canonicalized and counted. The digest before is never the reason to refuse one.
   */
  lemma AdmittedIff(c: Crypto, l: Ledger, event: Event)
    requires Sound(c, l)
    ensures Admit(c, l, event).Ok? <==>
      && !l.sealed && (forall i :: 0 <= i < |l.entries| ==> l.entries[i].eventId != event.id)
      && |l.entries| < l.maxEvents && |l.entries| < 0x1_0000_0000_0000_0000 && c.canonical(event).Some?
    ensures Admit(c, l, event) == Err(RunSealed) <==> l.sealed
    ensures Admit(c, l, event) == Err(DuplicateId) <==>
      !l.sealed && exists i :: 0 <= i < |l.entries| && l.entries[i].eventId == event.id
    ensures Admit(c, l, event) == Err(TooManyEvents) <==>
      !l.sealed && (forall i :: 0 <= i < |l.entries| ==> l.entries[i].eventId != event.id) && |l.entries| == l.maxEvents
    ensures Admit(c, l, event) != Err(Undigestible(NotHexadecimal))
    ensures Admit(c, l, event).Ok? ==>
      var entry := Admit(c, l, event).value;
      && entry.event == event && entry.eventId == event.id && entry.sequence == |l.entries|
      && entry.previousDigest == if l.entries == [] then None else Some(l.entries[|l.entries| - 1].digest)
  {
    if l.entries != [] {
      DigestSpells(c, l.runId, l.entries, |l.entries| - 1);
    }
  }

  /** What a commit and a seal change, and that they change nothing else. */
  lemma CommitAndSealMean(l: Ledger, entry: Entry, assessment: Completeness)
    ensures var after := Commit(l, entry);
            && |after.entries| == |l.entries| + 1 && after.entries[..|l.entries|] == l.entries && after.entries[|l.entries|] == entry
            && (forall id :: id in after.ids <==> id in l.ids || id == entry.eventId)
            && after.sealed == l.sealed && after.completeness == l.completeness && after.runId == l.runId && after.maxEvents == l.maxEvents
    ensures var after := SealAs(l, assessment);
            && after.sealed && after.completeness == assessment
            && after.entries == l.entries && after.ids == l.ids && after.runId == l.runId && after.maxEvents == l.maxEvents
  {
  }

  lemma CommitKeepsSound(c: Crypto, l: Ledger, event: Event)
    requires Sound(c, l) && event.runId == l.runId
    requires Admit(c, l, event).Ok?
    ensures Sound(c, Commit(l, Admit(c, l, event).value))
  {
    var entry := Admit(c, l, event).value;
    ExtendChain(c, l.runId, l.entries, event, entry.digest);
    var after := Commit(l, entry);
    forall id ensures id in after.ids <==> exists i :: 0 <= i < |after.entries| && after.entries[i].eventId == id {
      if id == entry.eventId {
        assert after.entries[|l.entries|].eventId == id;
      } else if id in l.ids {
        var i :| 0 <= i < |l.entries| && l.entries[i].eventId == id;
        assert after.entries[i].eventId == id;
      }
    }
  }

  /** Whatever a sound ledger hands out passes the finalizer's chain check. */
  lemma SnapshotVerifies(c: Crypto, l: Ledger)
    requires Chain(c, l.runId, l.entries)
    ensures Verified(c, SnapshotOf(l))
  {
  }
}
