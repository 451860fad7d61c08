/** What a TRACE record says about the snapshot it was made from, member by member, and which snapshots get one. */
module FinalizerMeaning {
  import opened Prelude
  import opened Bytes
  import opened Events
  import opened EvidenceChain
  import opened Finalizer
  import Appraisal
  import AppraisalMeaning

  // ---- the tool transcript ------------------------------------------------------------------

  predicate Executed(entries: seq<Entry>, i: int) {
    0 <= i < |entries| && entries[i].event.body.Action?
  }

  /** The executed actions, each with its position, in order. */
  ghost predicate ListsActions(entries: seq<Entry>, listed: seq<(int, Event)>) {
    && (forall k :: 0 <= k < |listed| ==> Executed(entries, listed[k].0) && listed[k].1 == entries[listed[k].0].event)
    && (forall j, k :: 0 <= j < k < |listed| ==> listed[j].0 < listed[k].0)
    && forall i :: Executed(entries, i) ==> exists k :: 0 <= k < |listed| && listed[k].0 == i
  }

  lemma ListsOneMore(entries: seq<Entry>, before: seq<(int, Event)>)
    requires entries != [] && ListsActions(entries[..|entries| - 1], before)
    ensures var n := |entries| - 1;
            ListsActions(entries, if entries[n].event.body.Action? then before + [(n, entries[n].event)] else before)
  {
    var n := |entries| - 1;
    var listed := if entries[n].event.body.Action? then before + [(n, entries[n].event)] else before;
    forall k | 0 <= k < |before| ensures listed[k] == before[k] && 0 <= before[k].0 < n && entries[before[k].0].event == before[k].1 {
      assert Executed(entries[..n], before[k].0);
    }
    forall i | Executed(entries, i) ensures exists k :: 0 <= k < |listed| && listed[k].0 == i {
      if i == n {
        assert listed[|before|].0 == n;
      } else {
        assert Executed(entries[..n], i);
        var k :| 0 <= k < |before| && before[k].0 == i;
        assert listed[k].0 == i;
      }
    }
  }

  lemma {:induction false} ActionListMeans(entries: seq<Entry>)
    requires forall i :: 0 <= i < |entries| ==> entries[i].sequence == i
    ensures ListsActions(entries, ActionList(entries))
  {
    if entries != [] {
      var n := |entries| - 1;
      ActionListMeans(entries[..n]);
      ListsOneMore(entries, ActionList(entries[..n]));
      ActionListNext(entries);
    } else {
      assert ActionList(entries) == [];
    }
  }

  lemma ActionListNext(entries: seq<Entry>)
    requires entries != [] && entries[|entries| - 1].sequence == |entries| - 1
    ensures var n := |entries| - 1;
            ActionList(entries) == if entries[n].event.body.Action? then ActionList(entries[..n]) + [(n, entries[n].event)] else ActionList(entries[..n])
  {
  }

  /**
   The transcript is absent exactly when no action was executed; otherwise it counts the executed
   actions and hashes the list of their positions and events.
   */
  lemma TranscriptMeans(c: Crypto, listBytes: ListBytes, s: Snapshot, config: Config, hasKey: bool, record: Record)
    returns (listed: seq<(int, Event)>)
    requires Finalizes(c, listBytes, s, config, hasKey, record)
    ensures ListsActions(s.entries, listed)
    ensures record.transcript.None? <==> forall i :: !Executed(s.entries, i)
    ensures record.transcript.Some? ==>
      record.transcript.value.callCount == |listed| && record.transcript.value.hash == "sha256:" + Hex(c.sha256(listBytes(listed)))
  {
    listed := ActionList(s.entries);
    forall i | 0 <= i < |s.entries| ensures s.entries[i].sequence == i {
      assert Linked(c, s.runId, s.entries, i);
    }
    ActionListMeans(s.entries);
    if listed != [] {
      assert Executed(s.entries, listed[0].0);
    }
  }

  // ---- the other members --------------------------------------------------------------------

  /** The bundle and the mode are those of every decision of the run. */
  lemma PolicyMeans(events: seq<Event>, bundle: string, mode: TraceMode, d: Event)
    requires PolicyBinding(events) == Ok((bundle, mode)) && d in events && d.body.PolicyDecision?
    ensures d.body.bundleDigest.Some?
    ensures var digest := d.body.bundleDigest.value;
            (digest.algorithm == "sha256" || digest.algorithm == "sha384") && bundle == digest.algorithm + ":" + digest.value
    ensures mode == match d.body.mode case Enforce => EnforceMode case Monitor => AdvisoryMode case Disabled => DeclaredMode
  {
    assert d.IsDecision();
    assert Supported(d) && BoundTo(d, bundle);
  }

  /** The data class is observed, ranked, and at least as high in the configured order as every observed one. */
  lemma DataClassMeans(events: seq<Event>, config: Config) returns (top: nat)
    requires HighestDataClass(events, config).Ok?
    ensures top < |config.order| && config.order[top] == HighestDataClass(events, config).value
    ensures exists e :: e in events && e.body.DataFlow? && e.body.dataClass == config.order[top]
    ensures forall e :: e in events && e.body.DataFlow? ==> e.body.taxonomy == config.taxonomy && e.body.dataClass in config.order[..top + 1]
  {
    var best := HighestDataClass(events, config).value;
    var flow :| flow in events && flow.IsDataFlow() && flow.body.dataClass == best;
    top := Rank(config.order, best);
    forall e | e in events && e.body.DataFlow? ensures e.body.taxonomy == config.taxonomy && e.body.dataClass in config.order[..top + 1] {
      assert e.IsDataFlow();
      var k := Rank(config.order, e.body.dataClass);
      assert config.order[..top + 1][k] == e.body.dataClass;
    }
  }

  lemma LatestEvent(events: seq<Event>) returns (latest: Event)
    requires events != []
    ensures latest in events && LatestTime(events) == latest.time && forall e :: e in events ==> e.time <= latest.time
  {
    var time := LatestTime(events);
    latest :| latest in events && latest.time == time;
  }

  /** The measurement, the data class, and the time of the latest event in seconds. */
  lemma RecordMeans(c: Crypto, listBytes: ListBytes, s: Snapshot, config: Config, hasKey: bool, record: Record)
    returns (top: nat, latest: Event)
    requires Finalizes(c, listBytes, s, config, hasKey, record)
    ensures s.sealed && s.completeness == Complete && s.entries != []
    ensures record.measurement == "sha256:" + s.entries[|s.entries| - 1].digest
    ensures var events := EventsOf(s.entries);
      && top < |config.order| && record.dataClass == config.order[top]
      && (exists e :: e in events && e.body.DataFlow? && e.body.dataClass == record.dataClass)
      && (forall e :: e in events && e.body.DataFlow? ==> e.body.dataClass in config.order[..top + 1])
      && latest in events && record.issuedAt == latest.time / 1_000_000_000
      && (forall e :: e in events ==> e.time <= latest.time)
  {
    latest := LatestEvent(EventsOf(s.entries));
    top := DataClassMeans(EventsOf(s.entries), config);
  }

  /** The appraisal of the record is the documented one. */
  lemma RecordAppraisal(c: Crypto, listBytes: ListBytes, s: Snapshot, config: Config, hasKey: bool, record: Record)
    requires Finalizes(c, listBytes, s, config, hasKey, record)
    ensures record.status == AppraisalMeaning.Documented(EventsOf(s.entries))
  {
    AppraisalMeaning.AppraisalIsDocumented(EventsOf(s.entries));
  }

  // ---- which snapshots get a record ---------------------------------------------------------

  /** What a run must carry: decisions under one supported bundle and one mode, and ranked data flows. */
  ghost predicate Derivable(events: seq<Event>, config: Config) {
    && (exists e :: e in events && e.body.PolicyDecision?)
    && (forall e :: e in events && e.body.PolicyDecision? ==>
          e.body.bundleDigest.Some? && e.body.bundleDigest.value.algorithm in {"sha256", "sha384"})
    && (forall d, e :: d in events && e in events && d.body.PolicyDecision? && e.body.PolicyDecision? ==>
          && d.body.bundleDigest.value.algorithm + ":" + d.body.bundleDigest.value.value
             == e.body.bundleDigest.value.algorithm + ":" + e.body.bundleDigest.value.value
          && d.body.mode == e.body.mode)
    && (exists e :: e in events && e.body.DataFlow?)
    && (forall e :: e in events && e.body.DataFlow? ==> e.body.taxonomy == config.taxonomy && e.body.dataClass in config.order)
  }

  /** Sealed, complete, intact evidence, a key and a usable configuration. */
  ghost predicate Finalizable(c: Crypto, s: Snapshot, config: Config, hasKey: bool) {
    && s.sealed && s.completeness == Complete
    && s.entries != [] && s.chainDigest.Some? && s.chainDigest.value != ""
    && hasKey && "" !in config.required && (forall j, k :: 0 <= j < k < |config.order| ==> config.order[j] != config.order[k])
    && Verified(c, s)
  }

  lemma FinalizableIff(c: Crypto, s: Snapshot, config: Config, hasKey: bool)
    ensures Finalizable(c, s, config, hasKey) <==> GuardsHold(s, config, hasKey) && Verified(c, s)
  {
  }

  lemma MakeRecord(c: Crypto, listBytes: ListBytes, s: Snapshot, config: Config, hasKey: bool) returns (record: Record)
    requires GuardsHold(s, config, hasKey) && Verified(c, s)
    requires PolicyBinding(EventsOf(s.entries)).Ok? && HighestDataClass(EventsOf(s.entries), config).Ok?
    ensures Finalizes(c, listBytes, s, config, hasKey, record)
  {
    var events := EventsOf(s.entries);
    var policy := PolicyBinding(events).value;
    record := Record(LatestTime(events) / NANOS_PER_SECOND, "sha256:" + s.chainDigest.value, policy.0, policy.1,
                     HighestDataClass(events, config).value, ToolTranscript(c, listBytes, s.entries),
                     Appraisal.Verdict(Appraisal.Current(events)));
  }

  /** A record is made exactly for such evidence when it carries what a record takes. */
  lemma FinalizedIff(c: Crypto, listBytes: ListBytes, s: Snapshot, config: Config, hasKey: bool)
    ensures (exists record :: Finalizes(c, listBytes, s, config, hasKey, record)) <==>
              Finalizable(c, s, config, hasKey) && Derivable(EventsOf(s.entries), config)
  {
    DerivableIff(EventsOf(s.entries), config);
    FinalizableIff(c, s, config, hasKey);
    if Finalizable(c, s, config, hasKey) && Derivable(EventsOf(s.entries), config) {
      var record := MakeRecord(c, listBytes, s, config, hasKey);
    }
  }

  lemma DerivableIff(events: seq<Event>, config: Config)
    ensures Derivable(events, config) <==> PolicyBinding(events).Ok? && HighestDataClass(events, config).Ok?
  {
    forall e: Event ensures e.IsDecision() <==> e.body.PolicyDecision? ensures e.IsDataFlow() <==> e.body.DataFlow? {
    }
  }
}
