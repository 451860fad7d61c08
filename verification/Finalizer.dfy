/**
 From a sealed snapshot to the content of a TRACE record. Signing is foreign code and is left
 out; `listBytes` stands for the RFC 8785 form of the transcript list.
 */
module Finalizer {
  import opened Prelude
  import opened Bytes
  import opened Events
  import opened EvidenceChain
  import opened Appraisal
  import AppraisalProperties
  import Concurrency

  datatype Config = Config(required: seq<string>, taxonomy: string, order: seq<string>)

  datatype TraceMode = EnforceMode | AdvisoryMode | DeclaredMode

  datatype Transcript = Transcript(hash: string, callCount: nat)

  datatype Record = Record(issuedAt: nat, measurement: string, bundle: string, mode: TraceMode, dataClass: string,
                           transcript: Option<Transcript>, status: Status)

  datatype Refusal =
    | NotSealed | NotComplete | NoEvidence | NoSigningKey | MissingConfiguration | DuplicateRank
    | ChainRefused(cause: ChainError)
    | NoDecision | MissingBundle | UnsupportedAlgorithm | ConflictingBundles | ConflictingModes
    | NoDataFlow | TaxonomyConflict | UnrankedClass

  const NANOS_PER_SECOND: nat := 1_000_000_000

  // ---- policy binding -----------------------------------------------------------------------

  function BundleText(d: Digest): string {
    d.algorithm + ":" + d.value
  }

  function MappedMode(mode: EnforcementMode): TraceMode {
    match mode
    case Enforce => EnforceMode
    case Monitor => AdvisoryMode
    case Disabled => DeclaredMode
  }

  predicate HasBundle(d: Event) { d.IsDecision() && d.body.bundleDigest.Some? }

  predicate Supported(d: Event) {
    HasBundle(d) && d.body.bundleDigest.value.algorithm in {"sha256", "sha384"}
  }

  predicate BoundTo(d: Event, bundle: string) {
    HasBundle(d) && BundleText(d.body.bundleDigest.value) == bundle
  }

  predicate RunsUnder(d: Event, mode: EnforcementMode) {
    d.IsDecision() && d.body.mode == mode
  }

  /** `_policy_binding`: one bundle and one mode for all decisions of the run. */
  function PolicyBinding(events: seq<Event>): (r: Result<(string, TraceMode), Refusal>)
    ensures r.Ok? <==>
      && (exists d :: d in events && d.IsDecision())
      && (forall d :: d in events && d.IsDecision() ==> Supported(d))
      && (forall d, e :: d in events && e in events && d.IsDecision() && e.IsDecision() ==>
            BundleText(d.body.bundleDigest.value) == BundleText(e.body.bundleDigest.value) && d.body.mode == e.body.mode)
    ensures r.Ok? ==> forall d :: d in events && d.IsDecision() ==> BoundTo(d, r.value.0) && MappedMode(d.body.mode) == r.value.1
  {
    var decisions := Filter((e: Event) => e.IsDecision(), events);
    if decisions == [] then Err(NoDecision)
    else
      var first := decisions[0];
      assert first in decisions;
      if exists d :: d in decisions && !HasBundle(d) then Err(MissingBundle)
      else if exists d :: d in decisions && !Supported(d) then Err(UnsupportedAlgorithm)
      else
        var bundle := BundleText(first.body.bundleDigest.value);
        if exists d :: d in decisions && !BoundTo(d, bundle) then Err(ConflictingBundles)
        else if exists d :: d in decisions && !RunsUnder(d, first.body.mode) then Err(ConflictingModes)
        else Ok((bundle, MappedMode(first.body.mode)))
  }

  // ---- data class ---------------------------------------------------------------------------

  /** `rank`: the last position of `value` in the configured order. */
  function Rank(order: seq<string>, value: string): (r: int)
    ensures r == -1 <==> value !in order
    ensures r >= 0 ==> r < |order| && order[r] == value
    ensures r >= -1
  {
    if order == [] then -1
    else if order[|order| - 1] == value then |order| - 1
    else Rank(order[..|order| - 1], value)
  }

  function DataClassOf(e: Event): string {
    if e.IsDataFlow() then e.body.dataClass else ""
  }

  /** `max(values, key=rank)`: the first value of greatest rank. */
  function MaxByRank(order: seq<string>, values: seq<string>): (best: string)
    requires values != []
    ensures best in values
    ensures forall v :: v in values ==> Rank(order, v) <= Rank(order, best)
  {
    var last := values[|values| - 1];
    if |values| == 1 then last
    else
      var before := MaxByRank(order, values[..|values| - 1]);
      assert forall v :: v in values ==> v in values[..|values| - 1] || v == last;
      if Rank(order, last) > Rank(order, before) then last else before
  }

  /** The class of a data flow that no other one outranks. */
  function TopClass(order: seq<string>, flows: seq<Event>): (best: string)
    requires flows != []
    ensures exists e :: e in flows && DataClassOf(e) == best
    ensures forall e :: e in flows ==> Rank(order, DataClassOf(e)) <= Rank(order, best)
  {
    var values := Map(DataClassOf, flows);
    var best := MaxByRank(order, values);
    assert exists e :: e in flows && DataClassOf(e) == best by {
      var i :| 0 <= i < |values| && values[i] == best;
      assert flows[i] in flows;
    }
    assert forall e :: e in flows ==> DataClassOf(e) in values by {
      forall e | e in flows ensures DataClassOf(e) in values {
        var i :| 0 <= i < |flows| && flows[i] == e;
        assert values[i] == DataClassOf(e);
      }
    }
    best
  }

  function DataFlows(events: seq<Event>): (flows: seq<Event>)
    ensures forall e :: e in flows <==> e in events && e.IsDataFlow()
  {
    Filter((e: Event) => e.IsDataFlow(), events)
  }

  /** `_highest_data_class`: an observed class that no observed class outranks. */
  function HighestDataClass(events: seq<Event>, config: Config): (r: Result<string, Refusal>)
    ensures r.Ok? <==>
      && (exists e :: e in events && e.IsDataFlow())
      && (forall e :: e in events && e.IsDataFlow() ==> e.body.taxonomy == config.taxonomy && e.body.dataClass in config.order)
    ensures r.Ok? ==> exists e :: e in events && e.IsDataFlow() && e.body.dataClass == r.value
    ensures r.Ok? ==> forall e :: e in events && e.IsDataFlow() ==> Rank(config.order, e.body.dataClass) <= Rank(config.order, r.value)
  {
    var flows := DataFlows(events);
    if flows == [] then
      assert forall e :: e in events && e.IsDataFlow() ==> e in flows;
      Err(NoDataFlow)
    else
      assert flows[0] in flows;
      if exists e :: e in flows && e.IsDataFlow() && e.body.taxonomy != config.taxonomy then Err(TaxonomyConflict)
      else if exists e :: e in flows && DataClassOf(e) !in config.order then Err(UnrankedClass)
      else Ok(TopClass(config.order, flows))
  }

  // ---- issue time and transcript ------------------------------------------------------------

  function LatestTime(events: seq<Event>): (latest: nat)
    requires events != []
    ensures exists e :: e in events && e.time == latest
    ensures forall e :: e in events ==> e.time <= latest
  {
    var last := events[|events| - 1];
    if |events| == 1 then last.time
    else
      var before := LatestTime(events[..|events| - 1]);
      assert forall e :: e in events ==> e in events[..|events| - 1] || e == last;
      if last.time > before then last.time else before
  }

  type ListBytes = seq<(int, Event)> -> seq<byte>

  predicate HoldsAction(e: Entry) { e.event.IsAction() }

  function Numbered(e: Entry): (int, Event) { (e.sequence, e.event) }

  function ActionList(entries: seq<Entry>): seq<(int, Event)> {
    Map(Numbered, Filter(HoldsAction, entries))
  }

  /** `_tool_transcript`: the action events with their evidence sequence, in acceptance order. */
  function ToolTranscript(c: Crypto, listBytes: ListBytes, entries: seq<Entry>): Option<Transcript> {
    var listed := ActionList(entries);
    if listed == [] then None
    else Some(Transcript("sha256:" + Hex(c.sha256(listBytes(listed))), |listed|))
  }

  // ---- the record ---------------------------------------------------------------------------

  ghost predicate GuardsHold(s: Snapshot, config: Config, hasKey: bool) {
    && s.sealed && s.completeness == Complete
    && s.entries != [] && s.chainDigest.Some? && s.chainDigest.value != ""
    && hasKey && "" !in config.required && Distinct(config.order)
  }

  /** When a record is made, and which one. */
  ghost predicate Finalizes(c: Crypto, listBytes: ListBytes, s: Snapshot, config: Config, hasKey: bool, record: Record) {
    && GuardsHold(s, config, hasKey)
    && Verified(c, s)
    && var events := EventsOf(s.entries);
       && PolicyBinding(events) == Ok((record.bundle, record.mode))
       && HighestDataClass(events, config) == Ok(record.dataClass)
       && record.transcript == ToolTranscript(c, listBytes, s.entries)
       && record.status == Verdict(Current(events))
       && record.issuedAt == LatestTime(events) / NANOS_PER_SECOND
       && record.measurement == "sha256:" + s.chainDigest.value
  }

  method FinalizeTrace(c: Crypto, listBytes: ListBytes, s: Snapshot, config: Config, hasKey: bool) returns (r: Result<Record, Refusal>)
    ensures r.Ok? ==> Finalizes(c, listBytes, s, config, hasKey, r.value)
    ensures r.Err? ==> forall record :: !Finalizes(c, listBytes, s, config, hasKey, record)
    ensures r.Err? && r.error.ChainRefused? ==> !Verified(c, s)
  {
    if !s.sealed { return Err(NotSealed); }
    if s.completeness != Complete { return Err(NotComplete); }
    if s.entries == [] || s.chainDigest == None || s.chainDigest == Some("") { return Err(NoEvidence); }
    if !hasKey { return Err(NoSigningKey); }
    if "" in config.required { return Err(MissingConfiguration); }
    if exists i, j :: 0 <= i < j < |config.order| && config.order[i] == config.order[j] { return Err(DuplicateRank); }
    var chain := VerifyChain(c, s);
    if chain.Err? { return Err(ChainRefused(chain.error)); }
    var events := EventsOf(s.entries);
    var policy := PolicyBinding(events);
    if policy.Err? { return Err(policy.error); }
    var dataClass := HighestDataClass(events, config);
    if dataClass.Err? { return Err(dataClass.error); }
    var transcript := ToolTranscript(c, listBytes, s.entries);
    var status := Appraise(events);
    r := Ok(Record(LatestTime(events) / NANOS_PER_SECOND, "sha256:" + s.chainDigest.value,
                   policy.value.0, policy.value.1, dataClass.value, transcript, status));
  }

  // ---- what the record depends on -----------------------------------------------------------

  /**
   The measurement commits to the whole record: two records with one measurement are equal, or
   their snapshots contain a SHA-256 collision.
   */
  lemma MeasurementDeterminesRecord(c: Crypto, listBytes: ListBytes, s: Snapshot, t: Snapshot, config: Config, a: Record, b: Record)
    requires CanonicalInjective(c)
    requires Finalizes(c, listBytes, s, config, true, a) && Finalizes(c, listBytes, t, config, true, b)
    requires a.measurement == b.measurement
    ensures a == b || (FindCollision(c, s.entries, t.entries).Some? &&
                       var pair := FindCollision(c, s.entries, t.entries).value; Collision(c, pair.0, pair.1))
  {
    assert s.chainDigest.value == a.measurement[7..] && t.chainDigest.value == b.measurement[7..];
    if s.entries != t.entries {
      AlteredSnapshotCollides(c, s, t);
    }
  }

  lemma PolicyBindingOrderFree(a: seq<Event>, b: seq<Event>)
    requires Permutation(a, b)
    ensures PolicyBinding(a) == PolicyBinding(b)
  {
    PermutationMembers(a, b);
    var f := (e: Event) => e.IsDecision();
    var p, q := Filter(f, a), Filter(f, b);
    assert forall x :: x in p <==> x in q;
    assert p == [] <==> q == [] by {
      if p != [] { assert p[0] in q; }
      if q != [] { assert q[0] in p; }
    }
    if p != [] {
      assert p[0] in q && q[0] in p;
    }
  }

  lemma RankInjective(order: seq<string>, u: string, v: string)
    requires u in order && Rank(order, u) == Rank(order, v)
    ensures u == v
  {
    assert Rank(order, u) >= 0 && order[Rank(order, u)] == u;
  }

  lemma HighestDataClassOrderFree(a: seq<Event>, b: seq<Event>, config: Config)
    requires Permutation(a, b)
    ensures HighestDataClass(a, config) == HighestDataClass(b, config)
  {
    PermutationMembers(a, b);
    var x, y := HighestDataClass(a, config), HighestDataClass(b, config);
    var p, q := DataFlows(a), DataFlows(b);
    assert forall e :: e in p <==> e in q;
    if x.Ok? {
      RankInjective(config.order, x.value, y.value);
    } else {
      assert p == [] <==> q == [] by {
        if p != [] { assert p[0] in q; }
        if q != [] { assert q[0] in p; }
      }
    }
  }

  lemma LatestTimeOrderFree(a: seq<Event>, b: seq<Event>)
    requires Permutation(a, b) && a != [] && b != []
    ensures LatestTime(a) == LatestTime(b)
  {
    PermutationMembers(a, b);
  }

  /** Everything but the measurement and the transcript is the same for every order of acceptance. */
  lemma RecordOrderFree(c: Crypto, listBytes: ListBytes, s: Snapshot, t: Snapshot, config: Config, a: Record, b: Record)
    requires Finalizes(c, listBytes, s, config, true, a) && Finalizes(c, listBytes, t, config, true, b)
    requires Permutation(EventsOf(s.entries), EventsOf(t.entries)) && Consistent(EventsOf(s.entries))
    ensures a == b.(measurement := a.measurement, transcript := a.transcript)
  {
    var x, y := EventsOf(s.entries), EventsOf(t.entries);
    PolicyBindingOrderFree(x, y);
    HighestDataClassOrderFree(x, y, config);
    LatestTimeOrderFree(x, y);
    AppraisalProperties.AppraisalOrderFree(x, y);
  }

  /** Every snapshot an accumulator hands out, in any interleaving, has consistent decisions. */
  lemma HandedOutIsConsistent(setup: Concurrency.Setup, w: Concurrency.World, i: nat)
    requires Concurrency.Reachable(setup, w) && i < |w.snapshots|
    ensures Verified(setup.crypto, w.snapshots[i])
    ensures Consistent(EventsOf(w.snapshots[i].entries))
    ensures w.snapshots[i].sealed ==> EventsOf(w.snapshots[i].entries) == EventsOf(w.ledger.entries)
  {
    Concurrency.ReachableInvariant(setup, w);
    assert Concurrency.SnapshotOk(setup, w.ledger, Concurrency.Holder(w), w.snapshots[i]);
    var entries, events := w.snapshots[i].entries, EventsOf(w.snapshots[i].entries);
    forall j, k | 0 <= j < k < |events| ensures events[j].id != events[k].id {
      assert Linked(setup.crypto, w.snapshots[i].runId, entries, j) && Linked(setup.crypto, w.snapshots[i].runId, entries, k);
      assert entries[j] == w.ledger.entries[j] && entries[k] == w.ledger.entries[k];
    }
    AppraisalProperties.DistinctIdsConsistent(events);
  }

  // ---- a denial that a finalized run forgets ------------------------------------------------

  /** A chain can always take one more event of its run, if the event has canonical bytes. */
  lemma OneMoreEntry(c: Crypto, runId: string, entries: seq<Entry>, event: Event) returns (longer: seq<Entry>)
    requires Chain(c, runId, entries) && event.runId == runId && c.canonical(event).Some? && |entries| < TWO_POW_64
    ensures Chain(c, runId, longer) && EventsOf(longer) == EventsOf(entries) + [event] && |longer| == |entries| + 1
    ensures LastDigest(longer).Some? && LastDigest(longer).value != ""
  {
    if entries != [] {
      DigestSpells(c, runId, entries, |entries| - 1);
    }
    var digest := EntryDigest(c, |entries|, LastDigest(entries), event).value;
    ExtendChain(c, runId, entries, event, digest);
    longer := entries + [Entry(|entries|, event.id, LastDigest(entries), digest, event)];
    HexRoundTrip(c.sha256(Material(PreviousBytes(LastDigest(entries)).value, |entries|, c.canonical(event).value)));
  }

  /** Two decisions with one id, the later one allowing, and a data flow: all that finalization asks for. */
  predicate HidesADenial(deny: Event, allow: Event, flow: Event, config: Config) {
    && Supported(deny) && Supported(allow) && deny.body.bundleDigest == allow.body.bundleDigest && deny.body.mode == allow.body.mode
    && deny.id == allow.id && deny.body.decision == Deny && allow.body.decision == Allow
    && flow.IsDataFlow() && flow.body.taxonomy == config.taxonomy && flow.body.dataClass in config.order
  }

  /** The order of the two decisions decides between affirming and contraindicated. */
  lemma HiddenDenialVerdict(deny: Event, allow: Event, flow: Event, config: Config)
    requires HidesADenial(deny, allow, flow, config)
    ensures Verdict(Current([deny, allow, flow])) == Affirming
    ensures Verdict(Current([allow, deny, flow])) == Contraindicated
    ensures Refused(Members([deny, allow, flow]))
  {
    var reversed := [allow, deny, flow];
    assert reversed[1] == deny && reversed[2] == flow && !Replaced(reversed, 1);
    assert deny in Current(reversed);
    var events := [deny, allow, flow];
    assert events[0] == deny && events[1] == allow && events[2] == flow;
    assert Replaced(events, 0) && !Replaced(events, 1) && !Replaced(events, 2);
    assert Current(events) == {allow, flow};
    assert allow in {allow, flow} && Governed({allow, flow});
    assert deny in Members(events);
  }

  /**
   `_verify_chain` lets two decisions share an id, and a run whose denial is replaced that way
   is finalized as affirming, although the documentation has any denial make it contraindicated.
   */
  lemma FinalizedDespiteDenial(c: Crypto, listBytes: ListBytes, deny: Event, allow: Event, flow: Event, config: Config)
    returns (s: Snapshot, record: Record)
    requires HidesADenial(deny, allow, flow, config) && deny.runId == allow.runId == flow.runId
    requires c.canonical(deny).Some? && c.canonical(allow).Some? && c.canonical(flow).Some?
    requires "" !in config.required && Distinct(config.order)
    ensures Finalizes(c, listBytes, s, config, true, record) && record.status == Affirming
    ensures EventsOf(s.entries) == [deny, allow, flow] && Refused(Members(EventsOf(s.entries)))
  {
    s := ThreeEntries(c, deny, allow, flow);
    var events := [deny, allow, flow];
    HiddenDenialVerdict(deny, allow, flow, config);
    DerivationsSucceed(deny, allow, flow, config);
    var policy := PolicyBinding(events).value;
    record := Record(LatestTime(events) / NANOS_PER_SECOND, "sha256:" + s.chainDigest.value, policy.0, policy.1,
                     HighestDataClass(events, config).value, ToolTranscript(c, listBytes, s.entries), Affirming);
  }

  /** A complete, verified snapshot of three events of one run. */
  lemma ThreeEntries(c: Crypto, x: Event, y: Event, z: Event) returns (s: Snapshot)
    requires x.runId == y.runId == z.runId
    requires c.canonical(x).Some? && c.canonical(y).Some? && c.canonical(z).Some?
    ensures Verified(c, s) && EventsOf(s.entries) == [x, y, z]
    ensures s.sealed && s.completeness == Complete && s.entries != [] && s.chainDigest.Some? && s.chainDigest.value != ""
  {
    var one := OneMoreEntry(c, x.runId, [], x);
    var two := OneMoreEntry(c, x.runId, one, y);
    var entries := OneMoreEntry(c, x.runId, two, z);
    assert EventsOf(entries) == [x, y, z];
    s := Snapshot(x.runId, entries, LastDigest(entries), PROFILE, Complete, true);
  }

  lemma DerivationsSucceed(deny: Event, allow: Event, flow: Event, config: Config)
    requires HidesADenial(deny, allow, flow, config)
    ensures PolicyBinding([deny, allow, flow]).Ok? && HighestDataClass([deny, allow, flow], config).Ok?
  {
    var events := [deny, allow, flow];
    assert events[0] == deny && events[2] == flow;
    assert forall e :: e in events && e.IsDecision() ==> e == deny || e == allow;
    assert forall e :: e in events && e.IsDataFlow() ==> e == flow;
  }
}
