/**
 The telemetry client with the accumulator as its sink, and the AGT batch sink on top of it:
 evidence is accepted before anything is projected, and a failing projector changes nothing else.

 An event is a reference to the caller's object. The durable callback may change that object
 before the projectors read it, so what they show is recorded besides what was accepted. What
 the span resolver and the projectors do in one call is the parameter `env`.
 */
module Client {
  import opened Accumulator
  import opened Events
  import opened EvidenceChain
  import opened JsonShape
  import opened Ledger
  import opened Objects
  import opened Prelude

  datatype Context = Context(traceId: string, spanId: string)

  datatype MetricReply = MetricReturns(emitted: bool) | MetricRaises

  datatype Env = Env(context: Option<Context>, spanRaises: bool, logRaises: bool, metric: MetricReply)

  /** `traceId` and `spanId` read the members of those names, where an event has them. */
  datatype Config = Config(schema: Schema, limit: nat, traceId: Event -> Option<string>, spanId: Event -> Option<string>,
                           hasLog: bool, hasMetrics: bool)

  datatype Target = SpanTarget | LogTarget | MetricTarget

  /** What the world sees of one `emit`. */
  datatype Act =
    | Accepted(source: Ref, event: Event)
    | Projected(target: Target, source: Ref, shown: Option<Event>, done: bool)

  datatype EmitResult = EmitResult(spanEmitted: bool, logEmitted: bool, context: Option<Context>, errors: seq<Target>,
                                   evidencePersisted: bool, metricsEmitted: bool)

  datatype EmitError = NotValid | ContextMismatch | NotAccepted(cause: EvidenceError)

  function SpanActs(env: Env, source: Ref, shown: Option<Event>): seq<Act> {
    if env.context.Some? then [Projected(SpanTarget, source, shown, !env.spanRaises)] else []
  }

  function LogActs(cfg: Config, env: Env, source: Ref, shown: Option<Event>): seq<Act> {
    if cfg.hasLog then [Projected(LogTarget, source, shown, !env.logRaises)] else []
  }

  function MetricActs(cfg: Config, env: Env, source: Ref, shown: Option<Event>): seq<Act> {
    if cfg.hasMetrics then [Projected(MetricTarget, source, shown, env.metric.MetricReturns?)] else []
  }

  /** Every configured projection is attempted, whichever of them fail. */
  function Projections(cfg: Config, env: Env, source: Ref, shown: Option<Event>): seq<Act> {
    SpanActs(env, source, shown) + LogActs(cfg, env, source, shown) + MetricActs(cfg, env, source, shown)
  }

  /** The projectors that fail. */
  function Failing(cfg: Config, env: Env): seq<Target> {
    (if env.context.Some? && env.spanRaises then [SpanTarget] else [])
    + (if cfg.hasLog && env.logRaises then [LogTarget] else [])
    + (if cfg.hasMetrics && env.metric.MetricRaises? then [MetricTarget] else [])
  }

  /** What `emit` reports: which projections succeeded, and which failed. */
  function ResultOf(cfg: Config, env: Env, persisted: bool): EmitResult {
    EmitResult(env.context.Some? && !env.spanRaises, cfg.hasLog && !env.logRaises, env.context, Failing(cfg, env), persisted,
               cfg.hasMetrics && env.metric == MetricReturns(true))
  }

  /** What the caller is told, projector by projector. */
  lemma ResultMeans(cfg: Config, env: Env, persisted: bool)
    ensures var r := ResultOf(cfg, env, persisted);
            && r.evidencePersisted == persisted && r.context == env.context
            && (r.spanEmitted <==> env.context.Some? && !env.spanRaises)
            && (r.logEmitted <==> cfg.hasLog && !env.logRaises)
            && (r.metricsEmitted <==> cfg.hasMetrics && env.metric == MetricReturns(true))
            && (SpanTarget in r.errors <==> env.context.Some? && env.spanRaises)
            && (LogTarget in r.errors <==> cfg.hasLog && env.logRaises)
            && (MetricTarget in r.errors <==> cfg.hasMetrics && env.metric == MetricRaises)
            && Distinct(r.errors)
  {
  }

  lemma ProjectionsAre(cfg: Config, env: Env, source: Ref, shown: Option<Event>, p: Act)
    ensures p in Projections(cfg, env, source, shown) <==>
      || (env.context.Some? && p == Projected(SpanTarget, source, shown, !env.spanRaises))
      || (cfg.hasLog && p == Projected(LogTarget, source, shown, !env.logRaises))
      || (cfg.hasMetrics && p == Projected(MetricTarget, source, shown, env.metric != MetricRaises))
  {
    assert p in Projections(cfg, env, source, shown) <==>
      p in SpanActs(env, source, shown) || p in LogActs(cfg, env, source, shown) || p in MetricActs(cfg, env, source, shown);
  }

  /** Each projector that is configured is called, with what the event shows, whatever the others do. */
  lemma ProjectionsMean(cfg: Config, env: Env, source: Ref, shown: Option<Event>, target: Target, done: bool)
    ensures Projected(target, source, shown, done) in Projections(cfg, env, source, shown) <==>
      match target
      case SpanTarget => env.context.Some? && done == !env.spanRaises
      case LogTarget => cfg.hasLog && done == !env.logRaises
      case MetricTarget => cfg.hasMetrics && (done <==> env.metric != MetricRaises)
    ensures forall p :: p in Projections(cfg, env, source, shown) ==> p.Projected? && p.source == source && p.shown == shown
  {
    forall p { ProjectionsAre(cfg, env, source, shown, p); }
  }

  /** And it is called once. */
  lemma ProjectedOnce(cfg: Config, env: Env, source: Ref, shown: Option<Event>, i: nat, j: nat)
    requires i < j < |Projections(cfg, env, source, shown)|
    ensures var acts := Projections(cfg, env, source, shown);
            acts[i].Projected? && acts[j].Projected? && acts[i].target != acts[j].target
  {
  }

  /** The member is absent or is this id. */
  predicate Names(member: Option<string>, id: string) {
    member == None || member == Some(id)
  }

  predicate ContextFits(cfg: Config, env: Env, event: Event) {
    env.context.Some? ==> Names(cfg.traceId(event), env.context.value.traceId) && Names(cfg.spanId(event), env.context.value.spanId)
  }

  /** An event is out of place exactly when it names another trace or another span than the active ones. */
  lemma MismatchMeans(cfg: Config, env: Env, event: Event)
    ensures !ContextFits(cfg, env, event) <==>
      && env.context.Some?
      && ((cfg.traceId(event).Some? && cfg.traceId(event).value != env.context.value.traceId)
          || (cfg.spanId(event).Some? && cfg.spanId(event).value != env.context.value.spanId))
  {
  }

  predicate IsAcceptanceOf(act: Act, source: Ref) {
    act.Accepted? && act.source == source
  }

  /** Act `i`, if it projects an event, follows the acceptance of that event with no other acceptance between. */
  ghost predicate FollowsAcceptance(acts: seq<Act>, i: nat)
    requires i < |acts|
  {
    acts[i].Projected? ==> exists j :: 0 <= j < i && IsAcceptanceOf(acts[j], acts[i].source) && forall k :: j < k < i ==> acts[k].Projected?
  }

  /** Every projection follows the acceptance of its event, and every accepted event is in the evidence. */
  ghost predicate AcceptedFirst(acts: seq<Act>, evidence: seq<Event>) {
    acts != [] ==>
      var last := |acts| - 1;
      && AcceptedFirst(acts[..last], evidence)
      && FollowsAcceptance(acts, last)
      && (acts[last].Accepted? ==> acts[last].event in evidence)
  }

  /** The same, act by act. */
  lemma {:induction false} AcceptedFirstMeans(acts: seq<Act>, evidence: seq<Event>)
    requires AcceptedFirst(acts, evidence)
    ensures forall i :: 0 <= i < |acts| ==> FollowsAcceptance(acts, i)
    ensures forall i :: 0 <= i < |acts| && acts[i].Accepted? ==> acts[i].event in evidence
  {
    if acts != [] {
      var before := acts[..|acts| - 1];
      AcceptedFirstMeans(before, evidence);
      forall i | 0 <= i < |before| ensures FollowsAcceptance(acts, i) {
        assert FollowsAcceptance(before, i);
        if acts[i].Projected? {
          var j :| 0 <= j < i && IsAcceptanceOf(before[j], before[i].source) && forall k :: j < k < i ==> before[k].Projected?;
          assert IsAcceptanceOf(acts[j], acts[i].source) && forall k :: j < k < i ==> acts[k].Projected?;
        }
      }
      forall i | 0 <= i < |acts| && acts[i].Accepted? ensures acts[i].event in evidence {
        assert i < |before| ==> before[i] == acts[i];
      }
    }
  }

  lemma {:induction false} EvidenceGrows(acts: seq<Act>, evidence: seq<Event>, event: Event)
    requires AcceptedFirst(acts, evidence)
    ensures AcceptedFirst(acts, evidence + [event])
  {
    if acts != [] {
      EvidenceGrows(acts[..|acts| - 1], evidence, event);
    }
  }

  lemma ProjectTheSource(cfg: Config, env: Env, source: Ref, shown: Option<Event>)
    ensures forall p :: p in Projections(cfg, env, source, shown) ==> p.Projected? && p.source == source
  {
  }

  lemma AcceptanceKeepsOrder(acts: seq<Act>, evidence: seq<Event>, source: Ref, event: Event)
    requires AcceptedFirst(acts, evidence)
    ensures AcceptedFirst(acts + [Accepted(source, event)], evidence + [event])
  {
    EvidenceGrows(acts, evidence, event);
    assert (acts + [Accepted(source, event)])[..|acts|] == acts;
  }

  lemma {:induction false} ProjectionsKeepOrder(acts: seq<Act>, evidence: seq<Event>, at: nat, projections: seq<Act>)
    requires AcceptedFirst(acts, evidence) && at == |acts| - 1 && acts[at].Accepted?
    requires forall p :: p in projections ==> p.Projected? && p.source == acts[at].source
    ensures AcceptedFirst(acts + projections, evidence)
    decreases |projections|
  {
    var all, n := acts + projections, |projections|;
    if n == 0 {
      assert all == acts;
    } else {
      ProjectionsKeepOrder(acts, evidence, at, projections[..n - 1]);
      assert all[..|acts| + n - 1] == acts + projections[..n - 1];
      assert forall k :: at < k < |all| ==> all[k] in projections;
      assert all[at] == acts[at] && FollowsAcceptance(all, |acts| + n - 1);
    }
  }

  /** One more `emit` keeps that, whichever projections it attempts and whichever of them fail. */
  lemma EmitKeepsOrder(acts: seq<Act>, evidence: seq<Event>, source: Ref, event: Event, projections: seq<Act>)
    requires AcceptedFirst(acts, evidence)
    requires forall p :: p in projections ==> p.Projected? && p.source == source
    ensures AcceptedFirst(acts + [Accepted(source, event)] + projections, evidence + [event])
  {
    AcceptanceKeepsOrder(acts, evidence, source, event);
    ProjectionsKeepOrder(acts + [Accepted(source, event)], evidence + [event], |acts|, projections);
  }

  lemma LongerEvidence(log: seq<Entry>, longer: seq<Entry>, entry: Entry)
    requires longer == log + [entry]
    ensures EventsOf(longer) == EventsOf(log) + [entry.event]
  {
  }

  class TelemetryClient {
    const config: Config
    const memory: Memory
    const sink: EvidenceAccumulator?
    /** Everything accepted and projected so far. */
    ghost var history: seq<Act>

    ghost predicate Valid()
      reads this, memory, sink
    {
      if sink == null then Secluded(memory.objects, memory.known, {})
      else Connected() && AcceptedFirst(history, Evidence())
    }

    /** There is a sink, and it works on the same heap. */
    ghost predicate Connected()
      reads this, memory, sink
    {
      sink != null && sink.memory == memory && sink.Valid()
    }

    /** The evidence the sink holds. */
    ghost function Evidence(): seq<Event>
      reads this, sink
    {
      if sink == null then [] else EventsOf(sink.log)
    }

    /** What the client's own validation makes of an event. */
    ghost function Shown(event: Ref): Option<Event>
      requires Closed(memory.objects) && event < |memory.objects|
      reads this, memory
    {
      Read(config.schema, config.limit, memory.objects, event)
    }

    /** New objects do not change what an event shows. */
    twostate lemma StillShown(event: Ref)
      requires old(Closed(memory.objects) && event < |memory.objects|)
      requires Closed(memory.objects) && old(memory.objects) <= memory.objects
      ensures Shown(event) == old(Shown(event))
    {
      ValuesStay(old(memory.objects), memory.objects, event, config.limit + 1);
    }

    /** No call of `me` other than one from inside the sink's own callback finds the sink busy. */
    ghost predicate MayEmit(me: nat)
      reads this, sink
    {
      sink != null ==> sink.owner == None || sink.owner == Some(me)
    }

    constructor (config: Config, memory: Memory, sink: EvidenceAccumulator?)
      requires if sink == null then Secluded(memory.objects, memory.known, {}) else sink.memory == memory && sink.Valid()
      ensures Valid() && this.config == config && this.memory == memory && this.sink == sink && history == []
    {
      this.config, this.memory, this.sink, this.history := config, memory, sink, [];
    }

    method Emit(me: nat, event: Ref, env: Env) returns (r: Result<EmitResult, EmitError>, ghost shown: Option<Event>)
      requires Valid() && event in memory.known && MayEmit(me)
      modifies this, memory, sink
      ensures Valid() && old(memory.known) <= memory.known && (sink != null ==> sink.owner == old(sink.owner))
      // refused by a check
      ensures old(Refusal(event, env)).Some? ==> r == Err(old(Refusal(event, env)).value)
      // refused: nothing is projected and the evidence is as it was
      ensures r.Err? ==> history == old(history) && Evidence() == old(Evidence())
      // accepted: committed first, then every configured projection
      ensures r.Ok? && sink == null ==> history == old(history) + Projections(config, env, event, shown)
      ensures r.Ok? && sink != null ==>
                && old(sink.Shown(event)).Some?
                && var value := old(sink.Shown(event)).value;
                   && history == old(history) + [Accepted(event, value)] + Projections(config, env, event, shown)
                   && Evidence() == old(Evidence()) + [value]
      ensures r.Ok? ==> r.value == ResultOf(config, env, sink != null)
      // only the callback can make the projectors show something else
      ensures r.Ok? && (sink == null || !sink.durable) ==> shown == old(Shown(event))
      ensures sink == null || !sink.durable ==> old(memory.objects) <= memory.objects
      // past the checks, a sink and its callback alone decide
      ensures old(Refusal(event, env)).None? && r.Err? ==>
                sink != null && r.error == NotAccepted(match old(sink.Verdict(event, me)) case Err(error) => error case Ok(_) => NotPersisted)
      ensures old(Refusal(event, env)).None? && sink != null && old(sink.Verdict(event, me)).Err? ==> r.Err?
      ensures old(Refusal(event, env)).None? && sink != null && old(sink.Verdict(event, me)).Ok? && !sink.durable ==> r.Ok?
    {
      shown := None;
      var refused := Check(event, env);
      if refused.Some? {
        return Err(refused.value), None;
      }
      if sink != null {
        r, shown := EmitToSink(me, event, env, sink.Shown(event), sink.Verdict(event, me));
      } else {
        shown := Shown(event);
        var result := ProjectOnly(event, env);
        r := Ok(result);
      }
    }

    /** What `emit` checks before it changes anything. */
    ghost function Refusal(event: Ref, env: Env): Option<EmitError>
      requires Closed(memory.objects) && event < |memory.objects|
      reads this, memory
    {
      if Shown(event).None? then Some(NotValid)
      else if !ContextFits(config, env, Shown(event).value) then Some(ContextMismatch)
      else None
    }

    method Check(event: Ref, env: Env) returns (refused: Option<EmitError>)
      requires Closed(memory.objects) && event < |memory.objects|
      ensures refused == Refusal(event, env)
      ensures refused.None? ==> Bounded(memory.objects, event, config.limit)
    {
      var value := Validate(event);
      if value.None? {
        return Some(NotValid);
      }
      if env.context.Some? {
        if !Names(config.traceId(value.value), env.context.value.traceId) {
          return Some(ContextMismatch);
        }
        if !Names(config.spanId(value.value), env.context.value.spanId) {
          return Some(ContextMismatch);
        }
      }
      return None;
    }

    /** Without a sink there is nothing to accept first. */
    method ProjectOnly(event: Ref, env: Env) returns (result: EmitResult)
      requires Valid() && sink == null && event in memory.known
      modifies this`history
      ensures Valid() && history == old(history) + Projections(config, env, event, Shown(event))
      ensures result == ResultOf(config, env, false)
    {
      result := Project(event, env, false);
    }

    method Validate(event: Ref) returns (value: Option<Event>)
      requires Closed(memory.objects) && event < |memory.objects|
      ensures value == Shown(event)
      ensures value.Some? ==> Bounded(memory.objects, event, config.limit)
    {
      var fault := Walk(memory.objects, event, config.limit);
      FitsIffGood(memory.objects, event, config.limit);
      if fault.Some? {
        return None;
      }
      return config.schema(Tree(memory.objects, event, config.limit + 1));
    }

    /** `value` and `verdict` are what the sink makes of the event as it is now. */
    method EmitToSink(me: nat, event: Ref, env: Env, ghost value: Option<Event>, ghost verdict: Result<Entry, EvidenceError>)
      returns (r: Result<EmitResult, EmitError>, ghost shown: Option<Event>)
      requires Valid() && sink != null && event in memory.known && MayEmit(me) && Bounded(memory.objects, event, config.limit)
      requires value == sink.Shown(event) && verdict == sink.Verdict(event, me)
      modifies this, memory, sink
      ensures Valid() && old(memory.known) <= memory.known && sink.owner == old(sink.owner)
      ensures r.Err? ==> r.error.NotAccepted? && history == old(history) && Evidence() == old(Evidence())
      ensures r.Ok? ==> value.Some? && r.value == ResultOf(config, env, true)
      ensures r.Ok? ==> history == old(history) + [Accepted(event, value.value)] + Projections(config, env, event, shown)
      ensures r.Ok? ==> Evidence() == old(Evidence()) + [value.value]
      ensures !sink.durable ==> shown == old(Shown(event)) && old(memory.objects) <= memory.objects
      ensures verdict.Err? ==> r == Err(NotAccepted(verdict.error))
      ensures r.Err? && verdict.Ok? ==> sink.durable && r == Err(NotAccepted(NotPersisted))
    {
      var refused := Accept(me, event, value, verdict);
      shown := Shown(event);
      if !sink.durable {
        StillShown(event);
      }
      if refused.Some? {
        return Err(NotAccepted(refused.value)), shown;
      }
      var result := ProjectAccepted(event, env, old(history), value.value);
      return Ok(result), shown;
    }

    /** The projections of an event that was just accepted. */
    method ProjectAccepted(event: Ref, env: Env, ghost before: seq<Act>, ghost value: Event) returns (result: EmitResult)
      requires Valid() && sink != null && event in memory.known && history == before + [Accepted(event, value)]
      modifies this`history
      ensures Valid() && history == before + [Accepted(event, value)] + Projections(config, env, event, Shown(event))
      ensures result == ResultOf(config, env, true)
    {
      result := Project(event, env, true);
      ProjectTheSource(config, env, event, Shown(event));
      ProjectionsKeepOrder(before + [Accepted(event, value)], Evidence(), |before|, Projections(config, env, event, Shown(event)));
    }

    method Accept(me: nat, event: Ref, ghost value: Option<Event>, ghost verdict: Result<Entry, EvidenceError>)
      returns (refused: Option<EvidenceError>)
      requires Valid() && sink != null && event in memory.known && MayEmit(me) && Bounded(memory.objects, event, config.limit)
      requires value == sink.Shown(event) && verdict == sink.Verdict(event, me)
      modifies this`history, memory, sink
      ensures Valid() && old(memory.known) <= memory.known && sink.owner == old(sink.owner)
      ensures refused.Some? ==> history == old(history) && Evidence() == old(Evidence())
      ensures refused.None? ==> value.Some? && history == old(history) + [Accepted(event, value.value)] && Evidence() == old(Evidence()) + [value.value]
      ensures !sink.durable ==> old(memory.objects) <= memory.objects
      ensures verdict.Err? ==> refused == Some(verdict.error)
      ensures refused.Some? && verdict.Ok? ==> sink.durable && refused == Some(NotPersisted)
    {
      sink.VerdictShows(event, me);
      refused := PassToSink(me, event, verdict);
      if refused.None? {
        Record(event, old(Evidence()), value.value);
      }
    }

    /** The acceptance is now part of the history. */
    ghost method Record(event: Ref, before: seq<Event>, value: Event)
      requires Connected() && AcceptedFirst(history, before) && Evidence() == before + [value]
      modifies this`history
      ensures Valid() && history == old(history) + [Accepted(event, value)]
    {
      AcceptanceKeepsOrder(history, before, event, value);
      history := history + [Accepted(event, value)];
    }

    /** `append(deepcopy(event))`. */
    method PassToSink(me: nat, event: Ref, ghost verdict: Result<Entry, EvidenceError>) returns (refused: Option<EvidenceError>)
      requires Connected() && event in memory.known && MayEmit(me) && Bounded(memory.objects, event, config.limit)
      requires verdict == sink.Verdict(event, me)
      modifies memory, sink
      ensures Connected() && old(memory.known) <= memory.known && sink.owner == old(sink.owner)
      ensures refused.Some? ==> Evidence() == old(Evidence())
      ensures refused.None? ==> verdict.Ok? && Evidence() == old(Evidence()) + [verdict.value.event]
      ensures !sink.durable ==> old(memory.objects) <= memory.objects
      ensures verdict.Err? ==> refused == Some(verdict.error)
      ensures refused.Some? && verdict.Ok? ==> sink.durable && refused == Some(NotPersisted)
    {
      var copy := CopyForSink(event, me, verdict);
      refused := AppendCopy(me, copy, verdict);
    }

    method AppendCopy(me: nat, copy: Ref, ghost verdict: Result<Entry, EvidenceError>) returns (refused: Option<EvidenceError>)
      requires Connected() && copy in memory.known && MayEmit(me)
      requires verdict == sink.Verdict(copy, me)
      modifies memory, sink
      ensures Connected() && old(memory.known) <= memory.known && sink.owner == old(sink.owner)
      ensures refused.Some? ==> Evidence() == old(Evidence())
      ensures refused.None? ==> verdict.Ok? && Evidence() == old(Evidence()) + [verdict.value.event]
      ensures !sink.durable ==> old(memory.objects) <= memory.objects
      ensures verdict.Err? ==> refused == Some(verdict.error)
      ensures refused.Some? && verdict.Ok? ==> sink.durable && refused == Some(NotPersisted)
    {
      ghost var before := sink.State();
      var entry := sink.Append(me, copy);
      match entry
      case Err(error) =>
        assert sink.State() == before;
        return Some(error);
      case Ok(_) =>
        assert sink.State().entries == before.entries + [verdict.value];
        LongerEvidence(before.entries, sink.log, verdict.value);
        return None;
    }

    /** `deepcopy(event)`, made by the client and passed to the sink. */
    method CopyForSink(event: Ref, ghost me: nat, ghost verdict: Result<Entry, EvidenceError>) returns (copy: Ref)
      requires Connected() && event in memory.known && Bounded(memory.objects, event, config.limit)
      requires verdict == sink.Verdict(event, me)
      modifies memory
      ensures Connected() && old(memory.known) <= memory.known && old(memory.objects) <= memory.objects
      ensures copy in memory.known && verdict == sink.Verdict(copy, me)
    {
      copy := memory.CopyOutside(event, config.limit, sink.kept);
      sink.StaysValid();
    }

    /** The three projections, each in its own `try`. */
    method Project(event: Ref, env: Env, persisted: bool) returns (result: EmitResult)
      requires Closed(memory.objects) && event < |memory.objects|
      modifies this`history
      ensures history == old(history) + Projections(config, env, event, Shown(event))
      ensures result == ResultOf(config, env, persisted)
    {
      ghost var shown := Shown(event);
      ghost var acts: seq<Act> := [];
      var errors: seq<Target> := [];
      var spanEmitted, logEmitted, metricsEmitted := false, false, false;
      if env.context.Some? {
        acts := acts + [Projected(SpanTarget, event, shown, !env.spanRaises)];
        if env.spanRaises {
          errors := errors + [SpanTarget];
        } else {
          spanEmitted := true;
        }
      }
      assert acts == SpanActs(env, event, shown);
      if config.hasLog {
        acts := acts + [Projected(LogTarget, event, shown, !env.logRaises)];
        if env.logRaises {
          errors := errors + [LogTarget];
        } else {
          logEmitted := true;
        }
      }
      assert acts == SpanActs(env, event, shown) + LogActs(config, env, event, shown);
      if config.hasMetrics {
        acts := acts + [Projected(MetricTarget, event, shown, env.metric.MetricReturns?)];
        match env.metric
        case MetricRaises => errors := errors + [MetricTarget];
        case MetricReturns(emitted) => metricsEmitted := emitted;
      }
      assert acts == Projections(config, env, event, shown);
      assert errors == Failing(config, env);
      history := history + acts;
      return EmitResult(spanEmitted, logEmitted, env.context, errors, persisted, metricsEmitted);
    }
  }

  // ---- the batch sink -----------------------------------------------------------------------

  /** Source events are mapped by caller code, which may raise; the events are objects it made before. */
  function MapAll<S>(mapper: S -> Option<seq<Ref>>, sources: seq<S>): Option<seq<Ref>> {
    if sources == [] then Some([])
    else match (MapAll(mapper, sources[..|sources| - 1]), mapper(sources[|sources| - 1]))
      case (Some(before), Some(last)) => Some(before + last)
      case _ => None
  }

  /** A batch of one source is what the mapper makes of it. */
  lemma MapOne<S>(mapper: S -> Option<seq<Ref>>, source: S)
    ensures MapAll(mapper, [source]) == mapper(source)
  {
    assert [source][..0] == [];
    assert MapAll(mapper, []) == Some([]);
    if mapper(source).Some? {
      assert [] + mapper(source).value == mapper(source).value;
    }
  }

  /** Batches are mapped in order, and all of it fails where a part of it fails. */
  lemma {:induction false} MapBoth<S>(mapper: S -> Option<seq<Ref>>, a: seq<S>, b: seq<S>)
    ensures MapAll(mapper, a + b) ==
      match (MapAll(mapper, a), MapAll(mapper, b))
      case (Some(x), Some(y)) => Some(x + y)
      case _ => None
  {
    if b == [] {
      assert a + b == a;
      if MapAll(mapper, a).Some? {
        assert MapAll(mapper, a).value + [] == MapAll(mapper, a).value;
      }
    } else {
      var n := |b| - 1;
      assert (a + b)[..|a + b| - 1] == a + b[..n] && (a + b)[|a + b| - 1] == b[n];
      MapBoth(mapper, a, b[..n]);
      if MapAll(mapper, a).Some? && MapAll(mapper, b[..n]).Some? && mapper(b[n]).Some? {
        assert MapAll(mapper, a).value + MapAll(mapper, b[..n]).value + mapper(b[n]).value
            == MapAll(mapper, a).value + (MapAll(mapper, b[..n]).value + mapper(b[n]).value);
      }
    }
  }

  /** No projector failed on the first `n` events. */
  predicate AllProjected(cfg: Config, envs: nat -> Env, n: nat) {
    forall i :: 0 <= i < n ==> Failing(cfg, envs(i)) == []
  }

  /** The values that the first events of a batch showed. */
  ghost predicate ShownBy(schema: Schema, limit: nat, heap: Heap, events: seq<Ref>, taken: seq<Event>)
    requires Closed(heap)
  {
    && |taken| <= |events|
    && forall i :: 0 <= i < |taken| ==> events[i] < |heap| && Read(schema, limit, heap, events[i]) == Some(taken[i])
  }

  /** Without a callback nothing changes, so `taken` are the values the batch showed at the start. */
  ghost predicate Steady(durable: bool, schema: Schema, limit: nat, start: Heap, now: Heap, events: seq<Ref>, taken: seq<Event>)
    requires Closed(start)
  {
    durable || (start <= now && ShownBy(schema, limit, start, events, taken))
  }

  lemma SteadyNext(durable: bool, schema: Schema, limit: nat, start: Heap, now: Heap, later: Heap, events: seq<Ref>, taken: seq<Event>, value: Event)
    requires Closed(start) && Closed(now) && Steady(durable, schema, limit, start, now, events, taken)
    requires |taken| < |events| && events[|taken|] < |start| && (durable || now <= later)
    requires durable || Read(schema, limit, now, events[|taken|]) == Some(value)
    ensures Steady(durable, schema, limit, start, later, events, taken + [value])
  {
    if !durable {
      ValuesStay(start, now, events[|taken|], limit + 1);
    }
  }

  lemma ProjectedNext(cfg: Config, envs: nat -> Env, n: nat)
    ensures AllProjected(cfg, envs, n + 1) <==> AllProjected(cfg, envs, n) && Failing(cfg, envs(n)) == []
  {
  }

  lemma OneMoreTaken(before: seq<Event>, taken: seq<Event>, value: Event)
    ensures before + taken + [value] == before + (taken + [value])
  {
  }

  /**
   `AgtGovernanceEventSink.emit`: the whole batch is mapped first. `taken` are the values that
   reached the evidence, whatever the call answers: those of a prefix of the batch, as they were
   when the batch was mapped unless the durable callback changed them meanwhile.
   */
  method EmitBatch<S>(client: TelemetryClient, me: nat, mapper: S -> Option<seq<Ref>>, sources: seq<S>, envs: nat -> Env)
    returns (success: bool, ghost taken: seq<Event>)
    requires client.Valid() && client.sink != null && client.MayEmit(me)
    requires MapAll(mapper, sources).Some? ==> forall e :: e in MapAll(mapper, sources).value ==> e in client.memory.known
    modifies client, client.memory, client.sink
    ensures client.Valid() && client.Evidence() == old(client.Evidence()) + taken
    ensures match MapAll(mapper, sources)
      case None => !success && taken == []
      case Some(events) =>
        && |taken| <= |events|
        && (success <==> |taken| == |events| && AllProjected(client.config, envs, |taken|))
        && (!client.sink.durable ==> ShownBy(client.sink.schema, client.sink.limit, old(client.memory.objects), events, taken))
  {
    var batch := MapAll(mapper, sources);
    match batch
    case None => return false, [];
    case Some(events) => success, taken := EmitAll(client, me, events, envs);
  }

  /** What the loop looks at: was the event accepted, and did every projector succeed. */
  method EmitOne(client: TelemetryClient, me: nat, event: Ref, env: Env) returns (taken: bool, clean: bool, ghost value: Option<Event>)
    requires client.Valid() && client.sink != null && client.MayEmit(me) && event in client.memory.known
    modifies client, client.memory, client.sink
    ensures client.Valid() && client.MayEmit(me) && old(client.memory.known) <= client.memory.known
    ensures !taken ==> client.Evidence() == old(client.Evidence())
    ensures taken ==> value.Some? && client.Evidence() == old(client.Evidence()) + [value.value] && (clean <==> Failing(client.config, env) == [])
    ensures value == old(client.sink.Shown(event))
    ensures !client.sink.durable ==> old(client.memory.objects) <= client.memory.objects
  {
    value := client.sink.Shown(event);
    var result, shown := client.Emit(me, event, env);
    match result
    case Err(_) => return false, false, value;
    case Ok(emitted) => return true, emitted.errors == [], value;
  }

  /** The loop over the normalized batch. */
  method EmitAll(client: TelemetryClient, me: nat, events: seq<Ref>, envs: nat -> Env) returns (success: bool, ghost taken: seq<Event>)
    requires client.Valid() && client.sink != null && client.MayEmit(me)
    requires forall e :: e in events ==> e in client.memory.known
    modifies client, client.memory, client.sink
    ensures client.Valid() && client.Evidence() == old(client.Evidence()) + taken && |taken| <= |events|
    ensures success <==> |taken| == |events| && AllProjected(client.config, envs, |taken|)
    ensures Steady(client.sink.durable, client.sink.schema, client.sink.limit, old(client.memory.objects), client.memory.objects, events, taken)
  {
    taken := [];
    ghost var start, before, known := client.memory.objects, client.Evidence(), client.memory.known;
    assert before + taken == before;
    for i := 0 to |events|
      invariant client.Valid() && client.MayEmit(me) && known <= client.memory.known
      invariant |taken| == i && client.Evidence() == before + taken
      invariant AllProjected(client.config, envs, i)
      invariant Steady(client.sink.durable, client.sink.schema, client.sink.limit, start, client.memory.objects, events, taken)
    {
      assert events[i] in known;
      ghost var now := client.memory.objects;
      var accepted, clean, value := EmitOne(client, me, events[i], envs(i));
      ProjectedNext(client.config, envs, i);
      if !accepted {
        assert client.sink.durable || now <= client.memory.objects;
        return false, taken;
      }
      SteadyNext(client.sink.durable, client.sink.schema, client.sink.limit, start, now, client.memory.objects, events, taken, value.value);
      OneMoreTaken(before, taken, value.value);
      taken := taken + [value.value];
      if !clean {
        return false, taken;
      }
    }
    return true, taken;
  }
}
