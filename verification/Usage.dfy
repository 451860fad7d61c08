/**
 Usage facts and their rollups. Leaves are kept by event id; a rollup adds up the leaves of an
 agent run or of a workflow run and says how many leaves each figure covers.

 Cost amounts are checked on the way in but their decimal sum is left out, and the rollup is
 shown before the event factory wraps it.
 */
module Usage {
  import opened FiniteSums
  import opened Prelude

  datatype TokenField = InputTokens | OutputTokens | CacheReadTokens | CacheWriteTokens | ReasoningTokens

  /** `amount` is absent when it is not a finite number. */
  datatype Cost = Cost(amount: Option<real>, currency: string, source: string)

  datatype Scope = ModelCall | AgentStep | Task | AgentRun | WorkflowRun

  /** `otherTokens` are the token fields that hold something other than an integer. */
  datatype UsageEvent = UsageEvent(id: string, isUsage: bool, scope: Scope, runId: string, agentId: string, workflowId: Option<string>,
                                   tokens: map<TokenField, nat>, otherTokens: set<TokenField>, cost: Option<Cost>, rest: string)

  datatype UsageError =
    | InvalidEvent | NotUsage | NotLeaf | MissingId | BadTokens | BadCost | IdReused
    | WorkflowIdRequired | NoMatches | MixedCurrencies

  type Table = map<string, UsageEvent>

  /** Why an event is refused whatever was added before it. */
  function Refusal(valid: UsageEvent -> bool, e: UsageEvent): Option<UsageError> {
    if !valid(e) then Some(InvalidEvent)
    else if !e.isUsage then Some(NotUsage)
    else if e.scope != ModelCall then Some(NotLeaf)
    else if e.id == "" then Some(MissingId)
    else if e.otherTokens != {} then Some(BadTokens)
    else if e.cost.Some? && (e.cost.value.amount.None? || e.cost.value.amount.value < 0.0) then Some(BadCost)
    else None
  }

  /** The first of the checks that fails is the one that is reported. */
  lemma RefusalMeans(valid: UsageEvent -> bool, e: UsageEvent)
    ensures Refusal(valid, e) == Some(InvalidEvent) <==> !valid(e)
    ensures Refusal(valid, e) == Some(NotUsage) <==> valid(e) && !e.isUsage
    ensures Refusal(valid, e) == Some(NotLeaf) <==> valid(e) && e.isUsage && e.scope != ModelCall
    ensures Refusal(valid, e) == Some(MissingId) <==> valid(e) && e.isUsage && e.scope == ModelCall && e.id == ""
    ensures Refusal(valid, e) == Some(BadTokens) <==> valid(e) && e.isUsage && e.scope == ModelCall && e.id != "" && e.otherTokens != {}
    ensures Refusal(valid, e) == Some(BadCost) ==> e.cost.Some? && (e.cost.value.amount.None? || e.cost.value.amount.value < 0.0)
    ensures Refusal(valid, e).Some? ==> Refusal(valid, e).value in {InvalidEvent, NotUsage, NotLeaf, MissingId, BadTokens, BadCost}
  {
  }

  function AddTo(valid: UsageEvent -> bool, table: Table, e: UsageEvent): Table {
    if Refusal(valid, e).Some? || e.id in table then table else table[e.id := e]
  }

  /** What the accumulator holds after a run of `add` calls, refused ones included. */
  function TableOf(valid: UsageEvent -> bool, added: seq<UsageEvent>): Table {
    if added == [] then map[] else AddTo(valid, TableOf(valid, added[..|added| - 1]), added[|added| - 1])
  }

  // ---- rollups ------------------------------------------------------------------------------

  datatype Query = Query(scope: Scope, runId: string, agentId: string, workflowId: Option<string>)

  predicate Matches(q: Query, e: UsageEvent) {
    && e.runId == q.runId
    && (q.scope == WorkflowRun || e.agentId == q.agentId)
    && (q.workflowId.None? || e.workflowId == q.workflowId)
  }

  function Select(q: Query, table: Table): Table {
    map id | id in table && Matches(q, table[id]) :: table[id]
  }

  function Observed(f: TokenField, leaves: Table): map<string, nat> {
    map id | id in leaves && f in leaves[id].tokens :: leaves[id].tokens[f]
  }

  function Costs(leaves: Table): map<string, Cost> {
    map id | id in leaves && leaves[id].cost.Some? :: leaves[id].cost.value
  }

  function Currencies(costs: map<string, Cost>): set<string> {
    set id | id in costs :: costs[id].currency
  }

  function Sources(costs: map<string, Cost>): set<string> {
    set id | id in costs :: costs[id].source
  }

  datatype Rollup = RollupEvent(query: Query, tokens: map<TokenField, nat>, currency: Option<string>, eventCount: nat,
                           coverage: map<TokenField, nat>, costCoverage: nat, costSources: set<string>)

  /** What a rollup has to say about the leaves it matches. */
  ghost predicate RollsUp(r: Rollup, q: Query, leaves: Table) {
    && r.query == q
    && (forall f :: f in r.coverage && r.coverage[f] == |Observed(f, leaves)|)
    && (forall f :: f in r.tokens <==> Observed(f, leaves) != map[])
    && (forall f :: f in r.tokens ==> r.tokens[f] == Sum(Observed(f, leaves)))
    && r.eventCount == |leaves|
    && r.costCoverage == |Costs(leaves)|
    && r.costSources == Sources(Costs(leaves))
    && Currencies(Costs(leaves)) == if r.currency.Some? then {r.currency.value} else {}
  }

  /** What a rollup call returns. */
  ghost predicate Returns(result: Result<Rollup, UsageError>, q: Query, table: Table) {
    var leaves := Select(q, table);
    if q.scope == WorkflowRun && q.workflowId.None? then result == Err(WorkflowIdRequired)
    else if leaves == map[] then result == Err(NoMatches)
    else if |Currencies(Costs(leaves))| > 1 then result == Err(MixedCurrencies)
    else result.Ok? && RollsUp(result.value, q, leaves)
  }

  /** `sum(observed)` and `len(observed)`. */
  method SumObserved(observed: map<string, nat>) returns (total: nat)
    ensures total == Sum(observed)
  {
    total := 0;
    var remaining := observed;
    while remaining != map[]
      invariant total + Sum(remaining) == Sum(observed)
      decreases remaining.Keys
    {
      var id :| id in remaining;
      SumWithout(remaining, id);
      assert (remaining - {id}).Keys == remaining.Keys - {id};
      total, remaining := total + remaining[id], remaining - {id};
    }
  }

  const TOKEN_FIELDS: seq<TokenField> := [InputTokens, OutputTokens, CacheReadTokens, CacheWriteTokens, ReasoningTokens]

  lemma EveryField(f: TokenField)
    ensures f in TOKEN_FIELDS
  {
    match f
    case InputTokens => assert TOKEN_FIELDS[0] == f;
    case OutputTokens => assert TOKEN_FIELDS[1] == f;
    case CacheReadTokens => assert TOKEN_FIELDS[2] == f;
    case CacheWriteTokens => assert TOKEN_FIELDS[3] == f;
    case ReasoningTokens => assert TOKEN_FIELDS[4] == f;
  }

  /** The loop over the token fields. */
  method RollupTokens(leaves: Table) returns (tokens: map<TokenField, nat>, coverage: map<TokenField, nat>)
    ensures forall f :: f in coverage && coverage[f] == |Observed(f, leaves)|
    ensures forall f :: f in tokens <==> Observed(f, leaves) != map[]
    ensures forall f :: f in tokens ==> tokens[f] == Sum(Observed(f, leaves))
  {
    tokens, coverage := map[], map[];
    for i := 0 to |TOKEN_FIELDS|
      invariant forall f :: f in TOKEN_FIELDS[..i] ==> f in coverage && coverage[f] == |Observed(f, leaves)|
      invariant forall f :: f in tokens <==> f in TOKEN_FIELDS[..i] && Observed(f, leaves) != map[]
      invariant forall f :: f in tokens ==> tokens[f] == Sum(Observed(f, leaves))
    {
      var field := TOKEN_FIELDS[i];
      assert TOKEN_FIELDS[..i + 1] == TOKEN_FIELDS[..i] + [field];
      var observed := Observed(field, leaves);
      coverage := coverage[field := |observed|];
      if observed != map[] {
        var total := SumObserved(observed);
        tokens := tokens[field := total];
      }
    }
    forall f ensures f in TOKEN_FIELDS[..|TOKEN_FIELDS|] {
      EveryField(f);
    }
  }

  lemma OneCurrency(currencies: set<string>)
    requires |currencies| <= 1 && currencies != {}
    ensures exists c :: c in currencies && currencies == {c}
  {
    var c :| c in currencies;
    assert |currencies - {c}| == 0;
    assert currencies == {c};
  }

  class UsageAccumulator {
    const valid: UsageEvent -> bool
    var events: Table
    /** Every event `Add` was called with. */
    ghost var added: seq<UsageEvent>

    ghost predicate Valid()
      reads this
    {
      events == TableOf(valid, added)
    }

    constructor (valid: UsageEvent -> bool)
      ensures Valid() && added == [] && this.valid == valid
    {
      this.valid, this.events, this.added := valid, map[], [];
    }

    method Add(event: UsageEvent) returns (result: Result<bool, UsageError>)
      requires Valid()
      modifies this
      ensures Valid() && added == old(added) + [event]
      ensures events == AddTo(valid, old(events), event)
      ensures result == match Refusal(valid, event)
        case Some(error) => Err(error)
        case None => if event.id !in old(events) then Ok(true)
                     else if old(events)[event.id] == event then Ok(false)
                     else Err(IdReused)
    {
      assert (added + [event])[..|added|] == added;
      added := added + [event];
      match Refusal(valid, event) {
        case Some(error) => return Err(error);
        case None =>
      }
      if event.id in events {
        return if events[event.id] == event then Ok(false) else Err(IdReused);
      }
      events := events[event.id := event];
      return Ok(true);
    }

    method Rollup(q: Query) returns (result: Result<Rollup, UsageError>)
      requires Valid()
      ensures Returns(result, q, events)
    {
      if q.scope == WorkflowRun && q.workflowId.None? {
        return Err(WorkflowIdRequired);
      }
      var leaves := Select(q, events);
      if leaves == map[] {
        return Err(NoMatches);
      }
      var tokens, coverage := RollupTokens(leaves);
      var costs := Costs(leaves);
      var currencies := Currencies(costs);
      if |currencies| > 1 {
        return Err(MixedCurrencies);
      }
      var currency: Option<string> := None;
      if currencies != {} {
        OneCurrency(currencies);
        var c :| c in currencies && currencies == {c};
        currency := Some(c);
      }
      return Ok(RollupEvent(q, tokens, currency, |leaves|, coverage, |costs|, Sources(costs)));
    }
  }

  // ---- repeated and reordered adds ----------------------------------------------------------

  ghost predicate IdsConsistent(valid: UsageEvent -> bool, leaves: set<UsageEvent>) {
    forall x, y :: x in leaves && y in leaves && Refusal(valid, x).None? && Refusal(valid, y).None? && x.id == y.id ==> x == y
  }

  function SetOf(s: seq<UsageEvent>): set<UsageEvent> {
    set e | e in s
  }

  lemma {:induction false} TableHolds(valid: UsageEvent -> bool, added: seq<UsageEvent>)
    ensures forall id :: id in TableOf(valid, added) ==> TableOf(valid, added)[id] in added && TableOf(valid, added)[id].id == id
                                                         && Refusal(valid, TableOf(valid, added)[id]).None?
    ensures forall e :: e in added && Refusal(valid, e).None? ==> e.id in TableOf(valid, added)
  {
    if added != [] {
      TableHolds(valid, added[..|added| - 1]);
      assert added == added[..|added| - 1] + [added[|added| - 1]];
    }
  }

  /** The first accepted leaf with an id is the one that is kept. */
  lemma {:induction false} FirstIsKept(valid: UsageEvent -> bool, first: UsageEvent, more: seq<UsageEvent>)
    requires Refusal(valid, first).None?
    ensures first.id in TableOf(valid, [first] + more) && TableOf(valid, [first] + more)[first.id] == first
  {
    if more == [] {
      assert [first] + more == [first] && [first][..0] == [];
      assert TableOf(valid, []) == map[];
    } else {
      assert ([first] + more)[..|more|] == [first] + more[..|more| - 1];
      FirstIsKept(valid, first, more[..|more| - 1]);
    }
  }

  /**
   Adding the same leaves in any order and any number of times gives the same accumulator
   exactly when no two accepted leaves share an id.
   */
  lemma AddsOrderFree(valid: UsageEvent -> bool, added: seq<UsageEvent>)
    ensures IdsConsistent(valid, SetOf(added))
            <==> forall other :: SetOf(other) == SetOf(added) ==> TableOf(valid, other) == TableOf(valid, added)
  {
    if IdsConsistent(valid, SetOf(added)) {
      forall other | SetOf(other) == SetOf(added) ensures TableOf(valid, other) == TableOf(valid, added) {
        SameTable(valid, other, added);
      }
    } else {
      var x, y :| x in SetOf(added) && y in SetOf(added) && Refusal(valid, x).None? && Refusal(valid, y).None? && x.id == y.id && x != y;
      var other := ToldApart(valid, added, x, y);
    }
  }

  lemma ToldApart(valid: UsageEvent -> bool, added: seq<UsageEvent>, x: UsageEvent, y: UsageEvent) returns (other: seq<UsageEvent>)
    requires x in added && y in added && Refusal(valid, x).None? && Refusal(valid, y).None? && x.id == y.id && x != y
    ensures SetOf(other) == SetOf(added) && TableOf(valid, other) != TableOf(valid, added)
  {
    FirstIsKept(valid, x, added);
    FirstIsKept(valid, y, added);
    other := if TableOf(valid, [x] + added) == TableOf(valid, added) then [y] + added else [x] + added;
  }

  lemma SameTable(valid: UsageEvent -> bool, a: seq<UsageEvent>, b: seq<UsageEvent>)
    requires SetOf(a) == SetOf(b) && IdsConsistent(valid, SetOf(b))
    ensures TableOf(valid, a) == TableOf(valid, b)
  {
    var s, t := TableOf(valid, a), TableOf(valid, b);
    TableHolds(valid, a);
    TableHolds(valid, b);
    forall id | id in s ensures id in t && s[id] == t[id] {
      assert s[id] in SetOf(a);
      assert t[s[id].id] in SetOf(b);
    }
    forall id | id in t ensures id in s {
      assert t[id] in SetOf(b);
    }
  }

  /** A leaf that the accumulator takes: valid usage of one model call, with an id, whole token counts and a finite, non-negative cost. */
  predicate Acceptable(valid: UsageEvent -> bool, e: UsageEvent) {
    && valid(e) && e.isUsage && e.scope == ModelCall && e.id != "" && e.otherTokens == {}
    && (e.cost.Some? ==> e.cost.value.amount.Some? && e.cost.value.amount.value >= 0.0)
  }

  /** After any run of adds: exactly such leaves, by their ids, and one for each id that was added. */
  lemma LeavesMean(valid: UsageEvent -> bool, added: seq<UsageEvent>, id: string)
    ensures id in TableOf(valid, added) <==> exists e :: e in added && Acceptable(valid, e) && e.id == id
    ensures id in TableOf(valid, added) ==>
      var leaf := TableOf(valid, added)[id]; leaf in added && Acceptable(valid, leaf) && leaf.id == id
  {
    TableHolds(valid, added);
    forall e ensures Acceptable(valid, e) <==> Refusal(valid, e).None? {
    }
  }

  /** The leaves that a rollup is asked for. */
  ghost predicate AskedFor(q: Query, table: Table, ids: set<string>) {
    forall id :: id in ids <==>
      && id in table && table[id].runId == q.runId
      && (q.scope != WorkflowRun ==> table[id].agentId == q.agentId)
      && (q.workflowId.Some? ==> table[id].workflowId == q.workflowId)
  }

  function Holding(f: TokenField, table: Table, ids: set<string>): map<string, nat> {
    map id | id in ids && id in table && f in table[id].tokens :: table[id].tokens[f]
  }

  function Priced(table: Table, ids: set<string>): set<string> {
    set id | id in ids && id in table && table[id].cost.Some?
  }

  lemma SelectIs(q: Query, table: Table, ids: set<string>)
    requires AskedFor(q, table, ids)
    ensures Select(q, table).Keys == ids && forall id :: id in ids ==> Select(q, table)[id] == table[id]
  {
    assert forall id :: id in Select(q, table) <==> id in ids;
  }

  /** The token figures of a rollup, on the leaves it is asked for. */
  lemma RollupMeans(q: Query, table: Table, ids: set<string>, r: Rollup)
    requires AskedFor(q, table, ids) && Returns(Ok(r), q, table)
    ensures ids != {} && r.eventCount == |ids| && (q.scope == WorkflowRun ==> q.workflowId.Some?)
    ensures forall f :: f in r.tokens <==> Holding(f, table, ids) != map[]
    ensures forall f :: f in r.tokens ==> r.tokens[f] == Sum(Holding(f, table, ids))
    ensures forall f :: f in r.coverage && r.coverage[f] == |Holding(f, table, ids)|
  {
    SelectIs(q, table, ids);
    var leaves := Select(q, table);
    forall f ensures Observed(f, leaves) == Holding(f, table, ids) {
    }
    assert |leaves| == |leaves.Keys|;
  }

  lemma CostsAre(q: Query, table: Table, ids: set<string>)
    requires AskedFor(q, table, ids)
    ensures var costs := Costs(Select(q, table));
            && costs.Keys == Priced(table, ids) && |costs| == |Priced(table, ids)|
            && (forall id :: id in costs ==> costs[id] == table[id].cost.value)
            && (forall c :: c in Currencies(costs) <==> exists id :: id in Priced(table, ids) && table[id].cost.value.currency == c)
            && (forall source :: source in Sources(costs) <==> exists id :: id in Priced(table, ids) && table[id].cost.value.source == source)
  {
    SelectIs(q, table, ids);
    var costs := Costs(Select(q, table));
    assert costs.Keys == Priced(table, ids) && |costs| == |costs.Keys|;
    assert forall id :: id in costs ==> costs[id] == table[id].cost.value;
  }

  /** Its cost figures: how many leaves have a cost, their one currency, their sources. */
  lemma RollupCostMeans(q: Query, table: Table, ids: set<string>, r: Rollup)
    requires AskedFor(q, table, ids) && Returns(Ok(r), q, table)
    ensures r.costCoverage == |Priced(table, ids)|
    ensures forall c :: r.currency == Some(c) <==> exists id :: id in Priced(table, ids) && table[id].cost.value.currency == c
    ensures forall source :: source in r.costSources <==> exists id :: id in Priced(table, ids) && table[id].cost.value.source == source
  {
    CostsAre(q, table, ids);
    var currencies := Currencies(Costs(Select(q, table)));
    forall c ensures r.currency == Some(c) <==> c in currencies {
    }
  }

  /** When a rollup is refused, and why. */
  lemma RollupRefused(q: Query, table: Table, ids: set<string>, result: Result<Rollup, UsageError>)
    requires AskedFor(q, table, ids) && Returns(result, q, table)
    ensures result == Err(WorkflowIdRequired) <==> q.scope == WorkflowRun && q.workflowId.None?
    ensures result == Err(NoMatches) <==> !(q.scope == WorkflowRun && q.workflowId.None?) && ids == {}
    ensures result == Err(MixedCurrencies) <==>
      && !(q.scope == WorkflowRun && q.workflowId.None?)
      && exists i, j :: i in Priced(table, ids) && j in Priced(table, ids) && table[i].cost.value.currency != table[j].cost.value.currency
    ensures result.Err? ==> result.error in {WorkflowIdRequired, NoMatches, MixedCurrencies}
  {
    SelectIs(q, table, ids);
    CostsAre(q, table, ids);
    MixedMeans(Costs(Select(q, table)));
  }

  lemma MixedMeans(costs: map<string, Cost>)
    ensures |Currencies(costs)| > 1 <==> exists i, j :: i in costs && j in costs && costs[i].currency != costs[j].currency
  {
    var currencies := Currencies(costs);
    if i, j :| i in costs && j in costs && costs[i].currency != costs[j].currency {
      assert {costs[i].currency, costs[j].currency} <= currencies;
      FewerOrEqual({costs[i].currency, costs[j].currency}, currencies);
    }
    if |currencies| > 1 {
      var c :| c in currencies;
      assert |currencies - {c}| > 0;
      var d :| d in currencies - {c};
      var i :| i in costs && costs[i].currency == c;
      var j :| j in costs && costs[j].currency == d;
    }
  }

  lemma {:induction false} FewerOrEqual(few: set<string>, all: set<string>)
    requires few <= all
    ensures |few| <= |all|
  {
    if few != {} {
      var c :| c in few;
      FewerOrEqual(few - {c}, all - {c});
    }
  }

  // ---- conservation -------------------------------------------------------------------------

  function Agents(leaves: Table): set<string> {
    set id | id in leaves :: leaves[id].agentId
  }

  function AgentOf(leaves: Table): map<string, string> {
    map id | id in leaves :: leaves[id].agentId
  }

  /** The rollup of one agent's share of a workflow run. */
  function ForAgent(q: Query, agent: string): Query {
    Query(AgentRun, q.runId, agent, q.workflowId)
  }

  function FieldTotal(r: Rollup, f: TokenField): nat {
    if f in r.tokens then r.tokens[f] else 0
  }

  function FieldCoverage(r: Rollup, f: TokenField): nat {
    if f in r.coverage then r.coverage[f] else 0
  }

  /** One figure of each agent's rollup. */
  function Figures(parts: map<string, Rollup>, figure: Rollup -> nat): map<string, nat> {
    map agent | agent in parts :: figure(parts[agent])
  }

  /** `parts` are rollups of every agent that has leaves in the workflow run. */
  ghost predicate AgentParts(parts: map<string, Rollup>, q: Query, table: Table) {
    && parts.Keys == Agents(Select(q, table))
    && forall agent :: agent in parts ==> Returns(Ok(parts[agent]), ForAgent(q, agent), table)
  }

  lemma AgentShare(q: Query, table: Table, agent: string)
    requires q.scope == WorkflowRun
    ensures var leaves := Select(q, table);
            var share := Select(ForAgent(q, agent), table);
            && share == Fiber(leaves, AgentOf(leaves), agent)
            && Costs(share) == Fiber(Costs(leaves), AgentOf(leaves), agent)
            && forall f :: Observed(f, share) == Fiber(Observed(f, leaves), AgentOf(leaves), agent)
  {
    var leaves, share := Select(q, table), Select(ForAgent(q, agent), table);
    assert share == Fiber(leaves, AgentOf(leaves), agent);
    assert Costs(share) == Fiber(Costs(leaves), AgentOf(leaves), agent);
    forall f ensures Observed(f, share) == Fiber(Observed(f, leaves), AgentOf(leaves), agent) {
    }
  }

  lemma TotalIsSum(r: Rollup, q: Query, leaves: Table, f: TokenField)
    requires RollsUp(r, q, leaves)
    ensures FieldTotal(r, f) == Sum(Observed(f, leaves))
    ensures f in r.tokens <==> FieldCoverage(r, f) > 0
  {
    var observed := Observed(f, leaves);
    assert observed != map[] <==> |observed| > 0;
  }

  function TotalOf(f: TokenField): Rollup -> nat { r => FieldTotal(r, f) }
  function CoverageOf(f: TokenField): Rollup -> nat { r => FieldCoverage(r, f) }
  function EventCountOf(r: Rollup): nat { r.eventCount }
  function CostCoverageOf(r: Rollup): nat { r.costCoverage }

  /** What one agent's rollup says, as its share of what the workflow's leaves hold. */
  lemma AgentFigures(q: Query, table: Table, part: Rollup, agent: string, f: TokenField)
    requires q.scope == WorkflowRun && Returns(Ok(part), ForAgent(q, agent), table)
    ensures var leaves := Select(q, table);
            var of := AgentOf(leaves);
            && TotalOf(f)(part) == Sum(Fiber(Observed(f, leaves), of, agent))
            && CoverageOf(f)(part) == |Fiber(Observed(f, leaves), of, agent)|
            && EventCountOf(part) == |Fiber(leaves, of, agent)|
            && CostCoverageOf(part) == |Fiber(Costs(leaves), of, agent)|
  {
    AgentShare(q, table, agent);
    TotalIsSum(part, ForAgent(q, agent), Select(ForAgent(q, agent), table), f);
  }

  /**
   A workflow rollup is the sum of the rollups of its agents: token totals, coverage counts,
   leaves and priced leaves.
   */
  lemma WorkflowIsSumOfAgents(q: Query, table: Table, total: Rollup, parts: map<string, Rollup>, f: TokenField)
    requires q.scope == WorkflowRun && Returns(Ok(total), q, table) && AgentParts(parts, q, table)
    ensures FieldTotal(total, f) == Sum(Figures(parts, TotalOf(f)))
    ensures FieldCoverage(total, f) == Sum(Figures(parts, CoverageOf(f)))
    ensures f in total.tokens <==> FieldCoverage(total, f) > 0
    ensures total.eventCount == Sum(Figures(parts, EventCountOf))
    ensures total.costCoverage == Sum(Figures(parts, CostCoverageOf))
  {
    var leaves := Select(q, table);
    var of, agents, observed := AgentOf(leaves), Agents(leaves), Observed(f, leaves);
    TotalIsSum(total, q, leaves, f);
    SumFibers(observed, of, agents);
    CountFibers(observed, of, agents);
    CountFibers(leaves, of, agents);
    CountFibers(Costs(leaves), of, agents);
    PartFigures(q, table, parts, f);
  }

  lemma PartFigures(q: Query, table: Table, parts: map<string, Rollup>, f: TokenField)
    requires q.scope == WorkflowRun && AgentParts(parts, q, table)
    ensures var leaves := Select(q, table);
            var of, agents := AgentOf(leaves), Agents(leaves);
            && Figures(parts, TotalOf(f)) == FiberSums(Observed(f, leaves), of, agents)
            && Figures(parts, CoverageOf(f)) == FiberCounts(Observed(f, leaves), of, agents)
            && Figures(parts, EventCountOf) == FiberCounts(leaves, of, agents)
            && Figures(parts, CostCoverageOf) == FiberCounts(Costs(leaves), of, agents)
  {
    var leaves := Select(q, table);
    var of := AgentOf(leaves);
    forall agent | agent in parts
      ensures TotalOf(f)(parts[agent]) == Sum(Fiber(Observed(f, leaves), of, agent))
      ensures CoverageOf(f)(parts[agent]) == |Fiber(Observed(f, leaves), of, agent)|
      ensures EventCountOf(parts[agent]) == |Fiber(leaves, of, agent)|
      ensures CostCoverageOf(parts[agent]) == |Fiber(Costs(leaves), of, agent)|
    {
      AgentFigures(q, table, parts[agent], agent, f);
    }
    FigureSums(parts, TotalOf(f), Observed(f, leaves), of);
    FigureCounts(parts, CoverageOf(f), Observed(f, leaves), of);
    FigureCounts(parts, EventCountOf, leaves, of);
    FigureCounts(parts, CostCoverageOf, Costs(leaves), of);
  }

  lemma FigureSums(parts: map<string, Rollup>, figure: Rollup -> nat, amounts: map<string, nat>, of: map<string, string>)
    requires forall agent :: agent in parts ==> figure(parts[agent]) == Sum(Fiber(amounts, of, agent))
    ensures Figures(parts, figure) == FiberSums(amounts, of, parts.Keys)
  {
  }

  lemma FigureCounts<V>(parts: map<string, Rollup>, figure: Rollup -> nat, leaves: map<string, V>, of: map<string, string>)
    requires forall agent :: agent in parts ==> figure(parts[agent]) == |Fiber(leaves, of, agent)|
    ensures Figures(parts, figure) == FiberCounts(leaves, of, parts.Keys)
  {
  }

  ghost function RollupFor(q: Query, leaves: Table): Rollup {
    var costs := Costs(leaves);
    RollupEvent(q, map f: TokenField | Observed(f, leaves) != map[] :: Sum(Observed(f, leaves)),
                if costs == map[] then None else var id :| id in costs; Some(costs[id].currency),
                |leaves|, map f: TokenField | true :: |Observed(f, leaves)|, |costs|, Sources(costs))
  }

  lemma RollupForRollsUp(q: Query, leaves: Table)
    requires |Currencies(Costs(leaves))| <= 1
    ensures RollsUp(RollupFor(q, leaves), q, leaves)
  {
    var costs, currencies := Costs(leaves), Currencies(Costs(leaves));
    if costs != map[] {
      var id :| id in costs && RollupFor(q, leaves).currency == Some(costs[id].currency);
      assert costs[id].currency in currencies;
      OneCurrency(currencies);
    }
  }

  lemma OneCurrencyAtMost(few: set<string>, all: set<string>)
    requires few <= all && |all| <= 1
    ensures |few| <= 1
  {
    if few != {} {
      OneCurrency(all);
      var c :| c in all && all == {c};
      assert few == {c};
    }
  }

  /** When the workflow can be rolled up, so can every one of its agents. */
  lemma AgentsRollUp(q: Query, table: Table, total: Rollup) returns (parts: map<string, Rollup>)
    requires q.scope == WorkflowRun && Returns(Ok(total), q, table)
    ensures AgentParts(parts, q, table)
  {
    var leaves := Select(q, table);
    parts := map agent | agent in Agents(leaves) :: RollupFor(ForAgent(q, agent), Select(ForAgent(q, agent), table));
    forall agent | agent in parts ensures Returns(Ok(parts[agent]), ForAgent(q, agent), table) {
      var share := Select(ForAgent(q, agent), table);
      AgentShare(q, table, agent);
      OneCurrencyAtMost(Currencies(Costs(share)), Currencies(Costs(leaves)));
      RollupForRollsUp(ForAgent(q, agent), share);
    }
  }
}
