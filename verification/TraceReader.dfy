/**
 The set-semantics reader: spans are classified and grouped, every question about them is
 answered, and the report is sorted. Spans are taken as records; reading the JSON is left out.

 A `BTreeMap` of attributes is the sequence of its items in key order, and one with pairs of
 strings as keys is listed by `InOrder`. The text that `to_string` gives a sort key is a
 parameter; `ReportTexts` holds the texts themselves.
 */
module TraceReader {
  import opened Prelude
  import opened Sorting

  datatype AttrValue = StringValue(text: string) | OtherValue(json: string)

  datatype Span = Span(locator: string, resourceService: Option<string>, name: string, attrs: seq<(string, AttrValue)>) {
    /** The string attribute `key`. */
    function Attr(key: string): Option<string> {
      FindText(attrs, key)
    }

    predicate Has(key: string) {
      exists i :: 0 <= i < |attrs| && attrs[i].0 == key
    }
  }

  function FindText(attrs: seq<(string, AttrValue)>, key: string): Option<string> {
    if attrs == [] then None
    else if attrs[0].0 == key then (if attrs[0].1.StringValue? then Some(attrs[0].1.text) else None)
    else FindText(attrs[1..], key)
  }

  function TurnId(s: Span): Option<string> { s.Attr("turn.id") }
  function ConversationId(s: Span): Option<string> { s.Attr("conversation.id") }
  function ActionId(s: Span): Option<string> { s.Attr("action.id") }
  function ReceiptAction(s: Span): Option<string> { s.Attr("receipt.action_id") }
  function ReceiptService(s: Span): Option<string> { s.Attr("receipt.service") }
  function ReceiptId(s: Span): Option<string> { s.Attr("receipt.id") }
  function TicketId(s: Span): Option<string> { s.Attr("receipt.ticket_id") }

  datatype Kind = Turn | Proposal | Execution | Receipt

  function Classify(s: Span): Option<Kind> {
    if s.name == "ticket.create.receipt" || exists i :: 0 <= i < |s.attrs| && "receipt." <= s.attrs[i].0 then Some(Receipt)
    else if "execute_tool" <= s.name then Some(Execution)
    else if s.name == "propose_action" then Some(Proposal)
    else if s.Has("turn.id") then Some(Turn)
    else None
  }

  function IsKind(kind: Kind): Span -> bool {
    s => Classify(s) == Some(kind)
  }

  // ---- what the report holds ----------------------------------------------------------------

  /** The relationships the reader asks a method for. */
  datatype Relationship = R1 | R5 | R6

  /** The declared defaults for these relationships and for any others, which are only echoed. */
  datatype Options = Options(methodDefaults: map<Relationship, string>, otherDefaults: map<string, string>, declaredBy: Option<string>)

  datatype Query = ApprovalForExecution | Calls | Continuity | EffectsForExecution | ProposalOrigin | UncorrelatedReport

  datatype Subject =
    | TurnSubject(turn: Option<string>)
    | ProposalSubject(action: Option<string>)
    | ExecutionSubject(scope: Option<string>, proposal: Option<string>)
    | ReceiptSubject(receipt: Option<string>, service: Option<string>)

  datatype Gap =
    | ConversationNotExported | R1NotEstablished | NoModelCall | R3NotExported
    | NoDecisionRecorded | R5NotEstablished | R5TargetUnresolved
    | R6NotEstablished | IdentityScopeUnresolved | ReceiptScopeUnresolved | ReceiptIdentityMissing
    | EffectIdentityMissing | EffectObservationMissing | R6ExecutionUnresolved

  datatype State = StateUnknown | StateEstablished | StateConflict

  /** A receipt identity: the issuing scope and the receipt id. */
  type Key = (string, string)

  /** A receipt and how often it was delivered. */
  datatype Delivered = Delivered(receipt: string, deliveries: nat)

  /** One effect: the receipts that name its ticket. */
  datatype Correlated = Correlated(scope: string, ticket: string, receipts: seq<Delivered>)

  /** A receipt whose deliveries disagree, and the places they were seen at. */
  datatype Conflict = Conflict(receipt: string, scope: string, at: seq<string>)

  /** `reportsSeen` is present only when R6 has no method. */
  datatype Observed =
    | ObservedContinuity(conversation: Option<string>, via: Option<string>)
    | ObservedNothing
    | ObservedApproval(proposal: Option<string>)
    | ObservedEffects(effects: seq<Correlated>, correlation: Option<string>, reportsSeen: Option<nat>)

  datatype Answer = Answer(query: Query, subject: Subject, state: State, observed: Observed, gaps: seq<Gap>,
                           conflicts: seq<Conflict>, evidence: seq<string>)

  datatype Loss =
    | UnsupportedKind(name: string, at: string)
    | UnmappedAttribute(attribute: string, at: string)
    | UnrecognizedMethod(relationship: Relationship, value: string, at: string)
    | MethodAbsent(relationship: Relationship, at: string)

  datatype NotUsed = NotUsed(attribute: string, at: string)

  datatype Report = Report(contract: string, defaults: Options, answers: seq<Answer>, losses: seq<Loss>, notUsed: seq<NotUsed>)

  const CONTRACT: string := "AGENT-BEHAVIOR-TRACE-MODEL-CONTRACT.md v0.7-draft @ e82abf1e58b066c586c25767edfba862c4ebd027"

  function GapName(gap: Gap): string {
    match gap
    case ConversationNotExported => "conversation_identity_not_exported"
    case R1NotEstablished => "r1_not_established"
    case NoModelCall => "no_model_call_observed"
    case R3NotExported => "r3_not_exported"
    case NoDecisionRecorded => "no_decision_recorded"
    case R5NotEstablished => "r5_not_established"
    case R5TargetUnresolved => "r5_target_unresolved"
    case R6NotEstablished => "r6_not_established"
    case IdentityScopeUnresolved => "identity_scope_unresolved"
    case ReceiptScopeUnresolved => "receipt_scope_unresolved"
    case ReceiptIdentityMissing => "receipt_identity_missing"
    case EffectIdentityMissing => "effect_identity_missing"
    case EffectObservationMissing => "external_effect_observation_missing"
    case R6ExecutionUnresolved => "r6_execution_unresolved"
  }

  /** `sort` and `dedup`. */
  function SortedGaps(gaps: seq<Gap>): seq<Gap> {
    Dedup(StableSort(GapName, TextLe, gaps))
  }

  function Itself(text: string): string { text }

  function SortedTexts(texts: seq<string>): seq<string> {
    StableSort(Itself, TextLe, texts)
  }

  /** `dedup`: of equal neighbours the first is kept. */
  function Dedup<T(==)>(s: seq<T>): (r: seq<T>)
    ensures s != [] ==> r != [] && r[|r| - 1] == s[|s| - 1]
  {
    if |s| <= 1 then s
    else if s[|s| - 1] == s[|s| - 2] then Dedup(s[..|s| - 1])
    else Dedup(s[..|s| - 1]) + [s[|s| - 1]]
  }

  // ---- link methods -------------------------------------------------------------------------

  predicate KnownMethod(m: string) {
    m in {"span-link", "attribute-reference", "causal-flag", "external-correlation-key"}
  }

  /** The declared default for a relationship, if it names a method. */
  function MethodFor(opts: Options, relationship: Relationship): Option<string> {
    if relationship in opts.methodDefaults && KnownMethod(opts.methodDefaults[relationship])
    then Some(opts.methodDefaults[relationship]) else None
  }

  function MethodLoss(opts: Options, relationship: Relationship, at: string): seq<Loss> {
    if MethodFor(opts, relationship).Some? then []
    else if relationship in opts.methodDefaults then [UnrecognizedMethod(relationship, opts.methodDefaults[relationship], at)]
    else [MethodAbsent(relationship, at)]
  }

  // ---- losses -------------------------------------------------------------------------------

  predicate ProducerClaim(key: string) {
    key == "evidence.externally_verified"
  }

  predicate Mapped(key: string) {
    key in {"conversation.id", "turn.id", "action.id", "action.intent", "tool.name", "receipt.id", "receipt.action_id",
            "receipt.ticket_id", "receipt.created_at", "receipt.service", "receipt.signature"}
  }

  function AttrLoss(at: string): ((string, AttrValue)) -> seq<Loss> {
    (item: (string, AttrValue)) => if ProducerClaim(item.0) || Mapped(item.0) then [] else [UnmappedAttribute(item.0, at)]
  }

  function AttrNotUsed(at: string): ((string, AttrValue)) -> seq<NotUsed> {
    (item: (string, AttrValue)) => if ProducerClaim(item.0) then [NotUsed(item.0, at)] else []
  }

  function SpanLosses(s: Span): seq<Loss> {
    (if Classify(s).None? then [UnsupportedKind(s.name, s.locator)] else []) + FlatMap(AttrLoss(s.locator), s.attrs)
  }

  function SpanNotUsed(s: Span): seq<NotUsed> {
    FlatMap(AttrNotUsed(s.locator), s.attrs)
  }

  function TurnLosses(opts: Options): Span -> seq<Loss> {
    t => if ConversationId(t).None? then [] else MethodLoss(opts, R1, t.locator)
  }

  function ExecutionLosses(opts: Options): Span -> seq<Loss> {
    e => (if ActionId(e).None? then [] else MethodLoss(opts, R5, e.locator)) + MethodLoss(opts, R6, e.locator)
  }

  function AllLosses(spans: seq<Span>, opts: Options): seq<Loss> {
    FlatMap(SpanLosses, spans)
    + FlatMap(TurnLosses(opts), Filter(IsKind(Turn), spans))
    + FlatMap(ExecutionLosses(opts), Filter(IsKind(Execution), spans))
  }

  // ---- answers ------------------------------------------------------------------------------

  /** What the answers draw on besides their own record. */
  datatype Context = Context(opts: Options, proposals: set<string>, scopes: set<string>, receipts: seq<Span>, actions: set<string>)

  function Actions(spans: seq<Span>): set<string> {
    set s | s in spans && ActionId(s).Some? :: ActionId(s).value
  }

  function Scopes(spans: seq<Span>): set<string> {
    set s | s in spans && s.resourceService.Some? :: s.resourceService.value
  }

  function ContextOf(spans: seq<Span>, opts: Options): Context {
    var executions := Filter(IsKind(Execution), spans);
    Context(opts, Actions(Filter(IsKind(Proposal), spans)), Scopes(executions), Filter(IsKind(Receipt), spans), Actions(executions))
  }

  function ContinuityAnswer(opts: Options, t: Span): Answer {
    var conversation := ConversationId(t);
    var via := if conversation.Some? then MethodFor(opts, R1) else None;
    Answer(Continuity, TurnSubject(TurnId(t)),
           if via.Some? then StateEstablished else StateUnknown,
           ObservedContinuity(if via.Some? then conversation else None, via),
           if conversation.None? then [ConversationNotExported] else if via.None? then [R1NotEstablished] else [],
           [], [t.locator])
  }

  function CallsAnswer(t: Span): Answer {
    Answer(Calls, TurnSubject(TurnId(t)), StateUnknown, ObservedNothing, [NoModelCall], [], [])
  }

  function OriginAnswer(p: Span): Answer {
    Answer(ProposalOrigin, ProposalSubject(ActionId(p)), StateUnknown, ObservedNothing, [R3NotExported], [], [p.locator])
  }

  function ApprovalAnswer(ctx: Context, e: Span): Answer {
    var action := ActionId(e);
    var r5 := if action.Some? then MethodFor(ctx.opts, R5) else None;
    var resolved := action.Some? && action.value in ctx.proposals;
    Answer(ApprovalForExecution, ExecutionSubject(e.resourceService, action), StateUnknown,
           ObservedApproval(if r5.Some? && resolved then action else None),
           [NoDecisionRecorded] + (if r5.None? then [R5NotEstablished] else if !resolved then [R5TargetUnresolved] else []),
           [], [e.locator])
  }

  function ReportAnswer(r: Span): Answer {
    Answer(UncorrelatedReport, ReceiptSubject(ReceiptId(r), ReceiptService(r)), StateUnknown, ObservedNothing,
           [R6ExecutionUnresolved], [], [r.locator])
  }

  // ---- effects ------------------------------------------------------------------------------

  /** Receipts that name the executed action. */
  function IsCandidate(action: Option<string>): Span -> bool {
    r => action.Some? && ReceiptAction(r) == action
  }

  predicate Scoped(r: Span) {
    ReceiptService(r).Some? && r.resourceService == ReceiptService(r)
  }

  function KeyOf(r: Span): Option<Key> {
    if Scoped(r) && ReceiptId(r).Some? then Some((ReceiptService(r).value, ReceiptId(r).value)) else None
  }

  function InGroup(k: Key): Span -> bool {
    r => KeyOf(r) == Some(k)
  }

  function Deliveries(candidates: seq<Span>, k: Key): seq<Span> {
    Filter(InGroup(k), candidates)
  }

  function Keys(candidates: seq<Span>): set<Key> {
    set r | r in candidates && KeyOf(r).Some? :: KeyOf(r).value
  }

  predicate Agree(deliveries: seq<Span>) {
    forall d, e :: d in deliveries && e in deliveries ==> d.attrs == e.attrs
  }

  /** What one receipt's deliveries show together. */
  datatype Outcome = Disagreement | NoTicket | Effect(ticket: string)

  function OutcomeOf(deliveries: seq<Span>): Outcome
    requires deliveries != []
  {
    if !Agree(deliveries) then Disagreement
    else if TicketId(deliveries[0]).None? then NoTicket
    else Effect(TicketId(deliveries[0]).value)
  }

  lemma GroupsNonEmpty(candidates: seq<Span>, k: Key)
    ensures k in Keys(candidates) <==> Deliveries(candidates, k) != []
  {
    var deliveries := Deliveries(candidates, k);
    if k in Keys(candidates) {
      var r :| r in candidates && KeyOf(r) == Some(k);
      assert InGroup(k)(r);
      assert r in deliveries;
    }
    if deliveries != [] {
      assert deliveries[0] in deliveries && InGroup(k)(deliveries[0]);
    }
  }

  function Locator(r: Span): string { r.locator }

  /** What the deliveries of one receipt come to; `at` is sorted. */
  datatype Summary = Summary(outcome: Outcome, deliveries: nat, at: seq<string>)

  function Summarize(deliveries: seq<Span>): Summary
    requires deliveries != []
  {
    Summary(OutcomeOf(deliveries), |deliveries|, SortedTexts(Map(Locator, deliveries)))
  }

  type Groups = map<Key, Summary>

  function Summaries(candidates: seq<Span>): Groups {
    map k | k in Keys(candidates) :: GroupsNonEmpty(candidates, k); Summarize(Deliveries(candidates, k))
  }

  // What one group adds to each list.

  function ConflictAt(groups: Groups): Key -> seq<Conflict> {
    (k: Key) => if k in groups && groups[k].outcome.Disagreement? then [Conflict(k.1, k.0, groups[k].at)] else []
  }

  function TicketGapAt(groups: Groups): Key -> seq<Gap> {
    (k: Key) => if k in groups && groups[k].outcome.NoTicket? then [EffectIdentityMissing] else []
  }

  /** The scope and ticket of an agreed receipt, and the receipt. */
  function EffectAt(groups: Groups): Key -> seq<(Key, Delivered)> {
    (k: Key) => if k in groups && groups[k].outcome.Effect? then [((k.0, groups[k].outcome.ticket), Delivered(k.1, groups[k].deliveries))] else []
  }

  function SeenAt(groups: Groups): Key -> seq<string> {
    (k: Key) => if k in groups then groups[k].at else []
  }

  /** `entry(k).or_default().push(v)`. */
  function Push<V>(buckets: map<Key, seq<V>>, k: Key, v: V): map<Key, seq<V>> {
    buckets[k := (if k in buckets then buckets[k] else []) + [v]]
  }

  function Bucketed<V>(items: seq<(Key, V)>): map<Key, seq<V>> {
    if items == [] then map[] else Push(Bucketed(items[..|items| - 1]), items[|items| - 1].0, items[|items| - 1].1)
  }

  function Listing(effects: map<Key, seq<Delivered>>): Key -> Correlated {
    (k: Key) => Correlated(k.0, k.1, if k in effects then effects[k] else [])
  }

  function Correlate(items: seq<(Key, Delivered)>): seq<Correlated> {
    var effects := Bucketed(items);
    Map(Listing(effects), InOrder(effects.Keys))
  }

  function Conflicts(groups: Groups): seq<Conflict> {
    FlatMap(ConflictAt(groups), InOrder(groups.Keys))
  }

  function Effects(groups: Groups): seq<Correlated> {
    Correlate(FlatMap(EffectAt(groups), InOrder(groups.Keys)))
  }

  function EffectState(groups: Groups): State {
    if Conflicts(groups) != [] then StateConflict
    else if Effects(groups) == [] then StateUnknown
    else StateEstablished
  }

  /** Why a receipt is in no group, if it is in none. */
  function GapOf(r: Span): Option<Gap> {
    if !Scoped(r) then Some(ReceiptScopeUnresolved) else if ReceiptId(r).None? then Some(ReceiptIdentityMissing) else None
  }

  function IntakeGaps(candidates: seq<Span>): seq<Gap> {
    FlatMap(IntakeGap, candidates)
  }

  function IntakeGap(r: Span): seq<Gap> {
    if GapOf(r).Some? then [GapOf(r).value] else []
  }

  function Ungrouped(r: Span): seq<string> {
    if KeyOf(r).None? then [r.locator] else []
  }

  /** The gaps as they are found, before they are sorted. */
  function FoundGaps(candidates: seq<Span>): seq<Gap> {
    var groups := Summaries(candidates);
    IntakeGaps(candidates) + FlatMap(TicketGapAt(groups), InOrder(groups.Keys))
    + (if EffectState(groups) == StateUnknown then [EffectObservationMissing] else [])
  }

  /** The evidence as it is found. */
  function FoundEvidence(candidates: seq<Span>, at: string): seq<string> {
    var groups := Summaries(candidates);
    [at] + FlatMap(Ungrouped, candidates) + FlatMap(SeenAt(groups), InOrder(groups.Keys))
  }

  function EffectsAnswer(ctx: Context, e: Span): Answer {
    var action := ActionId(e);
    var subject := ExecutionSubject(e.resourceService, action);
    var candidates := Filter(IsCandidate(action), ctx.receipts);
    var r6 := MethodFor(ctx.opts, R6);
    if r6.None? then
      Answer(EffectsForExecution, subject, StateUnknown, ObservedEffects([], None, Some(|candidates|)), [R6NotEstablished], [], [e.locator])
    else if |ctx.scopes| != 1 then
      Answer(EffectsForExecution, subject, StateUnknown, ObservedEffects([], None, None), [IdentityScopeUnresolved], [], [e.locator])
    else
      JoinedAnswer(candidates, subject, r6, e.locator)
  }

  /** What the candidates show about an execution once they may be joined to it. */
  function JoinedAnswer(candidates: seq<Span>, subject: Subject, r6: Option<string>, at: string): Answer {
    var groups := Summaries(candidates);
    Answer(EffectsForExecution, subject, EffectState(groups), ObservedEffects(Effects(groups), r6, None),
           SortedGaps(FoundGaps(candidates)), Conflicts(groups), Dedup(SortedTexts(FoundEvidence(candidates, at))))
  }

  // ---- effects_for --------------------------------------------------------------------------

  lemma FlatMapNext<T, U>(f: T -> seq<U>, s: seq<T>, i: nat)
    requires i < |s|
    ensures FlatMap(f, s[..i + 1]) == FlatMap(f, s[..i]) + f(s[i])
    ensures f(s[i]) == [] ==> FlatMap(f, s[..i + 1]) == FlatMap(f, s[..i])
  {
    assert s[..i + 1][..i] == s[..i];
  }

  lemma MapNext<T, U>(f: T -> U, s: seq<T>, i: nat)
    requires i < |s|
    ensures Map(f, s[..i + 1]) == Map(f, s[..i]) + [f(s[i])]
  {
  }

  lemma PrefixNext<T>(s: seq<T>, i: nat)
    requires i < |s|
    ensures s[..i + 1] == s[..i] + [s[i]]
  {
  }

  lemma WholeSeq<T>(s: seq<T>)
    ensures s[..|s|] == s
  {
  }

  ghost predicate Grouped(candidates: seq<Span>, groups: map<Key, seq<Span>>) {
    groups.Keys == Keys(candidates) && forall k :: k in groups ==> groups[k] == Deliveries(candidates, k)
  }

  lemma GroupStep(candidates: seq<Span>, groups: map<Key, seq<Span>>, r: Span)
    requires Grouped(candidates, groups)
    ensures Grouped(candidates + [r], if KeyOf(r).Some? then Push(groups, KeyOf(r).value, r) else groups)
  {
    GroupGrows(candidates, r);
    var after := if KeyOf(r).Some? then Push(groups, KeyOf(r).value, r) else groups;
    forall k | k in after ensures after[k] == Deliveries(candidates + [r], k) {
      assert Deliveries(candidates + [r], k) == Deliveries(candidates, k) + (if KeyOf(r) == Some(k) then [r] else []);
    }
  }

  lemma GroupGrows(candidates: seq<Span>, r: Span)
    ensures Keys(candidates + [r]) == Keys(candidates) + (if KeyOf(r).Some? then {KeyOf(r).value} else {})
    ensures forall k :: Deliveries(candidates + [r], k) == Deliveries(candidates, k) + (if KeyOf(r) == Some(k) then [r] else [])
    ensures forall k :: k !in Keys(candidates) ==> Deliveries(candidates, k) == []
  {
    forall k ensures Deliveries(candidates + [r], k) == Deliveries(candidates, k) + (if KeyOf(r) == Some(k) then [r] else []) {
      FilterAppend(InGroup(k), candidates, r);
    }
    forall k | k !in Keys(candidates) ensures Deliveries(candidates, k) == [] {
      GroupsNonEmpty(candidates, k);
    }
    assert forall x :: x in candidates + [r] <==> x in candidates || x == r;
  }

  /** The loop that groups candidates by scoped receipt identity. */
  method GroupReceipts(candidates: seq<Span>) returns (groups: map<Key, seq<Span>>, gaps: seq<Gap>, evidence: seq<string>)
    ensures Grouped(candidates, groups)
    ensures gaps == IntakeGaps(candidates) && evidence == FlatMap(Ungrouped, candidates)
  {
    groups, gaps, evidence := map[], [], [];
    for i := 0 to |candidates|
      invariant Grouped(candidates[..i], groups)
      invariant gaps == IntakeGaps(candidates[..i]) && evidence == FlatMap(Ungrouped, candidates[..i])
    {
      var r := candidates[i];
      PrefixNext(candidates, i);
      GroupStep(candidates[..i], groups, r);
      FlatMapNext(IntakeGap, candidates, i);
      FlatMapNext(Ungrouped, candidates, i);
      match KeyOf(r)
      case Some(k) => groups := Push(groups, k, r);
      case None => gaps, evidence := gaps + [GapOf(r).value], evidence + [r.locator];
    }
    WholeSeq(candidates);
  }

  /** Deliveries agree when each carries what the first carries. */
  method JudgeDeliveries(deliveries: seq<Span>) returns (outcome: Outcome)
    requires deliveries != []
    ensures outcome == OutcomeOf(deliveries)
  {
    for i := 0 to |deliveries|
      invariant forall j :: 0 <= j < i ==> deliveries[j].attrs == deliveries[0].attrs
    {
      if deliveries[i].attrs != deliveries[0].attrs {
        return Disagreement;
      }
    }
    match TicketId(deliveries[0])
    case Some(ticket) => return Effect(ticket);
    case None => return NoTicket;
  }

  /** What the loop over the groups has gathered. */
  datatype Gathered = Gathered(effects: map<Key, seq<Delivered>>, conflicts: seq<Conflict>, gaps: seq<Gap>, evidence: seq<string>)

  function GatheredFrom(groups: Groups, keys: seq<Key>): Gathered {
    Gathered(Bucketed(FlatMap(EffectAt(groups), keys)), FlatMap(ConflictAt(groups), keys), FlatMap(TicketGapAt(groups), keys),
             FlatMap(SeenAt(groups), keys))
  }

  /** One round of the loop over the groups. */
  method AddGroup(so: Gathered, k: Key, deliveries: seq<Span>) returns (next: Gathered)
    requires deliveries != []
    ensures next == WithGroup(so, k, Summarize(deliveries))
  {
    var at := SortedTexts(Map(Locator, deliveries));
    next := so.(evidence := so.evidence + at);
    var outcome := JudgeDeliveries(deliveries);
    match outcome
    case Disagreement => next := next.(conflicts := next.conflicts + [Conflict(k.1, k.0, at)]);
    case NoTicket => next := next.(gaps := next.gaps + [EffectIdentityMissing]);
    case Effect(ticket) => next := next.(effects := Push(next.effects, (k.0, ticket), Delivered(k.1, |deliveries|)));
  }

  function WithGroup(so: Gathered, k: Key, s: Summary): Gathered {
    var seen := so.(evidence := so.evidence + s.at);
    match s.outcome
    case Disagreement => seen.(conflicts := so.conflicts + [Conflict(k.1, k.0, s.at)])
    case NoTicket => seen.(gaps := so.gaps + [EffectIdentityMissing])
    case Effect(ticket) => seen.(effects := Push(so.effects, (k.0, ticket), Delivered(k.1, s.deliveries)))
  }

  lemma BucketedNext<V>(items: seq<(Key, V)>, item: (Key, V))
    ensures Bucketed(items + [item]) == Push(Bucketed(items), item.0, item.1)
  {
    assert (items + [item])[..|items|] == items;
  }

  lemma GatheredNext(groups: Groups, keys: seq<Key>, i: nat)
    requires i < |keys| && keys[i] in groups
    ensures GatheredFrom(groups, keys[..i + 1]) == WithGroup(GatheredFrom(groups, keys[..i]), keys[i], groups[keys[i]])
  {
    var k, s := keys[i], groups[keys[i]];
    FlatMapNext(EffectAt(groups), keys, i);
    FlatMapNext(ConflictAt(groups), keys, i);
    FlatMapNext(TicketGapAt(groups), keys, i);
    FlatMapNext(SeenAt(groups), keys, i);
    if s.outcome.Effect? {
      BucketedNext(FlatMap(EffectAt(groups), keys[..i]), ((k.0, s.outcome.ticket), Delivered(k.1, s.deliveries)));
    }
  }

  /** The loop over the groups, in the order of their keys. */
  method CollectGroups(candidates: seq<Span>, groups: map<Key, seq<Span>>) returns (all: Gathered)
    requires Grouped(candidates, groups)
    ensures all == GatheredFrom(Summaries(candidates), InOrder(Summaries(candidates).Keys))
  {
    assert groups.Keys == Summaries(candidates).Keys;
    var order := InOrder(groups.Keys);
    all := Gathered(map[], [], [], []);
    for i := 0 to |order|
      invariant all == GatheredFrom(Summaries(candidates), order[..i])
    {
      var k := order[i];
      assert k in order;
      GroupsNonEmpty(candidates, k);
      GatheredNext(Summaries(candidates), order, i);
      all := AddGroup(all, k, groups[k]);
    }
    WholeSeq(order);
  }

  /** Model of `effects_for`. */
  method EffectsFor(ctx: Context, e: Span) returns (answer: Answer)
    ensures answer == EffectsAnswer(ctx, e)
  {
    var action := ActionId(e);
    var subject := ExecutionSubject(e.resourceService, action);
    var candidates := Filter(IsCandidate(action), ctx.receipts);
    var r6 := MethodFor(ctx.opts, R6);
    if r6.None? {
      return Answer(EffectsForExecution, subject, StateUnknown, ObservedEffects([], None, Some(|candidates|)), [R6NotEstablished], [], [e.locator]);
    }
    if |ctx.scopes| != 1 {
      return Answer(EffectsForExecution, subject, StateUnknown, ObservedEffects([], None, None), [IdentityScopeUnresolved], [], [e.locator]);
    }
    answer := JoinEffects(candidates, subject, r6, e.locator);
  }

  method JoinEffects(candidates: seq<Span>, subject: Subject, r6: Option<string>, at: string) returns (answer: Answer)
    ensures answer == JoinedAnswer(candidates, subject, r6, at)
  {
    var groups, gaps, evidence := GroupReceipts(candidates);
    var all := CollectGroups(candidates, groups);
    var correlated := Map(Listing(all.effects), InOrder(all.effects.Keys));
    ghost var summaries := Summaries(candidates);
    assert correlated == Effects(summaries) && all.conflicts == Conflicts(summaries);
    var state := if all.conflicts != [] then StateConflict else if correlated == [] then StateUnknown else StateEstablished;
    assert state == EffectState(summaries);
    gaps := gaps + all.gaps + (if state == StateUnknown then [EffectObservationMissing] else []);
    assert gaps == FoundGaps(candidates);
    evidence := [at] + evidence + all.evidence;
    assert evidence == FoundEvidence(candidates, at);
    answer := Answer(EffectsForExecution, subject, state, ObservedEffects(correlated, r6, None), SortedGaps(gaps), all.conflicts,
                     Dedup(SortedTexts(evidence)));
  }

  // ---- the report ---------------------------------------------------------------------------

  function ExecutionAnswers(ctx: Context): Span -> seq<Answer> {
    e => [ApprovalAnswer(ctx, e), EffectsAnswer(ctx, e)]
  }

  function IsUncorrelated(actions: set<string>): Span -> bool {
    r => !(ReceiptAction(r).Some? && ReceiptAction(r).value in actions)
  }

  function Turns(spans: seq<Span>): seq<Span> { Filter(IsKind(Turn), spans) }
  function Proposals(spans: seq<Span>): seq<Span> { Filter(IsKind(Proposal), spans) }
  function Executions(spans: seq<Span>): seq<Span> { Filter(IsKind(Execution), spans) }
  function Receipts(spans: seq<Span>): seq<Span> { Filter(IsKind(Receipt), spans) }

  function Continuities(opts: Options): Span -> Answer {
    t => ContinuityAnswer(opts, t)
  }

  /** Every answer after the continuity answers. */
  function OtherAnswers(spans: seq<Span>, opts: Options): seq<Answer> {
    var ctx := ContextOf(spans, opts);
    Map(CallsAnswer, Turns(spans)) + Map(OriginAnswer, Proposals(spans)) + FlatMap(ExecutionAnswers(ctx), Executions(spans))
    + Map(ReportAnswer, Filter(IsUncorrelated(ctx.actions), Receipts(spans)))
  }

  /** Every answer, in the order it is found. */
  function AllAnswers(spans: seq<Span>, opts: Options): seq<Answer> {
    Map(Continuities(opts), Turns(spans)) + OtherAnswers(spans, opts)
  }

  /** How the parts that are sorted by are printed. */
  datatype Texts = Texts(query: Query -> string, subject: Subject -> string, loss: Loss -> string, notUsed: NotUsed -> string)

  ghost predicate Faithful(texts: Texts) {
    && (forall x, y :: texts.query(x) == texts.query(y) ==> x == y)
    && (forall x, y :: texts.subject(x) == texts.subject(y) ==> x == y)
    && (forall x, y :: texts.loss(x) == texts.loss(y) ==> x == y)
    && (forall x, y :: texts.notUsed(x) == texts.notUsed(y) ==> x == y)
  }

  function SortKey(texts: Texts): Answer -> (string, string) {
    (a: Answer) => (texts.query(a.query), texts.subject(a.subject))
  }

  function ReportOf(spans: seq<Span>, opts: Options, texts: Texts): Report {
    Report(CONTRACT, opts,
           StableSort(SortKey(texts), PairLe, AllAnswers(spans, opts)),
           Dedup(StableSort(texts.loss, TextLe, AllLosses(spans, opts))),
           StableSort(texts.notUsed, TextLe, FlatMap(SpanNotUsed, spans)))
  }

  // ---- the reader ---------------------------------------------------------------------------

  /** Spans by kind, in arrival order. */
  ghost predicate Sorted(byKind: map<Kind, seq<Span>>, spans: seq<Span>) {
    forall k :: Of(byKind, k) == Filter(IsKind(k), spans)
  }

  function Of(byKind: map<Kind, seq<Span>>, k: Kind): seq<Span> {
    if k in byKind then byKind[k] else []
  }

  lemma KindStep(byKind: map<Kind, seq<Span>>, spans: seq<Span>, s: Span)
    requires Sorted(byKind, spans)
    ensures Classify(s).None? ==> Sorted(byKind, spans + [s])
    ensures forall k :: Classify(s) == Some(k) ==> Sorted(byKind[k := Of(byKind, k) + [s]], spans + [s])
  {
    forall k ensures Filter(IsKind(k), spans + [s]) == Filter(IsKind(k), spans) + (if Classify(s) == Some(k) then [s] else []) {
      FilterAppend(IsKind(k), spans, s);
    }
  }

  lemma Regroup<T>(a: seq<T>, b: seq<T>, c: seq<T>, d: seq<T>, e: seq<T>)
    ensures a + b + c + (d + e) == a + (b + c + d + e)
  {
  }

  /** The loop over the spans. */
  method Intake(spans: seq<Span>) returns (byKind: map<Kind, seq<Span>>, losses: seq<Loss>, notUsed: seq<NotUsed>)
    ensures Sorted(byKind, spans)
    ensures losses == FlatMap(SpanLosses, spans) && notUsed == FlatMap(SpanNotUsed, spans)
  {
    byKind, losses, notUsed := map[], [], [];
    for i := 0 to |spans|
      invariant Sorted(byKind, spans[..i])
      invariant losses == FlatMap(SpanLosses, spans[..i]) && notUsed == FlatMap(SpanNotUsed, spans[..i])
    {
      var s := spans[i];
      KindStep(byKind, spans[..i], s);
      FlatMapNext(SpanLosses, spans, i);
      FlatMapNext(SpanNotUsed, spans, i);
      PrefixNext(spans, i);
      match Classify(s) {
        case Some(k) => byKind := byKind[k := Of(byKind, k) + [s]];
        case None =>
      }
      losses, notUsed := losses + SpanLosses(s), notUsed + SpanNotUsed(s);
    }
    WholeSeq(spans);
  }

  method TurnAnswers(turns: seq<Span>, opts: Options) returns (answers: seq<Answer>, losses: seq<Loss>)
    ensures answers == Map(Continuities(opts), turns) + Map(CallsAnswer, turns)
    ensures losses == FlatMap(TurnLosses(opts), turns)
  {
    answers, losses := [], [];
    for i := 0 to |turns|
      invariant answers == Map(Continuities(opts), turns[..i])
      invariant losses == FlatMap(TurnLosses(opts), turns[..i])
    {
      MapNext(Continuities(opts), turns, i);
      FlatMapNext(TurnLosses(opts), turns, i);
      answers, losses := answers + [ContinuityAnswer(opts, turns[i])], losses + TurnLosses(opts)(turns[i]);
    }
    WholeSeq(turns);
    answers := answers + Map(CallsAnswer, turns);
  }

  method AnswerExecutions(ctx: Context, executions: seq<Span>) returns (answers: seq<Answer>, losses: seq<Loss>)
    ensures answers == FlatMap(ExecutionAnswers(ctx), executions)
    ensures losses == FlatMap(ExecutionLosses(ctx.opts), executions)
  {
    answers, losses := [], [];
    for i := 0 to |executions|
      invariant answers == FlatMap(ExecutionAnswers(ctx), executions[..i])
      invariant losses == FlatMap(ExecutionLosses(ctx.opts), executions[..i])
    {
      FlatMapNext(ExecutionAnswers(ctx), executions, i);
      FlatMapNext(ExecutionLosses(ctx.opts), executions, i);
      var effects := EffectsFor(ctx, executions[i]);
      answers := answers + [ApprovalAnswer(ctx, executions[i]), effects];
      losses := losses + ExecutionLosses(ctx.opts)(executions[i]);
    }
    WholeSeq(executions);
  }

  /** Model of `interpret`. */
  method Interpret(spans: seq<Span>, opts: Options, texts: Texts) returns (report: Report)
    ensures report == ReportOf(spans, opts, texts)
  {
    var byKind, losses, notUsed := Intake(spans);
    var turns, proposals, executions, receipts := Of(byKind, Turn), Of(byKind, Proposal), Of(byKind, Execution), Of(byKind, Receipt);
    var answers, turnLosses := TurnAnswers(turns, opts);
    var ctx := Context(opts, Actions(proposals), Scopes(executions), receipts, Actions(executions));
    var executionAnswers, executionLosses := AnswerExecutions(ctx, executions);
    var origins, uncorrelated := Map(OriginAnswer, proposals), Map(ReportAnswer, Filter(IsUncorrelated(ctx.actions), receipts));
    answers := answers + origins + (executionAnswers + uncorrelated);
    losses := losses + turnLosses + executionLosses;
    assert answers == AllAnswers(spans, opts) by {
      assert ctx == ContextOf(spans, opts);
      Regroup(Map(Continuities(opts), turns), Map(CallsAnswer, turns), origins, executionAnswers, uncorrelated);
    }
    report := Report(CONTRACT, opts, StableSort(SortKey(texts), PairLe, answers), Dedup(StableSort(texts.loss, TextLe, losses)),
                     StableSort(texts.notUsed, TextLe, notUsed));
  }
}
