/**
 What a report says, on the attributes and resource services of the spans alone: which spans
 are read as what, which receipts become effects, conflicts and gaps, and which losses are
 reported.
 */
module TraceReaderMeaning {
  import opened Prelude
  import opened Sorting
  import opened TraceReader
  import opened TraceReaderOrder
  import opened TraceReaderEffects
  import TraceReaderAnswers

  /** A string attribute is what the first item of that name holds, if it holds a string. */
  lemma {:induction false} TextAttribute(attrs: seq<(string, AttrValue)>, key: string, text: string)
    ensures FindText(attrs, key) == Some(text) <==>
              exists i :: 0 <= i < |attrs| && attrs[i] == (key, StringValue(text)) && forall j :: 0 <= j < i ==> attrs[j].0 != key
  {
    if attrs != [] && attrs[0].0 != key {
      TextAttribute(attrs[1..], key, text);
      if i :| 0 <= i < |attrs[1..]| && attrs[1..][i] == (key, StringValue(text)) && forall j :: 0 <= j < i ==> attrs[1..][j].0 != key {
        forall j | 0 <= j < i + 1 ensures attrs[j].0 != key {
          assert j > 0 ==> attrs[j] == attrs[1..][j - 1];
        }
        assert attrs[i + 1] == (key, StringValue(text));
      }
      if i :| 0 <= i < |attrs| && attrs[i] == (key, StringValue(text)) && forall j :: 0 <= j < i ==> attrs[j].0 != key {
        assert attrs[1..][i - 1] == (key, StringValue(text));
        assert forall j :: 0 <= j < i - 1 ==> attrs[1..][j] == attrs[j + 1];
      }
    } else if attrs != [] {
      assert FindText(attrs, key) == Some(text) <==> attrs[0] == (key, StringValue(text));
    }
  }

  // ---- what a span is read as ---------------------------------------------------------------

  ghost predicate ReceiptLike(s: Span) {
    s.name == "ticket.create.receipt" || exists item :: item in s.attrs && "receipt." <= item.0
  }

  ghost predicate ExecutionLike(s: Span) {
    !ReceiptLike(s) && "execute_tool" <= s.name
  }

  ghost predicate ProposalLike(s: Span) {
    !ReceiptLike(s) && s.name == "propose_action"
  }

  ghost predicate TurnLike(s: Span) {
    !ReceiptLike(s) && !("execute_tool" <= s.name) && s.name != "propose_action" && s.Has("turn.id")
  }

  ghost predicate ReadAs(s: Span, kind: Kind) {
    match kind
    case Receipt => ReceiptLike(s)
    case Execution => ExecutionLike(s)
    case Proposal => ProposalLike(s)
    case Turn => TurnLike(s)
  }

  lemma HasReceiptField(s: Span)
    ensures (exists item :: item in s.attrs && "receipt." <= item.0) <==> exists i :: 0 <= i < |s.attrs| && "receipt." <= s.attrs[i].0
  {
    if i :| 0 <= i < |s.attrs| && "receipt." <= s.attrs[i].0 {
      assert s.attrs[i] in s.attrs;
    }
  }

  lemma KindsMean(s: Span, kind: Kind)
    ensures Classify(s) == Some(kind) <==> ReadAs(s, kind)
  {
    HasReceiptField(s);
    OtherNames(s.name);
  }

  lemma OtherNames(name: string)
    ensures name == "propose_action" ==> !("execute_tool" <= name)
  {
    assert name == "propose_action" ==> name[0] == 'p';
    assert "execute_tool" <= name ==> name[0] == 'e';
  }

  lemma OfKind(spans: seq<Span>, kind: Kind, s: Span)
    ensures s in Filter(IsKind(kind), spans) <==> s in spans && ReadAs(s, kind)
  {
    KindsMean(s, kind);
  }

  // ---- methods and scopes -------------------------------------------------------------------

  /** A default is declared for the relationship and names one of the four known methods. */
  predicate Recognized(opts: Options, r: Relationship) {
    && r in opts.methodDefaults
    && var m := opts.methodDefaults[r];
       m == "span-link" || m == "attribute-reference" || m == "causal-flag" || m == "external-correlation-key"
  }

  lemma RecognizedIs(opts: Options, r: Relationship)
    ensures MethodFor(opts, r) == if Recognized(opts, r) then Some(opts.methodDefaults[r]) else None
  {
  }

  /** All executions that are exported under a service are exported under this one. */
  ghost predicate OneScope(spans: seq<Span>, scope: string) {
    && (exists e :: e in Executions(spans) && e.resourceService == Some(scope))
    && forall e :: e in Executions(spans) ==> e.resourceService.None? || e.resourceService == Some(scope)
  }

  lemma OneScopeIs(spans: seq<Span>)
    ensures |Scopes(Executions(spans))| == 1 <==> exists scope :: OneScope(spans, scope)
  {
    var scopes := Scopes(Executions(spans));
    if |scopes| == 1 {
      var scope :| scope in scopes;
      assert |scopes - {scope}| == 0;
      assert scopes == {scope};
      forall e | e in Executions(spans) && e.resourceService.Some? ensures e.resourceService == Some(scope) {
        assert e.resourceService.value in scopes;
      }
      assert OneScope(spans, scope);
    }
    if scope :| OneScope(spans, scope) {
      assert scopes == {scope};
    }
  }

  /** Receipts may be joined to executions. */
  ghost predicate Joins(spans: seq<Span>, opts: Options) {
    Recognized(opts, R6) && exists scope :: OneScope(spans, scope)
  }

  // ---- receipts of an execution -------------------------------------------------------------

  /** The receipt names the executed action. */
  predicate NamesAction(e: Span, r: Span) {
    e.Attr("action.id").Some? && r.Attr("receipt.action_id") == e.Attr("action.id")
  }

  /** It was issued as `receipt` by the service that exported it. */
  predicate IssuedBy(r: Span, scope: string, receipt: string) {
    r.resourceService == Some(scope) && r.Attr("receipt.service") == Some(scope) && r.Attr("receipt.id") == Some(receipt)
  }

  /** A delivery of one receipt for the execution `e`. */
  ghost predicate Delivers(spans: seq<Span>, e: Span, r: Span, scope: string, receipt: string) {
    r in Receipts(spans) && NamesAction(e, r) && IssuedBy(r, scope, receipt)
  }

  function Candidates(spans: seq<Span>, e: Span): seq<Span> {
    Filter(IsCandidate(ActionId(e)), Receipts(spans))
  }

  lemma NamesActionIs(e: Span, r: Span)
    ensures NamesAction(e, r) <==> ActionId(e).Some? && ReceiptAction(r) == ActionId(e)
  {
  }

  lemma CandidateIs(spans: seq<Span>, e: Span, r: Span)
    ensures r in Candidates(spans, e) <==> r in Receipts(spans) && NamesAction(e, r)
  {
  }

  lemma KeyIs(r: Span, scope: string, receipt: string)
    ensures KeyOf(r) == Some((scope, receipt)) <==> IssuedBy(r, scope, receipt)
  {
  }

  lemma DeliveriesAre(spans: seq<Span>, e: Span, scope: string, receipt: string, r: Span)
    ensures r in Deliveries(Candidates(spans, e), (scope, receipt)) <==> Delivers(spans, e, r, scope, receipt)
  {
    CandidateIs(spans, e, r);
    KeyIs(r, scope, receipt);
  }

  /** Two deliveries of the receipt differ. */
  ghost predicate Disagreed(spans: seq<Span>, e: Span, scope: string, receipt: string) {
    exists q, r :: Delivers(spans, e, q, scope, receipt) && Delivers(spans, e, r, scope, receipt) && q.attrs != r.attrs
  }

  /** Every delivery of the receipt carries the same attributes, this ticket among them. */
  ghost predicate Ticketed(spans: seq<Span>, e: Span, scope: string, receipt: string, ticket: string) {
    exists r ::
      && Delivers(spans, e, r, scope, receipt) && r.Attr("receipt.ticket_id") == Some(ticket)
      && forall q :: Delivers(spans, e, q, scope, receipt) ==> q.attrs == r.attrs
  }

  lemma GroupIs(spans: seq<Span>, e: Span, scope: string, receipt: string)
    ensures var groups, k := Summaries(Candidates(spans, e)), (scope, receipt);
            && (k in groups <==> exists r :: Delivers(spans, e, r, scope, receipt))
            && (k in groups ==> groups[k].outcome == OutcomeOf(Deliveries(Candidates(spans, e), k)))
            && (k in groups <==> Deliveries(Candidates(spans, e), k) != [])
  {
    var deliveries := Deliveries(Candidates(spans, e), (scope, receipt));
    GroupsNonEmpty(Candidates(spans, e), (scope, receipt));
    if deliveries != [] {
      DeliveriesAre(spans, e, scope, receipt, deliveries[0]);
    }
    if r :| Delivers(spans, e, r, scope, receipt) {
      DeliveriesAre(spans, e, scope, receipt, r);
    }
  }

  /** What deliveries show together, whichever of them comes first. */
  lemma OutcomeMeans(deliveries: seq<Span>, ticket: string)
    requires deliveries != []
    ensures var outcome := OutcomeOf(deliveries);
            && (outcome.Disagreement? <==> exists q, r :: q in deliveries && r in deliveries && q.attrs != r.attrs)
            && (outcome == Effect(ticket) <==>
                  exists r :: r in deliveries && r.Attr("receipt.ticket_id") == Some(ticket) && forall q :: q in deliveries ==> q.attrs == r.attrs)
            && (outcome.NoTicket? <==>
                  exists r :: r in deliveries && r.Attr("receipt.ticket_id").None? && forall q :: q in deliveries ==> q.attrs == r.attrs)
  {
    assert deliveries[0] in deliveries;
  }

  lemma MembersAre(spans: seq<Span>, e: Span, scope: string, receipt: string)
    ensures forall r :: r in Deliveries(Candidates(spans, e), (scope, receipt)) <==> Delivers(spans, e, r, scope, receipt)
  {
    forall r ensures r in Deliveries(Candidates(spans, e), (scope, receipt)) <==> Delivers(spans, e, r, scope, receipt) {
      DeliveriesAre(spans, e, scope, receipt, r);
    }
  }

  lemma OutcomeIs(spans: seq<Span>, e: Span, scope: string, receipt: string, ticket: string)
    requires Deliveries(Candidates(spans, e), (scope, receipt)) != []
    ensures var outcome := OutcomeOf(Deliveries(Candidates(spans, e), (scope, receipt)));
            && (outcome.Disagreement? <==> Disagreed(spans, e, scope, receipt))
            && (outcome == Effect(ticket) <==> Ticketed(spans, e, scope, receipt, ticket))
  {
    var deliveries := Deliveries(Candidates(spans, e), (scope, receipt));
    MembersAre(spans, e, scope, receipt);
    OutcomeMeans(deliveries, ticket);
  }

  lemma JoinedIs(spans: seq<Span>, opts: Options, e: Span)
    requires Joins(spans, opts)
    ensures EffectsAnswer(ContextOf(spans, opts), e)
         == JoinedAnswer(Candidates(spans, e), ExecutionSubject(e.resourceService, ActionId(e)), Some(opts.methodDefaults[R6]), e.locator)
  {
    RecognizedIs(opts, R6);
    OneScopeIs(spans);
  }

  /**
   The effects of an execution: a receipt is listed under a scope and a ticket exactly when the
   service of that name exported and issued it for the action, all its deliveries carry the same
   attributes, and they name that ticket.
   */
  lemma EffectsListed(spans: seq<Span>, opts: Options, e: Span, scope: string, ticket: string, receipt: string)
    requires Joins(spans, opts)
    ensures var x := EffectsAnswer(ContextOf(spans, opts), e);
            x.observed.ObservedEffects? && (ListsReceipt(x, scope, ticket, receipt) <==> Ticketed(spans, e, scope, receipt, ticket))
  {
    JoinedIs(spans, opts, e);
    ReceiptListed(Summaries(Candidates(spans, e)), EffectsAnswer(ContextOf(spans, opts), e), scope, ticket, receipt);
    GroupIs(spans, e, scope, receipt);
    if exists r :: Delivers(spans, e, r, scope, receipt) {
      OutcomeIs(spans, e, scope, receipt, ticket);
    }
  }

  /** The conflicts: exactly the receipts of which two deliveries differ. */
  lemma ConflictsListed(spans: seq<Span>, opts: Options, e: Span, scope: string, receipt: string)
    requires Joins(spans, opts)
    ensures ListsConflict(EffectsAnswer(ContextOf(spans, opts), e), scope, receipt) <==> Disagreed(spans, e, scope, receipt)
  {
    JoinedIs(spans, opts, e);
    ConflictListed(Summaries(Candidates(spans, e)), EffectsAnswer(ContextOf(spans, opts), e), scope, receipt);
    GroupIs(spans, e, scope, receipt);
    if exists r :: Delivers(spans, e, r, scope, receipt) {
      OutcomeIs(spans, e, scope, receipt, "");
    }
  }

  /** `k` comes before `m`: by the first text, and by the second where the first are equal. */
  predicate Before(k: Key, m: Key) {
    k != m && if k.0 == m.0 then TextLe(k.1, m.1) else TextLe(k.0, m.0)
  }

  /** Effects are listed by scope and ticket, each pair once. */
  lemma EffectsInOrder(spans: seq<Span>, opts: Options, e: Span, i: nat, j: nat)
    requires Joins(spans, opts)
    requires EffectsAnswer(ContextOf(spans, opts), e).observed.ObservedEffects?
    requires i < j < |EffectsAnswer(ContextOf(spans, opts), e).observed.effects|
    ensures var effects := EffectsAnswer(ContextOf(spans, opts), e).observed.effects;
            Before((effects[i].scope, effects[i].ticket), (effects[j].scope, effects[j].ticket))
  {
    JoinedIs(spans, opts, e);
    var groups := Summaries(Candidates(spans, e));
    var items := FlatMap(EffectAt(groups), InOrder(groups.Keys));
    assert |Correlate(items)| == |InOrder(Bucketed(items).Keys)|;
    CorrelateAt(items, i);
    CorrelateAt(items, j);
    InOrderAscends(Bucketed(items).Keys, i, j);
  }

  /** Gaps by their names and evidence by place, in ascending order. */
  lemma GapsAndEvidenceInOrder(spans: seq<Span>, opts: Options, e: Span)
    requires Joins(spans, opts)
    ensures var x := EffectsAnswer(ContextOf(spans, opts), e);
            && (forall i, j :: 0 <= i < j < |x.gaps| ==> TextLe(GapName(x.gaps[i]), GapName(x.gaps[j])))
            && (forall i, j :: 0 <= i < j < |x.evidence| ==> TextLe(x.evidence[i], x.evidence[j]))
  {
    JoinedIs(spans, opts, e);
    TextOrder();
    var gaps, evidence := FoundGaps(Candidates(spans, e)), FoundEvidence(Candidates(spans, e), e.locator);
    SortSorts(GapName, TextLe, gaps);
    SortSorts(Itself, TextLe, evidence);
    DedupAscends(GapName, StableSort(GapName, TextLe, gaps));
    DedupAscends(Itself, StableSort(Itself, TextLe, evidence));
    assert forall i :: 0 <= i < |SortedTexts(evidence)| ==> Itself(SortedTexts(evidence)[i]) == SortedTexts(evidence)[i];
  }

  lemma {:induction false} DedupAscends<T(!new)>(text: T -> string, s: seq<T>)
    requires SortedBy(text, TextLe, s)
    ensures SortedBy(text, TextLe, Dedup(s))
  {
    if |s| > 1 {
      var n := |s| - 1;
      DedupAscends(text, s[..n]);
      TraceReaderAnswers.DedupKeeps(s[..n]);
      forall i | 0 <= i < |Dedup(s[..n])| ensures TextLe(text(Dedup(s[..n])[i]), text(s[n])) {
        assert Dedup(s[..n])[i] in s[..n];
        var k :| 0 <= k < n && s[k] == Dedup(s[..n])[i];
      }
    }
  }

  /** A conflict shows the places of all the deliveries of its receipt. */
  lemma ConflictPlaces(spans: seq<Span>, opts: Options, e: Span, c: Conflict, at: string)
    requires Joins(spans, opts) && c in EffectsAnswer(ContextOf(spans, opts), e).conflicts
    ensures at in c.at <==> exists r :: Delivers(spans, e, r, c.scope, c.receipt) && r.locator == at
  {
    JoinedIs(spans, opts, e);
    var k := ConflictGroup(Summaries(Candidates(spans, e)), c);
    TraceReaderAnswers.GroupPlaces(Candidates(spans, e), k, at);
    forall r ensures r in Candidates(spans, e) && KeyOf(r) == Some(k) <==> Delivers(spans, e, r, c.scope, c.receipt) {
      CandidateIs(spans, e, r);
      KeyIs(r, c.scope, c.receipt);
    }
  }

  lemma ConflictGroup(groups: Groups, c: Conflict) returns (k: Key)
    requires c in Conflicts(groups)
    ensures k == (c.scope, c.receipt) && k in groups && c.at == groups[k].at
  {
    FlatMapHas(ConflictAt(groups), InOrder(groups.Keys), c);
    k :| k in InOrder(groups.Keys) && c in ConflictAt(groups)(k);
    assert k == (k.0, k.1);
  }

  /** The state follows from what is listed. */
  lemma StateFollows(spans: seq<Span>, opts: Options, e: Span)
    requires Joins(spans, opts)
    ensures var x := EffectsAnswer(ContextOf(spans, opts), e);
            && x.observed.ObservedEffects?
            && (x.state == StateConflict <==> x.conflicts != [])
            && (x.state == StateEstablished <==> x.conflicts == [] && x.observed.effects != [])
            && (x.state == StateUnknown <==> x.conflicts == [] && x.observed.effects == [])
            && x.observed.correlation == Some(opts.methodDefaults[R6])
  {
    JoinedIs(spans, opts, e);
  }

  /** The evidence: the execution and every receipt of its action, each place once. */
  lemma EvidenceListed(spans: seq<Span>, opts: Options, e: Span, at: string)
    requires Joins(spans, opts) && e in Executions(spans)
    ensures Distinct(EffectsAnswer(ContextOf(spans, opts), e).evidence)
    ensures at in EffectsAnswer(ContextOf(spans, opts), e).evidence <==>
              at == e.locator || exists r :: r in Receipts(spans) && NamesAction(e, r) && r.locator == at
  {
    RecognizedIs(opts, R6);
    OneScopeIs(spans);
    TraceReaderAnswers.CandidatesAreEvidence(spans, opts, e);
    forall r ensures r in Candidates(spans, e) <==> r in Receipts(spans) && NamesAction(e, r) {
      CandidateIs(spans, e, r);
    }
  }

  // ---- gaps ---------------------------------------------------------------------------------

  /** Some receipt of the action names no service, or another one than the one that exported it. */
  ghost predicate Misplaced(spans: seq<Span>, e: Span) {
    exists r ::
      r in Receipts(spans) && NamesAction(e, r)
      && (r.Attr("receipt.service").None? || r.resourceService != r.Attr("receipt.service"))
  }

  /** Some receipt of the action, rightly placed, has no id. */
  ghost predicate Nameless(spans: seq<Span>, e: Span) {
    exists r ::
      r in Receipts(spans) && NamesAction(e, r) && r.Attr("receipt.id").None?
      && r.Attr("receipt.service").Some? && r.resourceService == r.Attr("receipt.service")
  }

  /** The deliveries of some receipt agree and name no ticket. */
  ghost predicate TicketMissing(spans: seq<Span>, e: Span) {
    exists scope, receipt :: Ticketless(spans, e, scope, receipt)
  }

  lemma IntakeGapIs(r: Span)
    ensures ReceiptScopeUnresolved in IntakeGap(r) <==> r.Attr("receipt.service").None? || r.resourceService != r.Attr("receipt.service")
    ensures ReceiptIdentityMissing in IntakeGap(r) <==>
              r.Attr("receipt.id").None? && r.Attr("receipt.service").Some? && r.resourceService == r.Attr("receipt.service")
    ensures EffectIdentityMissing !in IntakeGap(r) && EffectObservationMissing !in IntakeGap(r)
  {
  }

  lemma IntakeGapsAre(spans: seq<Span>, e: Span)
    ensures var gaps := IntakeGaps(Candidates(spans, e));
            && (ReceiptScopeUnresolved in gaps <==> Misplaced(spans, e))
            && (ReceiptIdentityMissing in gaps <==> Nameless(spans, e))
            && EffectIdentityMissing !in gaps && EffectObservationMissing !in gaps
  {
    var candidates := Candidates(spans, e);
    forall r ensures r in candidates <==> r in Receipts(spans) && NamesAction(e, r) {
      CandidateIs(spans, e, r);
    }
    forall r { IntakeGapIs(r); }
    FlatMapHas(IntakeGap, candidates, ReceiptScopeUnresolved);
    FlatMapHas(IntakeGap, candidates, ReceiptIdentityMissing);
    FlatMapHas(IntakeGap, candidates, EffectIdentityMissing);
    FlatMapHas(IntakeGap, candidates, EffectObservationMissing);
  }

  /** The deliveries of this receipt agree and name no ticket. */
  ghost predicate Ticketless(spans: seq<Span>, e: Span, scope: string, receipt: string) {
    exists r :: Delivers(spans, e, r, scope, receipt) && r.Attr("receipt.ticket_id").None? && !Disagreed(spans, e, scope, receipt)
  }

  lemma NoTicketIs(spans: seq<Span>, e: Span, k: Key)
    ensures var groups := Summaries(Candidates(spans, e));
            k in groups && groups[k].outcome.NoTicket? <==> Ticketless(spans, e, k.0, k.1)
  {
    GroupIs(spans, e, k.0, k.1);
    assert k == (k.0, k.1);
    var deliveries := Deliveries(Candidates(spans, e), k);
    if deliveries != [] {
      MembersAre(spans, e, k.0, k.1);
      OutcomeMeans(deliveries, "");
    }
  }

  lemma TicketGapMeans(groups: Groups)
    ensures var gaps := FlatMap(TicketGapAt(groups), InOrder(groups.Keys));
            && (EffectIdentityMissing in gaps <==> exists k :: k in groups && groups[k].outcome.NoTicket?)
            && forall g :: g in gaps ==> g == EffectIdentityMissing
  {
    var order := InOrder(groups.Keys);
    FlatMapHas(TicketGapAt(groups), order, EffectIdentityMissing);
    forall g | g in FlatMap(TicketGapAt(groups), order) ensures g == EffectIdentityMissing {
      FlatMapHas(TicketGapAt(groups), order, g);
    }
    if k :| k in groups && groups[k].outcome.NoTicket? {
      assert k in order && EffectIdentityMissing in TicketGapAt(groups)(k);
    }
  }

  lemma TicketGapIs(spans: seq<Span>, e: Span)
    ensures (exists k :: k in Summaries(Candidates(spans, e)) && Summaries(Candidates(spans, e))[k].outcome.NoTicket?) <==> TicketMissing(spans, e)
  {
    var groups := Summaries(Candidates(spans, e));
    if k :| k in groups && groups[k].outcome.NoTicket? {
      NoTicketIs(spans, e, k);
      assert Ticketless(spans, e, k.0, k.1);
    }
    if TicketMissing(spans, e) {
      var scope, receipt :| Ticketless(spans, e, scope, receipt);
      NoTicketIs(spans, e, (scope, receipt));
    }
  }

  /** The gaps of a joined answer name exactly what is missing, each once. */
  lemma GapsListed(spans: seq<Span>, opts: Options, e: Span)
    requires Joins(spans, opts)
    ensures var x := EffectsAnswer(ContextOf(spans, opts), e);
            && Distinct(x.gaps)
            && (ReceiptScopeUnresolved in x.gaps <==> Misplaced(spans, e))
            && (ReceiptIdentityMissing in x.gaps <==> Nameless(spans, e))
            && (EffectIdentityMissing in x.gaps <==> TicketMissing(spans, e))
            && (EffectObservationMissing in x.gaps <==> x.state == StateUnknown)
  {
    JoinedIs(spans, opts, e);
    IntakeGapsAre(spans, e);
    TicketGapIs(spans, e);
    TicketGapMeans(Summaries(Candidates(spans, e)));
    TraceReaderAnswers.GapsMean(FoundGaps(Candidates(spans, e)));
    GapParts(Candidates(spans, e));
  }

  lemma GapParts(candidates: seq<Span>)
    ensures var groups := Summaries(candidates);
            forall g :: g in FoundGaps(candidates) <==>
              || g in IntakeGaps(candidates) || g in FlatMap(TicketGapAt(groups), InOrder(groups.Keys))
              || (g == EffectObservationMissing && EffectState(groups) == StateUnknown)
  {
  }

  /** Without a recognized method nothing is joined: the receipts are only counted. */
  lemma UnjoinedMeans(spans: seq<Span>, opts: Options, e: Span)
    requires !Joins(spans, opts)
    ensures var x := EffectsAnswer(ContextOf(spans, opts), e);
            && x.state == StateUnknown && x.conflicts == [] && x.evidence == [e.locator]
            && x.gaps == [if Recognized(opts, R6) then IdentityScopeUnresolved else R6NotEstablished]
            && x.observed.ObservedEffects? && x.observed.effects == [] && x.observed.correlation == None
            && x.observed.reportsSeen == if Recognized(opts, R6) then None else Some(|Candidates(spans, e)|)
    ensures forall r :: r in Candidates(spans, e) <==> r in Receipts(spans) && NamesAction(e, r)
  {
    RecognizedIs(opts, R6);
    OneScopeIs(spans);
    forall r ensures r in Candidates(spans, e) <==> r in Receipts(spans) && NamesAction(e, r) {
      CandidateIs(spans, e, r);
    }
  }

  // ---- the other answers --------------------------------------------------------------------

  lemma ContinuityMeans(opts: Options, t: Span)
    ensures var x, conversation := ContinuityAnswer(opts, t), t.Attr("conversation.id");
            && x.subject == TurnSubject(t.Attr("turn.id")) && x.evidence == [t.locator]
            && (x.state == StateEstablished <==> conversation.Some? && Recognized(opts, R1))
            && (x.state == StateEstablished ==> x.gaps == [] && x.observed == ObservedContinuity(conversation, Some(opts.methodDefaults[R1])))
            && (x.state != StateEstablished ==>
                  && x.state == StateUnknown && x.observed == ObservedContinuity(None, None)
                  && x.gaps == [if conversation.Some? then R1NotEstablished else ConversationNotExported])
  {
    RecognizedIs(opts, R1);
  }

  /** Model calls and the origin of proposals are not exported: these answers say so, whatever was declared. */
  lemma NeverEstablished(s: Span)
    ensures var x := CallsAnswer(s);
            x.query == Calls && x.subject == TurnSubject(s.Attr("turn.id")) && x.state == StateUnknown && x.gaps == [NoModelCall] && x.evidence == []
    ensures var x := OriginAnswer(s);
            && x.query == ProposalOrigin && x.subject == ProposalSubject(s.Attr("action.id"))
            && x.state == StateUnknown && x.gaps == [R3NotExported] && x.evidence == [s.locator]
  {
  }

  /** The proposal of an execution is shown exactly when it was exported and the reference has a method. */
  lemma ApprovalMeans(spans: seq<Span>, opts: Options, e: Span)
    ensures var x, action := ApprovalAnswer(ContextOf(spans, opts), e), e.Attr("action.id");
            var exported := exists p :: p in Proposals(spans) && p.Attr("action.id").Some? && p.Attr("action.id") == action;
            var referred := action.Some? && Recognized(opts, R5);
            && x.subject == ExecutionSubject(e.resourceService, action) && x.evidence == [e.locator] && x.state == StateUnknown
            && x.observed == ObservedApproval(if referred && exported then action else None)
            && x.gaps == [NoDecisionRecorded] + (if !referred then [R5NotEstablished] else if !exported then [R5TargetUnresolved] else [])
  {
    RecognizedIs(opts, R5);
  }

  /** A receipt whose action nobody executed. */
  ghost predicate Stray(spans: seq<Span>, r: Span) {
    r in Receipts(spans) && !exists e :: e in Executions(spans) && NamesAction(e, r)
  }

  lemma StrayIs(spans: seq<Span>, opts: Options, r: Span)
    requires r in Receipts(spans)
    ensures Stray(spans, r) <==> IsUncorrelated(ContextOf(spans, opts).actions)(r)
  {
    if IsUncorrelated(ContextOf(spans, opts).actions)(r) {
      forall e | e in Executions(spans) ensures !NamesAction(e, r) {
        NamesActionIs(e, r);
        assert ActionId(e).Some? ==> ActionId(e).value in ContextOf(spans, opts).actions;
      }
    } else {
      var e :| e in Executions(spans) && ActionId(e).Some? && ActionId(e) == ReceiptAction(r);
      NamesActionIs(e, r);
    }
  }

  /** Stray receipts, and only they, are reported as such. */
  lemma StrayReported(spans: seq<Span>, opts: Options)
    ensures forall r :: Stray(spans, r) ==> exists x ::
      && x in AllAnswers(spans, opts) && x.query == UncorrelatedReport && x.evidence == [r.locator]
      && x.subject == ReceiptSubject(r.Attr("receipt.id"), r.Attr("receipt.service"))
    ensures forall x :: x in AllAnswers(spans, opts) && x.query == UncorrelatedReport ==> exists r ::
      && Stray(spans, r) && x.evidence == [r.locator]
      && x.subject == ReceiptSubject(r.Attr("receipt.id"), r.Attr("receipt.service"))
  {
    forall r | Stray(spans, r) ensures ReportAnswer(r) in AllAnswers(spans, opts) {
      StrayIs(spans, opts, r);
      TraceReaderAnswers.UncorrelatedReported(spans, opts, r);
    }
    forall x | x in AllAnswers(spans, opts) && x.query == UncorrelatedReport
      ensures exists r :: Stray(spans, r) && x.evidence == [r.locator] && x.subject == ReceiptSubject(r.Attr("receipt.id"), r.Attr("receipt.service"))
    {
      var r := AnswerSource(spans, opts, x);
      StrayIs(spans, opts, r);
      assert x == ReportAnswer(r);
    }
  }

  /** Every answer is about a span that was exported and read as what the query asks about, and names its place or nothing. */
  lemma AnswersAreAboutSpans(spans: seq<Span>, opts: Options, x: Answer)
    requires x in AllAnswers(spans, opts)
    ensures exists s :: s in spans && ReadAs(s, AskedOf(x.query)) && AnswerTo(ContextOf(spans, opts), s, x)
  {
    var s := AnswerSource(spans, opts, x);
    OfKind(spans, AskedOf(x.query), s);
  }

  lemma MapHas<T, U>(f: T -> U, s: seq<T>, x: T)
    requires x in s
    ensures f(x) in Map(f, s)
  {
    var i :| 0 <= i < |s| && s[i] == x;
    assert Map(f, s)[i] == f(x);
  }

  /** And every turn, proposal and execution is asked about. */
  lemma SpansAreAnswered(spans: seq<Span>, opts: Options, s: Span)
    requires s in spans
    ensures TurnLike(s) ==> ContinuityAnswer(opts, s) in AllAnswers(spans, opts) && CallsAnswer(s) in AllAnswers(spans, opts)
    ensures ProposalLike(s) ==> OriginAnswer(s) in AllAnswers(spans, opts)
    ensures ExecutionLike(s) ==>
      && ApprovalAnswer(ContextOf(spans, opts), s) in AllAnswers(spans, opts)
      && EffectsAnswer(ContextOf(spans, opts), s) in AllAnswers(spans, opts)
  {
    if TurnLike(s) {
      OfKind(spans, Turn, s);
      MapHas(Continuities(opts), Turns(spans), s);
      MapHas(CallsAnswer, Turns(spans), s);
    }
    if ProposalLike(s) {
      OfKind(spans, Proposal, s);
      MapHas(OriginAnswer, Proposals(spans), s);
    }
    if ExecutionLike(s) {
      OfKind(spans, Execution, s);
      EffectsReported(spans, opts, s);
      ApprovalReported(spans, opts, s);
    }
  }

  lemma ApprovalReported(spans: seq<Span>, opts: Options, e: Span)
    requires e in Executions(spans)
    ensures ApprovalAnswer(ContextOf(spans, opts), e) in AllAnswers(spans, opts)
  {
    var ctx := ContextOf(spans, opts);
    var x := ApprovalAnswer(ctx, e);
    assert x in ExecutionAnswers(ctx)(e);
    FlatMapHas(ExecutionAnswers(ctx), Executions(spans), x);
    assert x in OtherAnswers(spans, opts);
  }

  // ---- losses -------------------------------------------------------------------------------

  /** The attributes that the reader has a use for. */
  predicate Used(key: string) {
    || key == "conversation.id" || key == "turn.id" || key == "action.id" || key == "action.intent" || key == "tool.name"
    || key == "receipt.id" || key == "receipt.action_id" || key == "receipt.ticket_id" || key == "receipt.created_at"
    || key == "receipt.service" || key == "receipt.signature"
  }

  ghost predicate Unread(s: Span) {
    !ReceiptLike(s) && !ExecutionLike(s) && !ProposalLike(s) && !TurnLike(s)
  }

  lemma UnreadIs(s: Span)
    ensures Unread(s) <==> Classify(s).None?
  {
    KindsMean(s, Receipt);
    KindsMean(s, Execution);
    KindsMean(s, Proposal);
    KindsMean(s, Turn);
  }

  /** The span has a part that the reader cannot map. */
  ghost predicate LosesPart(s: Span, loss: Loss) {
    match loss
    case UnsupportedKind(name, at) => Unread(s) && name == s.name && at == s.locator
    case UnmappedAttribute(key, at) => s.Has(key) && !Used(key) && key != "evidence.externally_verified" && at == s.locator
    case _ => false
  }

  lemma AttrLossIs(s: Span, loss: Loss)
    ensures loss in FlatMap(AttrLoss(s.locator), s.attrs) <==> loss.UnmappedAttribute? && LosesPart(s, loss)
  {
    FlatMapHas(AttrLoss(s.locator), s.attrs, loss);
    if loss.UnmappedAttribute? && s.Has(loss.attribute) {
      var i :| 0 <= i < |s.attrs| && s.attrs[i].0 == loss.attribute;
      assert s.attrs[i] in s.attrs;
    }
  }

  lemma SpanLossIs(s: Span, loss: Loss)
    ensures loss in SpanLosses(s) <==> LosesPart(s, loss)
  {
    UnreadIs(s);
    AttrLossIs(s, loss);
    var kind: seq<Loss> := if Classify(s).None? then [UnsupportedKind(s.name, s.locator)] else [];
    assert loss in kind + FlatMap(AttrLoss(s.locator), s.attrs) <==> loss in kind || loss in FlatMap(AttrLoss(s.locator), s.attrs);
  }

  lemma MethodLossIs(opts: Options, r: Relationship, at: string, loss: Loss)
    ensures loss in MethodLoss(opts, r, at) <==>
      match loss
      case UnrecognizedMethod(q, value, place) =>
        q == r && place == at && r in opts.methodDefaults && value == opts.methodDefaults[r] && !Recognized(opts, r)
      case MethodAbsent(q, place) => q == r && place == at && r !in opts.methodDefaults
      case _ => false
  {
    RecognizedIs(opts, r);
  }

  /** What the report says was not mapped: spans it cannot read and attributes it has no use for. */
  lemma SpanLossesReported(spans: seq<Span>, opts: Options, loss: Loss)
    requires loss.UnsupportedKind? || loss.UnmappedAttribute?
    ensures loss in AllLosses(spans, opts) <==> exists s :: s in spans && LosesPart(s, loss)
  {
    LossParts(spans, opts, loss);
    forall s { SpanLossIs(s, loss); }
    forall at { MethodLossIs(opts, R1, at, loss); }
    forall at { MethodLossIs(opts, R5, at, loss); }
    forall at { MethodLossIs(opts, R6, at, loss); }
  }

  lemma LossParts(spans: seq<Span>, opts: Options, loss: Loss)
    ensures loss in AllLosses(spans, opts) <==>
      || (exists s :: s in spans && loss in SpanLosses(s))
      || (exists t :: t in Turns(spans) && loss in TurnLosses(opts)(t))
      || (exists e :: e in Executions(spans) && loss in ExecutionLosses(opts)(e))
  {
    FlatMapHas(SpanLosses, spans, loss);
    FlatMapHas(TurnLosses(opts), Turns(spans), loss);
    FlatMapHas(ExecutionLosses(opts), Executions(spans), loss);
  }

  /** Turns that name a conversation ask for R1, executions for R6, and for R5 where they name an action. */
  ghost predicate AsksAt(spans: seq<Span>, r: Relationship, at: string) {
    match r
    case R1 => exists t :: t in Turns(spans) && t.locator == at && t.Attr("conversation.id").Some?
    case R5 => exists e :: e in Executions(spans) && e.locator == at && e.Attr("action.id").Some?
    case R6 => exists e :: e in Executions(spans) && e.locator == at
  }

  predicate MethodLossOf(loss: Loss, r: Relationship, at: string) {
    (loss.UnrecognizedMethod? || loss.MethodAbsent?) && loss.relationship == r && loss.at == at
  }

  /** Where no recognized default is declared, every asking is a loss, and there are no others. */
  lemma MethodLossesReported(spans: seq<Span>, opts: Options, r: Relationship, at: string)
    ensures (exists loss :: loss in AllLosses(spans, opts) && MethodLossOf(loss, r, at)) <==> !Recognized(opts, r) && AsksAt(spans, r, at)
  {
    if loss :| loss in AllLosses(spans, opts) && MethodLossOf(loss, r, at) {
      MethodLossAsked(spans, opts, loss);
      MethodLossIs(opts, r, at, loss);
    }
    if !Recognized(opts, r) && AsksAt(spans, r, at) {
      var loss := if r in opts.methodDefaults then UnrecognizedMethod(r, opts.methodDefaults[r], at) else MethodAbsent(r, at);
      MethodLossIs(opts, r, at, loss);
      MethodLossAsked(spans, opts, loss);
      assert MethodLossOf(loss, r, at);
    }
  }

  /** A loss quotes the default that was declared, or says that none was. */
  lemma MethodLossQuotes(spans: seq<Span>, opts: Options, loss: Loss)
    requires loss in AllLosses(spans, opts)
    ensures loss.UnrecognizedMethod? ==> loss.relationship in opts.methodDefaults && loss.value == opts.methodDefaults[loss.relationship]
    ensures loss.MethodAbsent? ==> loss.relationship !in opts.methodDefaults
  {
    if loss.UnrecognizedMethod? || loss.MethodAbsent? {
      MethodLossAsked(spans, opts, loss);
      MethodLossIs(opts, loss.relationship, loss.at, loss);
    }
  }

  lemma MethodLossAsked(spans: seq<Span>, opts: Options, loss: Loss)
    requires loss.UnrecognizedMethod? || loss.MethodAbsent?
    ensures loss in AllLosses(spans, opts) <==> AsksAt(spans, loss.relationship, loss.at) && loss in MethodLoss(opts, loss.relationship, loss.at)
  {
    LossParts(spans, opts, loss);
    forall s ensures loss !in SpanLosses(s) { SpanLossIs(s, loss); }
    forall at ensures loss in MethodLoss(opts, R1, at) <==> loss.relationship == R1 && at == loss.at && loss in MethodLoss(opts, R1, loss.at) {
      MethodLossIs(opts, R1, at, loss);
      MethodLossIs(opts, R1, loss.at, loss);
    }
    forall at ensures loss in MethodLoss(opts, R5, at) <==> loss.relationship == R5 && at == loss.at && loss in MethodLoss(opts, R5, loss.at) {
      MethodLossIs(opts, R5, at, loss);
      MethodLossIs(opts, R5, loss.at, loss);
    }
    forall at ensures loss in MethodLoss(opts, R6, at) <==> loss.relationship == R6 && at == loss.at && loss in MethodLoss(opts, R6, loss.at) {
      MethodLossIs(opts, R6, at, loss);
      MethodLossIs(opts, R6, loss.at, loss);
    }
  }

  lemma ClaimIs(s: Span, key: string, at: string)
    ensures NotUsed(key, at) in SpanNotUsed(s) <==> key == "evidence.externally_verified" && s.locator == at && s.Has(key)
  {
    var claim := NotUsed(key, at);
    FlatMapHas(AttrNotUsed(s.locator), s.attrs, claim);
    if s.Has(key) {
      var i :| 0 <= i < |s.attrs| && s.attrs[i].0 == key;
      assert s.attrs[i] in s.attrs && AttrNotUsed(s.locator)(s.attrs[i]) == if ProducerClaim(key) then [NotUsed(key, s.locator)] else [];
    }
  }

  lemma NotUsedMembers(spans: seq<Span>, opts: Options, texts: Texts, claim: NotUsed)
    ensures claim in ReportOf(spans, opts, texts).notUsed <==> exists s :: s in spans && claim in SpanNotUsed(s)
  {
    var all := FlatMap(SpanNotUsed, spans);
    SortPermutes(texts.notUsed, TextLe, all);
    PermutationMembers(StableSort(texts.notUsed, TextLe, all), all);
    FlatMapHas(SpanNotUsed, spans, claim);
  }

  /** The producer's own claim of verification is listed and not used. */
  lemma ClaimsListed(spans: seq<Span>, opts: Options, texts: Texts, key: string, at: string)
    ensures NotUsed(key, at) in ReportOf(spans, opts, texts).notUsed <==>
      key == "evidence.externally_verified" && exists s :: s in spans && s.locator == at && s.Has(key)
  {
    NotUsedMembers(spans, opts, texts, NotUsed(key, at));
    forall s { ClaimIs(s, key, at); }
  }
}
