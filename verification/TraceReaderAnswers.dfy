/** What every answer in a report means, and that nothing read goes unmentioned. */
module TraceReaderAnswers {
  import opened Prelude
  import opened Sorting
  import opened TraceReader
  import opened TraceReaderOrder
  import TraceReaderEffects

  // ---- sorted lists without repetitions -----------------------------------------------------

  lemma {:induction false} DedupKeeps<T(!new)>(s: seq<T>)
    ensures forall x :: x in Dedup(s) <==> x in s
  {
    if |s| > 1 {
      var n := |s| - 1;
      DedupKeeps(s[..n]);
      assert s == s[..n] + [s[n]];
      assert s[n - 1] == s[..n][n - 1];
    }
  }

  /** In a sorted sequence whose keys tell elements apart, removing equal neighbours removes every repetition. */
  lemma {:induction false} DedupOfSorted<T(!new)>(text: T -> string, s: seq<T>)
    requires SortedBy(text, TextLe, s) && forall x, y :: text(x) == text(y) ==> x == y
    ensures Distinct(Dedup(s))
  {
    if |s| > 1 {
      var n := |s| - 1;
      DedupOfSorted(text, s[..n]);
      if s[n] != s[n - 1] {
        DedupKeeps(s[..n]);
        forall i | 0 <= i < |Dedup(s[..n])| ensures Dedup(s[..n])[i] != s[n] {
          assert Dedup(s[..n])[i] in s[..n];
          if s[n] in s[..n] {
            var j :| 0 <= j < n && s[j] == s[n];
            NoReturn(text, s, j);
          }
        }
      }
    }
  }

  lemma NoReturn<T(!new)>(text: T -> string, s: seq<T>, j: nat)
    requires |s| > 1 && j < |s| - 1 && s[j] == s[|s| - 1]
    requires SortedBy(text, TextLe, s) && forall x, y :: text(x) == text(y) ==> x == y
    ensures s[|s| - 2] == s[|s| - 1]
  {
    var n := |s| - 1;
    TextTotal(text(s[n - 1]), text(s[n]));
    if j < n - 1 {
      assert TextLe(text(s[j]), text(s[n - 1])) && TextLe(text(s[n - 1]), text(s[n]));
    }
  }

  /** `sort` and `dedup` list exactly what there is, each once. */
  lemma SortedDedup<T(!new)>(text: T -> string, s: seq<T>)
    requires forall x, y :: text(x) == text(y) ==> x == y
    ensures Distinct(Dedup(StableSort(text, TextLe, s)))
    ensures forall x :: x in Dedup(StableSort(text, TextLe, s)) <==> x in s
  {
    var sorted := StableSort(text, TextLe, s);
    TextOrder();
    SortSorts(text, TextLe, s);
    SortPermutes(text, TextLe, s);
    PermutationMembers(sorted, s);
    DedupKeeps(sorted);
    DedupOfSorted(text, sorted);
  }

  lemma GapsMean(gaps: seq<Gap>)
    ensures Distinct(SortedGaps(gaps)) && forall g :: g in SortedGaps(gaps) <==> g in gaps
  {
    forall g, h | GapName(g) == GapName(h) ensures g == h {
      GapNamesDiffer(g, h);
    }
    SortedDedup(GapName, gaps);
  }

  // ---- answers ------------------------------------------------------------------------------

  /** The relationship an answer needs a method for before it may say `established`. */
  function Needs(q: Query): Option<Relationship> {
    match q
    case Continuity => Some(R1)
    case EffectsForExecution => Some(R6)
    case _ => None
  }

  /** Established needs a method, a conflict is listed, and what is unknown names a gap. */
  predicate Explained(opts: Options, x: Answer) {
    && (x.state == StateEstablished ==> Needs(x.query).Some? && MethodFor(opts, Needs(x.query).value).Some?)
    && (x.state == StateConflict <==> x.conflicts != [])
    && (x.state == StateUnknown ==> x.gaps != [])
  }

  lemma JoinedMeans(candidates: seq<Span>, subject: Subject, r6: Option<string>, at: string)
    ensures var x := JoinedAnswer(candidates, subject, r6, at);
            (x.state == StateConflict <==> x.conflicts != []) && (x.state == StateUnknown ==> EffectObservationMissing in x.gaps)
  {
    GapsMean(FoundGaps(candidates));
  }

  lemma JoinedExplained(opts: Options, x: Answer)
    requires x.query == EffectsForExecution && MethodFor(opts, R6).Some?
    requires (x.state == StateConflict <==> x.conflicts != []) && (x.state == StateUnknown ==> EffectObservationMissing in x.gaps)
    ensures Explained(opts, x)
  {
  }

  lemma EffectsMean(ctx: Context, e: Span)
    ensures Explained(ctx.opts, EffectsAnswer(ctx, e))
  {
    var action := ActionId(e);
    var candidates := Filter(IsCandidate(action), ctx.receipts);
    var subject, r6, x := ExecutionSubject(e.resourceService, action), MethodFor(ctx.opts, R6), EffectsAnswer(ctx, e);
    if r6.None? {
      assert R6NotEstablished in x.gaps;
    } else if |ctx.scopes| != 1 {
      assert IdentityScopeUnresolved in x.gaps;
    } else {
      JoinedMeans(candidates, subject, r6, e.locator);
      assert x == JoinedAnswer(candidates, subject, r6, e.locator);
      JoinedExplained(ctx.opts, x);
    }
  }

  /** Every answer of every report is explained. */
  lemma AnswersMean(spans: seq<Span>, opts: Options, x: Answer)
    requires x in AllAnswers(spans, opts)
    ensures Explained(opts, x)
  {
    var ctx := ContextOf(spans, opts);
    var s := AnswerSource(spans, opts, x);
    if x.query == EffectsForExecution {
      EffectsMean(ctx, s);
    } else {
      OthersMean(ctx, s, x);
    }
  }

  lemma OthersMean(ctx: Context, s: Span, x: Answer)
    requires AnswerTo(ctx, s, x) && x.query != EffectsForExecution
    ensures Explained(ctx.opts, x)
  {
  }

  // ---- receipts -----------------------------------------------------------------------------

  /** Some answer is about this receipt: one reports it, or one about an execution with its action counts it in. */
  ghost predicate Mentioned(spans: seq<Span>, opts: Options, r: Span) {
    || ReportAnswer(r) in AllAnswers(spans, opts)
    || exists e :: e in Executions(spans) && IsCandidate(ActionId(e))(r) && EffectsAnswer(ContextOf(spans, opts), e) in AllAnswers(spans, opts)
  }

  /** No receipt goes unmentioned. */
  lemma NoReceiptIsLost(spans: seq<Span>, opts: Options, r: Span)
    requires r in Receipts(spans)
    ensures Mentioned(spans, opts, r)
  {
    var actions := ContextOf(spans, opts).actions;
    if IsUncorrelated(actions)(r) {
      UncorrelatedReported(spans, opts, r);
    } else {
      var e :| e in Executions(spans) && ActionId(e) == ReceiptAction(r);
      TraceReaderEffects.EffectsReported(spans, opts, e);
    }
  }

  lemma UncorrelatedReported(spans: seq<Span>, opts: Options, r: Span)
    requires r in Receipts(spans) && IsUncorrelated(ContextOf(spans, opts).actions)(r)
    ensures ReportAnswer(r) in AllAnswers(spans, opts)
  {
    var reported := Filter(IsUncorrelated(ContextOf(spans, opts).actions), Receipts(spans));
    assert r in reported;
    var i :| 0 <= i < |reported| && reported[i] == r;
    assert Map(ReportAnswer, reported)[i] == ReportAnswer(r);
    assert ReportAnswer(r) in OtherAnswers(spans, opts);
  }

  ghost predicate ReadAt(receipts: seq<Span>, at: string) {
    exists r :: r in receipts && r.locator == at
  }

  /** Once receipts may be joined, the evidence lists the execution and its candidates, each place once. */
  lemma CandidatesAreEvidence(spans: seq<Span>, opts: Options, e: Span)
    requires MethodFor(opts, R6).Some? && |Scopes(Executions(spans))| == 1 && e in Executions(spans)
    ensures var evidence := EffectsAnswer(ContextOf(spans, opts), e).evidence;
            && Distinct(evidence)
            && forall at :: at in evidence <==> at == e.locator || ReadAt(Filter(IsCandidate(ActionId(e)), Receipts(spans)), at)
  {
    var candidates := Filter(IsCandidate(ActionId(e)), Receipts(spans));
    EvidenceMeans(candidates, e.locator);
    assert EffectsAnswer(ContextOf(spans, opts), e)
        == JoinedAnswer(candidates, ExecutionSubject(e.resourceService, ActionId(e)), MethodFor(opts, R6), e.locator);
  }

  lemma EvidenceMeans(candidates: seq<Span>, start: string)
    ensures var evidence := Dedup(SortedTexts(FoundEvidence(candidates, start)));
            Distinct(evidence) && forall at :: at in evidence <==> at == start || ReadAt(candidates, at)
  {
    SortedDedup(Itself, FoundEvidence(candidates, start));
    forall at ensures at in FoundEvidence(candidates, start) <==> at == start || ReadAt(candidates, at) {
      FoundEvidenceMeans(candidates, start, at);
    }
  }

  lemma FoundEvidenceMeans(candidates: seq<Span>, start: string, at: string)
    ensures at in FoundEvidence(candidates, start) <==> at == start || ReadAt(candidates, at)
  {
    var groups := Summaries(candidates);
    var alone, grouped := FlatMap(Ungrouped, candidates), FlatMap(SeenAt(groups), InOrder(groups.Keys));
    assert at in [start] + alone + grouped <==> at == start || at in alone || at in grouped;
    UngroupedMean(candidates, at);
    GroupedMean(candidates, at);
  }

  lemma UngroupedMean(candidates: seq<Span>, at: string)
    ensures at in FlatMap(Ungrouped, candidates) <==> exists r :: r in candidates && KeyOf(r).None? && r.locator == at
  {
    FlatMapHas(Ungrouped, candidates, at);
    if r :| r in candidates && KeyOf(r).None? && r.locator == at {
      assert at in Ungrouped(r);
    }
  }

  lemma GroupedMean(candidates: seq<Span>, at: string)
    ensures var groups := Summaries(candidates);
            at in FlatMap(SeenAt(groups), InOrder(groups.Keys)) <==> exists r :: r in candidates && KeyOf(r).Some? && r.locator == at
  {
    var groups := Summaries(candidates);
    var order := InOrder(groups.Keys);
    FlatMapHas(SeenAt(groups), order, at);
    if k :| k in order && at in SeenAt(groups)(k) {
      GroupPlaces(candidates, k, at);
    }
    if r :| r in candidates && KeyOf(r).Some? && r.locator == at {
      GroupPlaces(candidates, KeyOf(r).value, at);
      assert KeyOf(r).value in order;
    }
  }

  lemma GroupPlaces(candidates: seq<Span>, k: Key, at: string)
    requires k in Keys(candidates)
    ensures at in SeenAt(Summaries(candidates))(k) <==> exists r :: r in candidates && KeyOf(r) == Some(k) && r.locator == at
  {
    var deliveries := Deliveries(candidates, k);
    var places := Map(Locator, deliveries);
    GroupsNonEmpty(candidates, k);
    SortPermutes(Itself, TextLe, places);
    PermutationMembers(SortedTexts(places), places);
    if r :| r in candidates && KeyOf(r) == Some(k) && r.locator == at {
      assert InGroup(k)(r) && r in deliveries;
      var i :| 0 <= i < |deliveries| && deliveries[i] == r;
      assert places[i] == at;
    }
    if at in places {
      var r := MapMember(Locator, deliveries, at);
      assert InGroup(k)(r);
    }
  }

  // ---- losses -------------------------------------------------------------------------------

  /** The report lists every loss exactly once. */
  lemma LossesListedOnce(spans: seq<Span>, opts: Options, texts: Texts)
    requires Faithful(texts)
    ensures Distinct(ReportOf(spans, opts, texts).losses)
    ensures forall loss :: loss in ReportOf(spans, opts, texts).losses <==> loss in AllLosses(spans, opts)
  {
    SortedDedup(texts.loss, AllLosses(spans, opts));
  }

  /** The records a relationship is asked about. */
  predicate Asks(relationship: Relationship, spans: seq<Span>, s: Span) {
    match relationship
    case R1 => s in Turns(spans) && ConversationId(s).Some?
    case R5 => s in Executions(spans) && ActionId(s).Some?
    case R6 => s in Executions(spans)
  }

  /** What the reader then refuses to say. */
  predicate NotEstablished(relationship: Relationship, ctx: Context, s: Span) {
    match relationship
    case R1 => ContinuityAnswer(ctx.opts, s).state == StateUnknown && ContinuityAnswer(ctx.opts, s).observed == ObservedContinuity(None, None)
    case R5 => ApprovalAnswer(ctx, s).observed == ObservedApproval(None)
    case R6 => EffectsAnswer(ctx, s).state == StateUnknown && EffectsAnswer(ctx, s).observed.effects == []
  }

  /** A default that names no known method is never a fallback: every record that asks for it is a loss. */
  lemma UnusableDefaultIsReported(spans: seq<Span>, opts: Options, texts: Texts, relationship: Relationship, s: Span)
    requires Faithful(texts) && Asks(relationship, spans, s) && MethodFor(opts, relationship).None?
    ensures (if relationship in opts.methodDefaults then UnrecognizedMethod(relationship, opts.methodDefaults[relationship], s.locator)
             else MethodAbsent(relationship, s.locator)) in ReportOf(spans, opts, texts).losses
    ensures NotEstablished(relationship, ContextOf(spans, opts), s)
  {
    LossesListedOnce(spans, opts, texts);
    var loss := MethodLoss(opts, relationship, s.locator)[0];
    assert loss in MethodLoss(opts, relationship, s.locator);
    match relationship
    case R1 =>
      assert loss in TurnLosses(opts)(s);
      FlatMapHas(TurnLosses(opts), Turns(spans), loss);
    case _ =>
      assert loss in ExecutionLosses(opts)(s);
      FlatMapHas(ExecutionLosses(opts), Executions(spans), loss);
  }
}
