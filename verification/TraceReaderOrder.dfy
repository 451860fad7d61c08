/**
 The order in which spans arrive: what it never changes in a report, and exactly when the
 sorted list of answers depends on it.
 */
module TraceReaderOrder {
  import opened Prelude
  import opened Sorting
  import opened TraceReader

  lemma {:induction false} FlatMapSame<T, U>(f: T -> seq<U>, g: T -> seq<U>, s: seq<T>)
    requires forall x :: x in s ==> f(x) == g(x)
    ensures FlatMap(f, s) == FlatMap(g, s)
  {
    if s != [] {
      FlatMapSame(f, g, s[..|s| - 1]);
    }
  }

  /** Sorting by a faithful text forgets the order of arrival. */
  lemma SortForgets<T(!new)>(text: T -> string, a: seq<T>, b: seq<T>)
    requires Permutation(a, b)
    requires forall x, y :: text(x) == text(y) ==> x == y
    ensures StableSort(text, TextLe, a) == StableSort(text, TextLe, b)
  {
    TextOrder();
    SortSorts(text, TextLe, a);
    SortSorts(text, TextLe, b);
    SortPermutes(text, TextLe, a);
    SortPermutes(text, TextLe, b);
    SortedUnique(text, TextLe, StableSort(text, TextLe, a), StableSort(text, TextLe, b));
  }

  /** Different gaps have different names. */
  lemma GapNamesDiffer(g: Gap, h: Gap)
    requires GapName(g) == GapName(h)
    ensures g == h
  {
    assert |GapName(g)| == |GapName(h)|;
    if |GapName(g)| > 2 {
      assert GapName(g)[0] == GapName(h)[0] && GapName(g)[1] == GapName(h)[1];
    }
  }

  lemma SortedTextsForget(a: seq<string>, b: seq<string>)
    requires Permutation(a, b)
    ensures SortedTexts(a) == SortedTexts(b)
  {
    SortForgets(Itself, a, b);
  }

  lemma SortedGapsForget(a: seq<Gap>, b: seq<Gap>)
    requires Permutation(a, b)
    ensures SortedGaps(a) == SortedGaps(b)
  {
    forall g, h | GapName(g) == GapName(h) ensures g == h {
      GapNamesDiffer(g, h);
    }
    SortForgets(GapName, a, b);
  }

  lemma OutcomeOrderFree(c: seq<Span>, d: seq<Span>)
    requires Permutation(c, d) && c != []
    ensures d != [] && OutcomeOf(c) == OutcomeOf(d)
  {
    PermutationMembers(c, d);
    assert d[0] in c && c[0] in d;
    assert Agree(c) <==> Agree(d);
    assert Agree(c) ==> c[0].attrs == d[0].attrs;
  }

  lemma SummariesOrderFree(c: seq<Span>, d: seq<Span>)
    requires Permutation(c, d)
    ensures Summaries(c) == Summaries(d)
  {
    PermutationMembers(c, d);
    assert Keys(c) == Keys(d);
    forall k | k in Keys(c) ensures Summaries(c)[k] == Summaries(d)[k] {
      GroupsNonEmpty(c, k);
      FilterPermutation(InGroup(k), c, d);
      OutcomeOrderFree(Deliveries(c, k), Deliveries(d, k));
      PermutationMembers(Deliveries(c, k), Deliveries(d, k));
      MapPermutation(Locator, Deliveries(c, k), Deliveries(d, k));
      SortedTextsForget(Map(Locator, Deliveries(c, k)), Map(Locator, Deliveries(d, k)));
    }
  }

  ghost predicate SameButOrder(x: Context, y: Context) {
    x.(receipts := []) == y.(receipts := []) && Permutation(x.receipts, y.receipts)
  }

  /** Receipts in another order: the same groups, and the same gaps and evidence in another order. */
  lemma FoundOrderFree(c: seq<Span>, d: seq<Span>, at: string)
    requires Permutation(c, d)
    ensures SortedGaps(FoundGaps(c)) == SortedGaps(FoundGaps(d))
    ensures SortedTexts(FoundEvidence(c, at)) == SortedTexts(FoundEvidence(d, at))
  {
    SummariesOrderFree(c, d);
    FlatMapPermutation(IntakeGap, c, d);
    FlatMapPermutation(Ungrouped, c, d);
    var groups := Summaries(c);
    var tickets, seen := FlatMap(TicketGapAt(groups), InOrder(groups.Keys)), FlatMap(SeenAt(groups), InOrder(groups.Keys));
    var missing := if EffectState(groups) == StateUnknown then [EffectObservationMissing] else [];
    assert FoundGaps(c) == IntakeGaps(c) + tickets + missing && FoundGaps(d) == IntakeGaps(d) + tickets + missing;
    assert multiset(FoundGaps(c)) == multiset(FoundGaps(d));
    assert FoundEvidence(c, at) == [at] + FlatMap(Ungrouped, c) + seen && FoundEvidence(d, at) == [at] + FlatMap(Ungrouped, d) + seen;
    assert multiset(FoundEvidence(c, at)) == multiset(FoundEvidence(d, at));
    SortedGapsForget(FoundGaps(c), FoundGaps(d));
    SortedTextsForget(FoundEvidence(c, at), FoundEvidence(d, at));
  }

  lemma JoinedOrderFree(c: seq<Span>, d: seq<Span>, subject: Subject, r6: Option<string>, at: string)
    requires Permutation(c, d)
    ensures JoinedAnswer(c, subject, r6, at) == JoinedAnswer(d, subject, r6, at)
  {
    SummariesOrderFree(c, d);
    FoundOrderFree(c, d, at);
  }

  lemma PermutationLength<T>(a: seq<T>, b: seq<T>)
    requires Permutation(a, b)
    ensures |a| == |b|
  {
    assert |multiset(a)| == |multiset(b)|;
  }

  /** The order of receipts never changes what is said about an execution, list by list. */
  lemma EffectsOrderFree(x: Context, y: Context, e: Span)
    requires SameButOrder(x, y)
    ensures EffectsAnswer(x, e) == EffectsAnswer(y, e)
  {
    var c, d := Filter(IsCandidate(ActionId(e)), x.receipts), Filter(IsCandidate(ActionId(e)), y.receipts);
    FilterPermutation(IsCandidate(ActionId(e)), x.receipts, y.receipts);
    PermutationLength(c, d);
    JoinedOrderFree(c, d, ExecutionSubject(e.resourceService, ActionId(e)), MethodFor(x.opts, R6), e.locator);
    assert x.opts == y.opts && x.scopes == y.scopes;
  }

  lemma ContextOrderFree(a: seq<Span>, b: seq<Span>, opts: Options)
    requires Permutation(a, b)
    ensures SameButOrder(ContextOf(a, opts), ContextOf(b, opts))
  {
    FilterPermutation(IsKind(Proposal), a, b);
    FilterPermutation(IsKind(Execution), a, b);
    FilterPermutation(IsKind(Receipt), a, b);
    PermutationMembers(Proposals(a), Proposals(b));
    PermutationMembers(Executions(a), Executions(b));
  }

  lemma ExecutionAnswersPermute(a: seq<Span>, b: seq<Span>, opts: Options)
    requires Permutation(a, b)
    ensures Permutation(FlatMap(ExecutionAnswers(ContextOf(a, opts)), Executions(a)), FlatMap(ExecutionAnswers(ContextOf(b, opts)), Executions(b)))
  {
    var x, y := ContextOf(a, opts), ContextOf(b, opts);
    ContextOrderFree(a, b, opts);
    FilterPermutation(IsKind(Execution), a, b);
    FlatMapPermutation(ExecutionAnswers(x), Executions(a), Executions(b));
    forall e | e in Executions(b) ensures ExecutionAnswers(x)(e) == ExecutionAnswers(y)(e) {
      EffectsOrderFree(x, y, e);
    }
    FlatMapSame(ExecutionAnswers(x), ExecutionAnswers(y), Executions(b));
  }

  lemma AppendPermutes<T>(a: seq<T>, b: seq<T>, c: seq<T>, d: seq<T>)
    requires Permutation(a, b) && Permutation(c, d)
    ensures Permutation(a + c, b + d)
  {
  }

  lemma MappedKindPermutes<U>(f: Span -> U, p: Span -> bool, a: seq<Span>, b: seq<Span>)
    requires Permutation(a, b)
    ensures Permutation(Map(f, Filter(p, a)), Map(f, Filter(p, b)))
  {
    FilterPermutation(p, a, b);
    MapPermutation(f, Filter(p, a), Filter(p, b));
  }

  /** Every permutation of the spans gives the same answers, evidence included. */
  lemma AnswersPermute(a: seq<Span>, b: seq<Span>, opts: Options)
    requires Permutation(a, b)
    ensures Permutation(AllAnswers(a, opts), AllAnswers(b, opts))
  {
    var x, y := ContextOf(a, opts), ContextOf(b, opts);
    ContextOrderFree(a, b, opts);
    FilterPermutation(IsKind(Receipt), a, b);
    MappedKindPermutes(Continuities(opts), IsKind(Turn), a, b);
    MappedKindPermutes(CallsAnswer, IsKind(Turn), a, b);
    MappedKindPermutes(OriginAnswer, IsKind(Proposal), a, b);
    MappedKindPermutes(ReportAnswer, IsUncorrelated(x.actions), Receipts(a), Receipts(b));
    ExecutionAnswersPermute(a, b, opts);
    AppendPermutes(Map(CallsAnswer, Turns(a)), Map(CallsAnswer, Turns(b)), Map(OriginAnswer, Proposals(a)), Map(OriginAnswer, Proposals(b)));
    AppendPermutes(Map(CallsAnswer, Turns(a)) + Map(OriginAnswer, Proposals(a)), Map(CallsAnswer, Turns(b)) + Map(OriginAnswer, Proposals(b)),
                   FlatMap(ExecutionAnswers(x), Executions(a)), FlatMap(ExecutionAnswers(y), Executions(b)));
    AppendPermutes(Map(CallsAnswer, Turns(a)) + Map(OriginAnswer, Proposals(a)) + FlatMap(ExecutionAnswers(x), Executions(a)),
                   Map(CallsAnswer, Turns(b)) + Map(OriginAnswer, Proposals(b)) + FlatMap(ExecutionAnswers(y), Executions(b)),
                   Map(ReportAnswer, Filter(IsUncorrelated(x.actions), Receipts(a))), Map(ReportAnswer, Filter(IsUncorrelated(y.actions), Receipts(b))));
    AppendPermutes(Map(Continuities(opts), Turns(a)), Map(Continuities(opts), Turns(b)), OtherAnswers(a, opts), OtherAnswers(b, opts));
  }

  lemma LossesPermute(a: seq<Span>, b: seq<Span>, opts: Options)
    requires Permutation(a, b)
    ensures Permutation(AllLosses(a, opts), AllLosses(b, opts))
  {
    FilterPermutation(IsKind(Turn), a, b);
    FilterPermutation(IsKind(Execution), a, b);
    FlatMapPermutation(SpanLosses, a, b);
    FlatMapPermutation(TurnLosses(opts), Turns(a), Turns(b));
    FlatMapPermutation(ExecutionLosses(opts), Executions(a), Executions(b));
    AppendPermutes(FlatMap(SpanLosses, a), FlatMap(SpanLosses, b),
                   FlatMap(TurnLosses(opts), Turns(a)), FlatMap(TurnLosses(opts), Turns(b)));
    AppendPermutes(FlatMap(SpanLosses, a) + FlatMap(TurnLosses(opts), Turns(a)), FlatMap(SpanLosses, b) + FlatMap(TurnLosses(opts), Turns(b)),
                   FlatMap(ExecutionLosses(opts), Executions(a)), FlatMap(ExecutionLosses(opts), Executions(b)));
  }

  /** What no order of arrival changes: the answers as a whole, the losses and the attributes not used. */
  lemma ReportOrderFree(a: seq<Span>, b: seq<Span>, opts: Options, texts: Texts)
    requires Permutation(a, b) && Faithful(texts)
    ensures Permutation(ReportOf(a, opts, texts).answers, ReportOf(b, opts, texts).answers)
    ensures ReportOf(a, opts, texts).losses == ReportOf(b, opts, texts).losses
    ensures ReportOf(a, opts, texts).notUsed == ReportOf(b, opts, texts).notUsed
  {
    AnswersPermute(a, b, opts);
    SortPermutes(SortKey(texts), PairLe, AllAnswers(a, opts));
    SortPermutes(SortKey(texts), PairLe, AllAnswers(b, opts));
    LossesPermute(a, b, opts);
    SortForgets(texts.loss, AllLosses(a, opts), AllLosses(b, opts));
    FlatMapPermutation(SpanNotUsed, a, b);
    SortForgets(texts.notUsed, FlatMap(SpanNotUsed, a), FlatMap(SpanNotUsed, b));
  }

  // ---- the list of answers ------------------------------------------------------------------

  /** The answer without the places it was read from. */
  function Semantic(a: Answer): Answer {
    a.(evidence := [], conflicts := Map(WithoutPlaces, a.conflicts))
  }

  function WithoutPlaces(c: Conflict): Conflict {
    c.(at := [])
  }

  function SemanticAnswers(spans: seq<Span>, opts: Options, texts: Texts): seq<Answer> {
    Map(Semantic, ReportOf(spans, opts, texts).answers)
  }

  /** Two turns that share an id get the same answer about continuity. */
  predicate SameContinuity(opts: Options, t: Span, u: Span) {
    if MethodFor(opts, R1).Some? then ConversationId(t) == ConversationId(u) else ConversationId(t).Some? == ConversationId(u).Some?
  }

  predicate TurnsConsistent(spans: seq<Span>, opts: Options) {
    forall t, u :: t in Turns(spans) && u in Turns(spans) && TurnId(t) == TurnId(u) ==> SameContinuity(opts, t, u)
  }

  lemma ContinuityAgrees(opts: Options, t: Span, u: Span)
    requires TurnId(t) == TurnId(u)
    ensures Semantic(ContinuityAnswer(opts, t)) == Semantic(ContinuityAnswer(opts, u)) <==> SameContinuity(opts, t, u)
  {
  }

  /** The answer the reader gives about the record `s`. */
  predicate AnswerTo(ctx: Context, s: Span, x: Answer) {
    match x.query
    case Continuity => x == ContinuityAnswer(ctx.opts, s)
    case Calls => x == CallsAnswer(s)
    case ProposalOrigin => x == OriginAnswer(s)
    case ApprovalForExecution => x == ApprovalAnswer(ctx, s)
    case EffectsForExecution => x == EffectsAnswer(ctx, s)
    case UncorrelatedReport => x == ReportAnswer(s)
  }

  /** The record a later answer is about. */
  lemma MapMember<T, U>(f: T -> U, s: seq<T>, x: U) returns (y: T)
    requires x in Map(f, s)
    ensures y in s && f(y) == x
  {
    var i :| 0 <= i < |s| && Map(f, s)[i] == x;
    y := s[i];
  }

  /** The kind of record a query is about. */
  function AskedOf(q: Query): Kind {
    match q
    case Continuity => Turn
    case Calls => Turn
    case ProposalOrigin => Proposal
    case ApprovalForExecution => Execution
    case EffectsForExecution => Execution
    case UncorrelatedReport => Receipt
  }

  lemma ExecutionSource(ctx: Context, executions: seq<Span>, x: Answer) returns (s: Span)
    requires x in FlatMap(ExecutionAnswers(ctx), executions)
    ensures s in executions && AskedOf(x.query) == Execution && AnswerTo(ctx, s, x)
  {
    FlatMapHas(ExecutionAnswers(ctx), executions, x);
    s :| s in executions && x in ExecutionAnswers(ctx)(s);
  }

  lemma InOneOf<T>(x: T, a: seq<T>, b: seq<T>, c: seq<T>, d: seq<T>)
    requires x in a + b + c + d
    ensures x in a || x in b || x in c || x in d
  {
  }

  lemma OtherSource(spans: seq<Span>, opts: Options, x: Answer) returns (s: Span)
    requires x in OtherAnswers(spans, opts)
    ensures x.query != Continuity && AnswerTo(ContextOf(spans, opts), s, x)
    ensures s in Filter(IsKind(AskedOf(x.query)), spans)
    ensures x.query == UncorrelatedReport ==> IsUncorrelated(ContextOf(spans, opts).actions)(s)
  {
    var ctx := ContextOf(spans, opts);
    var calls, origins := Map(CallsAnswer, Turns(spans)), Map(OriginAnswer, Proposals(spans));
    var executed := FlatMap(ExecutionAnswers(ctx), Executions(spans));
    var reports := Map(ReportAnswer, Filter(IsUncorrelated(ctx.actions), Receipts(spans)));
    InOneOf(x, calls, origins, executed, reports);
    if x in calls {
      s := MapMember(CallsAnswer, Turns(spans), x);
    } else if x in origins {
      s := MapMember(OriginAnswer, Proposals(spans), x);
    } else if x in executed {
      s := ExecutionSource(ctx, Executions(spans), x);
    } else {
      s := MapMember(ReportAnswer, Filter(IsUncorrelated(ctx.actions), Receipts(spans)), x);
    }
  }

  lemma AnswerSource(spans: seq<Span>, opts: Options, x: Answer) returns (s: Span)
    requires x in AllAnswers(spans, opts)
    ensures AnswerTo(ContextOf(spans, opts), s, x)
    ensures s in Filter(IsKind(AskedOf(x.query)), spans)
    ensures x.query == UncorrelatedReport ==> IsUncorrelated(ContextOf(spans, opts).actions)(s)
  {
    if x in Map(Continuities(opts), Turns(spans)) {
      s := MapMember(Continuities(opts), Turns(spans), x);
    } else {
      s := OtherSource(spans, opts, x);
    }
  }

  /** Records the report names alike get the same answer, except turns that disagree about continuity. */
  lemma OneAnswerPerSubject(ctx: Context, s: Span, x: Answer, t: Span, y: Answer)
    requires AnswerTo(ctx, s, x) && AnswerTo(ctx, t, y)
    requires x.query == y.query && x.subject == y.subject
    requires x.query == Continuity ==> SameContinuity(ctx.opts, s, t)
    ensures Semantic(x) == Semantic(y)
  {
  }

  lemma KeysKept(texts: Texts)
    ensures forall x :: SortKey(texts)(Semantic(x)) == SortKey(texts)(x)
  {
  }

  lemma SortedList(spans: seq<Span>, opts: Options, texts: Texts)
    ensures SortedBy(SortKey(texts), PairLe, SemanticAnswers(spans, opts, texts))
    ensures Permutation(SemanticAnswers(spans, opts, texts), Map(Semantic, AllAnswers(spans, opts)))
  {
    var all := AllAnswers(spans, opts);
    PairOrder();
    SortSorts(SortKey(texts), PairLe, all);
    SortPermutes(SortKey(texts), PairLe, all);
    MapPermutation(Semantic, StableSort(SortKey(texts), PairLe, all), all);
    KeysKept(texts);
  }

  lemma SemanticPermutation(a: seq<Span>, b: seq<Span>, opts: Options, texts: Texts)
    requires Permutation(a, b)
    ensures Permutation(SemanticAnswers(a, opts, texts), SemanticAnswers(b, opts, texts))
  {
    AnswersPermute(a, b, opts);
    MapPermutation(Semantic, AllAnswers(a, opts), AllAnswers(b, opts));
    SortedList(a, opts, texts);
    SortedList(b, opts, texts);
  }

  lemma ConsistentList(a: seq<Span>, b: seq<Span>, opts: Options, texts: Texts)
    requires Permutation(a, b) && Faithful(texts) && TurnsConsistent(a, opts)
    ensures SemanticAnswers(a, opts, texts) == SemanticAnswers(b, opts, texts)
  {
    var s, t := SemanticAnswers(a, opts, texts), SemanticAnswers(b, opts, texts);
    SemanticPermutation(a, b, opts, texts);
    SortedList(a, opts, texts);
    SortedList(b, opts, texts);
    forall x, y | x in s && y in s && SortKey(texts)(x) == SortKey(texts)(y) ensures x == y {
      EqualKeysEqualAnswers(a, opts, texts, x, y);
    }
    SameSortedPairs(SortKey(texts), s, t);
  }

  lemma SameSortedPairs<T(!new)>(key: T -> (string, string), a: seq<T>, b: seq<T>)
    requires SortedBy(key, PairLe, a) && SortedBy(key, PairLe, b) && Permutation(a, b)
    requires forall x, y :: x in a && y in a && key(x) == key(y) ==> x == y
    ensures a == b
  {
    PairOrder();
    SortedUnique(key, PairLe, a, b);
  }

  lemma EqualKeysEqualAnswers(spans: seq<Span>, opts: Options, texts: Texts, x: Answer, y: Answer)
    requires Faithful(texts) && TurnsConsistent(spans, opts)
    requires x in SemanticAnswers(spans, opts, texts) && y in SemanticAnswers(spans, opts, texts)
    requires SortKey(texts)(x) == SortKey(texts)(y)
    ensures x == y
  {
    var x', s := SemanticSource(spans, opts, texts, x);
    var y', t := SemanticSource(spans, opts, texts, y);
    assert x'.query == y'.query && x'.subject == y'.subject;
    OneAnswerPerSubject(ContextOf(spans, opts), s, x', t, y');
  }

  lemma SemanticSource(spans: seq<Span>, opts: Options, texts: Texts, x: Answer) returns (full: Answer, s: Span)
    requires x in SemanticAnswers(spans, opts, texts)
    ensures x == Semantic(full) && AnswerTo(ContextOf(spans, opts), s, full)
    ensures full.query == Continuity ==> s in Turns(spans)
  {
    var answers := Map(Semantic, AllAnswers(spans, opts));
    SortedList(spans, opts, texts);
    PermutationMembers(SemanticAnswers(spans, opts, texts), answers);
    var i :| 0 <= i < |answers| && answers[i] == x;
    full := AllAnswers(spans, opts)[i];
    s := AnswerSource(spans, opts, full);
  }

  // Necessity: two turns that disagree are told apart by swapping them.

  lemma {:induction false} FilterMap<T(!new), U(!new)>(p: U -> bool, q: T -> bool, f: T -> U, s: seq<T>)
    requires forall x :: q(x) == p(f(x))
    ensures Filter(p, Map(f, s)) == Map(f, Filter(q, s))
  {
    if s != [] {
      var n := |s| - 1;
      FilterMap(p, q, f, s[..n]);
      assert Map(f, s)[..n] == Map(f, s[..n]);
    }
  }

  /** The images that satisfy `q` of the elements that satisfy `p`. */
  function Pick<T(!new), U(!new)>(p: T -> bool, f: T -> U, q: U -> bool, s: seq<T>): seq<U> {
    Filter(q, Map(f, Filter(p, s)))
  }

  lemma PickConcat<T(!new), U(!new)>(p: T -> bool, f: T -> U, q: U -> bool, a: seq<T>, b: seq<T>)
    ensures Pick(p, f, q, a + b) == Pick(p, f, q, a) + Pick(p, f, q, b)
  {
    FilterConcat(p, a, b);
    assert Map(f, Filter(p, a) + Filter(p, b)) == Map(f, Filter(p, a)) + Map(f, Filter(p, b));
    FilterConcat(q, Map(f, Filter(p, a)), Map(f, Filter(p, b)));
  }

  lemma FilterOne<T(!new)>(p: T -> bool, x: T)
    requires p(x)
    ensures Filter(p, [x]) == [x]
  {
    assert [x][..0] == [];
  }

  lemma PickOne<T(!new), U(!new)>(p: T -> bool, f: T -> U, q: U -> bool, x: T)
    requires p(x) && q(f(x))
    ensures Pick(p, f, q, [x]) == [f(x)]
  {
    FilterOne(p, x);
    assert Map(f, [x]) == [f(x)];
    FilterOne(q, f(x));
  }

  lemma PickAt<T(!new), U(!new)>(p: T -> bool, f: T -> U, q: U -> bool, before: seq<T>, x: T, after: seq<T>)
    requires p(x) && q(f(x))
    ensures |Pick(p, f, q, before)| < |Pick(p, f, q, before + [x] + after)|
    ensures Pick(p, f, q, before + [x] + after)[|Pick(p, f, q, before)|] == f(x)
  {
    PickConcat(p, f, q, before + [x], after);
    PickConcat(p, f, q, before, [x]);
    PickOne(p, f, q, x);
  }

  lemma SwapPicked<T(!new), U(!new)>(p: T -> bool, f: T -> U, q: U -> bool, a: seq<T>, x: T, m: seq<T>, y: T, z: seq<T>)
    requires p(x) && p(y) && q(f(x)) && q(f(y)) && f(x) != f(y)
    ensures Pick(p, f, q, a + [x] + m + [y] + z) != Pick(p, f, q, a + [y] + m + [x] + z)
  {
    assert a + [x] + m + [y] + z == a + [x] + (m + [y] + z);
    assert a + [y] + m + [x] + z == a + [y] + (m + [x] + z);
    PickAt(p, f, q, a, x, m + [y] + z);
    PickAt(p, f, q, a, y, m + [x] + z);
  }

  /** Sorting leaves what has one key as it was, also after a map that keeps keys. */
  lemma SortedShows<T(!new), K(!new)>(key: T -> K, le: (K, K) -> bool, f: T -> T, s: seq<T>, k: K)
    requires TotalOrder(le) && forall x :: key(f(x)) == key(x)
    ensures Filter(HasKey(key, k), Map(f, StableSort(key, le, s))) == Filter(HasKey(key, k), Map(f, s))
  {
    var p := HasKey(key, k);
    FilterMap(p, p, f, StableSort(key, le, s));
    FilterMap(p, p, f, s);
    SortStable(key, le, s, k);
  }

  lemma FilterNone<T(!new)>(p: T -> bool, s: seq<T>)
    requires forall i :: 0 <= i < |s| ==> !p(s[i])
    ensures Filter(p, s) == []
  {
  }

  lemma KeptFromFirst<T(!new)>(p: T -> bool, f: T -> T, first: seq<T>, others: seq<T>)
    requires forall i :: 0 <= i < |others| ==> !p(f(others[i]))
    ensures Filter(p, Map(f, first + others)) == Filter(p, Map(f, first))
  {
    assert Map(f, first + others) == Map(f, first) + Map(f, others);
    FilterConcat(p, Map(f, first), Map(f, others));
    FilterNone(p, Map(f, others));
  }

  function ToldContinuity(opts: Options): Span -> Answer {
    t => Semantic(ContinuityAnswer(opts, t))
  }

  function ContinuityKey(texts: Texts, turn: Option<string>): (string, string) {
    (texts.query(Continuity), texts.subject(TurnSubject(turn)))
  }

  /** What the list says about the continuity of a turn is in arrival order. */
  lemma ListTells(spans: seq<Span>, opts: Options, texts: Texts, turn: Option<string>)
    requires Faithful(texts)
    ensures var p := HasKey(SortKey(texts), ContinuityKey(texts, turn));
            Filter(p, SemanticAnswers(spans, opts, texts)) == Pick(IsKind(Turn), ToldContinuity(opts), p, spans)
  {
    var key, k := SortKey(texts), ContinuityKey(texts, turn);
    var p := HasKey(key, k);
    var first, others := Map(Continuities(opts), Turns(spans)), OtherAnswers(spans, opts);
    PairOrder();
    KeysKept(texts);
    SortedShows(key, PairLe, Semantic, AllAnswers(spans, opts), k);
    forall i | 0 <= i < |others| ensures !p(Semantic(others[i])) {
      var s := OtherSource(spans, opts, others[i]);
    }
    KeptFromFirst(p, Semantic, first, others);
    assert Map(Semantic, first) == Map(ToldContinuity(opts), Turns(spans));
  }

  /** Swapping two turns that share an id but disagree about continuity changes the list of answers. */
  lemma SwapShows(p: seq<Span>, t: Span, m: seq<Span>, u: Span, q: seq<Span>, opts: Options, texts: Texts)
    requires Faithful(texts) && IsKind(Turn)(t) && IsKind(Turn)(u) && TurnId(t) == TurnId(u) && !SameContinuity(opts, t, u)
    ensures Permutation(p + [t] + m + [u] + q, p + [u] + m + [t] + q)
    ensures SemanticAnswers(p + [t] + m + [u] + q, opts, texts) != SemanticAnswers(p + [u] + m + [t] + q, opts, texts)
  {
    var a, b := p + [t] + m + [u] + q, p + [u] + m + [t] + q;
    var has := HasKey(SortKey(texts), ContinuityKey(texts, TurnId(t)));
    assert multiset(a) == multiset(b);
    ListTells(a, opts, texts, TurnId(t));
    ListTells(b, opts, texts, TurnId(t));
    assert ToldContinuity(opts)(t) != ToldContinuity(opts)(u) by {
      ContinuityAgrees(opts, t, u);
    }
    SwapPicked(IsKind(Turn), ToldContinuity(opts), has, p, t, m, u, q);
  }

  /**
   Every order of arrival gives the same list of answers exactly when turns that share an id
   also agree about continuity.
   */
  lemma AnswerListOrderFree(spans: seq<Span>, opts: Options, texts: Texts)
    requires Faithful(texts)
    ensures TurnsConsistent(spans, opts)
            <==> forall b :: Permutation(spans, b) ==> SemanticAnswers(spans, opts, texts) == SemanticAnswers(b, opts, texts)
  {
    if TurnsConsistent(spans, opts) {
      forall b | Permutation(spans, b) ensures SemanticAnswers(spans, opts, texts) == SemanticAnswers(b, opts, texts) {
        ConsistentList(spans, b, opts, texts);
      }
    } else {
      var i, j := Disagreement(spans, opts);
      var b := SwapAt(spans, opts, texts, i, j);
    }
  }

  lemma Disagreement(spans: seq<Span>, opts: Options) returns (i: nat, j: nat)
    requires !TurnsConsistent(spans, opts)
    ensures i < j < |spans| && IsKind(Turn)(spans[i]) && IsKind(Turn)(spans[j])
    ensures TurnId(spans[i]) == TurnId(spans[j]) && !SameContinuity(opts, spans[i], spans[j])
  {
    var t, u :| t in Turns(spans) && u in Turns(spans) && TurnId(t) == TurnId(u) && !SameContinuity(opts, t, u);
    i, j := TwoPositions(spans, t, u);
  }

  lemma TwoPositions<T>(s: seq<T>, x: T, y: T) returns (i: nat, j: nat)
    requires x in s && y in s && x != y
    ensures i < j < |s| && ((s[i] == x && s[j] == y) || (s[i] == y && s[j] == x))
  {
    i :| 0 <= i < |s| && s[i] == x;
    j :| 0 <= j < |s| && s[j] == y;
    if j < i {
      i, j := j, i;
    }
  }

  lemma SwapAt(spans: seq<Span>, opts: Options, texts: Texts, i: nat, j: nat) returns (b: seq<Span>)
    requires Faithful(texts) && i < j < |spans|
    requires IsKind(Turn)(spans[i]) && IsKind(Turn)(spans[j])
    requires TurnId(spans[i]) == TurnId(spans[j]) && !SameContinuity(opts, spans[i], spans[j])
    ensures Permutation(spans, b) && SemanticAnswers(spans, opts, texts) != SemanticAnswers(b, opts, texts)
  {
    var before, t, m, u, after := spans[..i], spans[i], spans[i + 1..j], spans[j], spans[j + 1..];
    b := before + [u] + m + [t] + after;
    assert spans == before + [t] + m + [u] + after;
    SwapShows(before, t, m, u, after, opts, texts);
  }
}
