/** What more receipts do to what the reader says about an execution, and where each receipt goes. */
module TraceReaderEffects {
  import opened FiniteSums
  import opened Prelude
  import opened Sorting
  import opened TraceReader
  import opened TraceReaderOrder

  function Rank(s: State): nat {
    match s
    case StateUnknown => 0
    case StateEstablished => 1
    case StateConflict => 2
  }

  /** `d` holds a copy of every receipt of `c`, whatever places the copies were read from. */
  ghost predicate Covers(c: seq<Span>, d: seq<Span>) {
    forall r :: r in c ==> Copied(r, d)
  }

  ghost predicate Copied(r: Span, d: seq<Span>) {
    exists at :: r.(locator := at) in d
  }

  /** What the deliveries of one receipt show can only turn into a disagreement. */
  lemma OutcomeGrows(c: seq<Span>, d: seq<Span>, k: Key)
    requires Covers(c, d) && k in Keys(c)
    ensures k in Keys(d)
    ensures Summaries(d)[k].outcome == Summaries(c)[k].outcome || Summaries(d)[k].outcome == Disagreement
  {
    GroupsNonEmpty(c, k);
    GroupsNonEmpty(d, k);
    var few, many := Deliveries(c, k), Deliveries(d, k);
    forall r | r in few ensures exists r' :: r' in many && r'.attrs == r.attrs {
      assert InGroup(k)(r) && Copied(r, d);
      var at :| r.(locator := at) in d;
      var r' := r.(locator := at);
      SameKey(r, at);
      assert InGroup(k)(r') && r' in many;
    }
    assert few[0] in few && many[0] in many;
    assert Agree(many) ==> Agree(few);
    assert Agree(many) ==> few[0].attrs == many[0].attrs;
  }

  lemma SameKey(r: Span, at: string)
    ensures KeyOf(r.(locator := at)) == KeyOf(r) && ReceiptAction(r.(locator := at)) == ReceiptAction(r)
  {
  }

  /** Every receipt is still there, and shows what it showed or a disagreement. */
  ghost predicate Grown(s: map<Key, Summary>, t: map<Key, Summary>) {
    forall k :: k in s ==> k in t && (t[k].outcome == s[k].outcome || t[k].outcome == Disagreement)
  }

  lemma SummariesGrow(c: seq<Span>, d: seq<Span>)
    requires Covers(c, d)
    ensures Grown(Summaries(c), Summaries(d))
  {
    var s, t := Summaries(c), Summaries(d);
    forall k | k in s ensures k in t && (t[k].outcome == s[k].outcome || t[k].outcome == Disagreement) {
      OutcomeGrows(c, d, k);
    }
  }

  // What the lists say about the groups.

  lemma {:induction false} FlatMapEmpty<T, U>(f: T -> seq<U>, s: seq<T>)
    ensures FlatMap(f, s) == [] <==> forall x :: x in s ==> f(x) == []
  {
    if s != [] {
      FlatMapEmpty(f, s[..|s| - 1]);
      assert forall x :: x in s <==> x in s[..|s| - 1] || x == s[|s| - 1];
    }
  }

  lemma {:induction false} BucketedMeans<V>(items: seq<(Key, V)>)
    ensures forall k, v :: (k, v) in items <==> k in Bucketed(items) && v in Bucketed(items)[k]
    ensures forall k :: k in Bucketed(items) ==> Bucketed(items)[k] != []
  {
    if items != [] {
      BucketedMeans(items[..|items| - 1]);
      assert forall item :: item in items <==> item in items[..|items| - 1] || item == items[|items| - 1];
    }
  }

  /** A conflict is listed for exactly the receipts whose deliveries disagree. */
  lemma ConflictsMean(groups: Groups)
    ensures Conflicts(groups) != [] <==> exists k :: k in groups && groups[k].outcome.Disagreement?
    ensures forall k :: (exists c :: c in Conflicts(groups) && (c.scope, c.receipt) == k) <==> k in groups && groups[k].outcome.Disagreement?
  {
    var order := InOrder(groups.Keys);
    FlatMapEmpty(ConflictAt(groups), order);
    forall k ensures (exists c :: c in Conflicts(groups) && (c.scope, c.receipt) == k) <==> k in groups && groups[k].outcome.Disagreement? {
      if c :| c in Conflicts(groups) && (c.scope, c.receipt) == k {
        FlatMapHas(ConflictAt(groups), order, c);
      }
      if k in groups && groups[k].outcome.Disagreement? {
        var c := Conflict(k.1, k.0, groups[k].at);
        FlatMapHas(ConflictAt(groups), order, c);
        assert c in ConflictAt(groups)(k) && (c.scope, c.receipt) == k;
      }
    }
  }

  /** An effect lists a receipt exactly when the receipt's deliveries agree on its ticket. */
  ghost predicate Lists(effects: seq<Correlated>, scope: string, ticket: string, d: Delivered) {
    exists c :: c in effects && c.scope == scope && c.ticket == ticket && d in c.receipts
  }

  /** The list of effects, place by place. */
  lemma CorrelateAt(items: seq<(Key, Delivered)>, i: nat)
    requires i < |InOrder(Bucketed(items).Keys)|
    ensures |Correlate(items)| == |InOrder(Bucketed(items).Keys)|
    ensures Correlate(items)[i] == Listing(Bucketed(items))(InOrder(Bucketed(items).Keys)[i])
  {
  }

  lemma CorrelateLists(items: seq<(Key, Delivered)>, k: Key, d: Delivered)
    requires k in Bucketed(items) && d in Bucketed(items)[k]
    ensures Lists(Correlate(items), k.0, k.1, d)
  {
    var order := InOrder(Bucketed(items).Keys);
    assert k in order;
    var i :| 0 <= i < |order| && order[i] == k;
    CorrelateAt(items, i);
    assert Correlate(items)[i] in Correlate(items);
  }

  lemma ListedCorrelate(items: seq<(Key, Delivered)>, k: Key, d: Delivered)
    requires Lists(Correlate(items), k.0, k.1, d)
    ensures k in Bucketed(items) && d in Bucketed(items)[k]
  {
    var order := InOrder(Bucketed(items).Keys);
    var c :| c in Correlate(items) && c.scope == k.0 && c.ticket == k.1 && d in c.receipts;
    var i :| 0 <= i < |Correlate(items)| && Correlate(items)[i] == c;
    assert |Correlate(items)| == |order|;
    CorrelateAt(items, i);
    assert order[i] in order && order[i] == k;
  }

  lemma CorrelateMeans(items: seq<(Key, Delivered)>, scope: string, ticket: string, d: Delivered)
    ensures Lists(Correlate(items), scope, ticket, d) <==> ((scope, ticket), d) in items
    ensures Correlate(items) == [] <==> items == []
  {
    BucketedMeans(items);
    var k := (scope, ticket);
    if Lists(Correlate(items), scope, ticket, d) {
      ListedCorrelate(items, k, d);
    }
    if (k, d) in items {
      CorrelateLists(items, k, d);
    }
    if items != [] {
      assert (items[0].0, items[0].1) in items;
      assert items[0].0 in InOrder(Bucketed(items).Keys);
    }
  }

  lemma EffectsMean(groups: Groups, scope: string, ticket: string, d: Delivered)
    ensures Lists(Effects(groups), scope, ticket, d) <==>
      (scope, d.receipt) in groups && groups[(scope, d.receipt)].outcome == Effect(ticket) && groups[(scope, d.receipt)].deliveries == d.deliveries
    ensures Effects(groups) == [] <==> forall k :: k in groups ==> !groups[k].outcome.Effect?
  {
    var order := InOrder(groups.Keys);
    var items := FlatMap(EffectAt(groups), order);
    CorrelateMeans(items, scope, ticket, d);
    FlatMapEmpty(EffectAt(groups), order);
    FlatMapHas(EffectAt(groups), order, ((scope, ticket), d));
    var k := (scope, d.receipt);
    if k in groups && groups[k].outcome == Effect(ticket) && groups[k].deliveries == d.deliveries {
      assert ((scope, ticket), d) in EffectAt(groups)(k);
    }
  }

  lemma StateGrows(s: Groups, t: Groups)
    requires Grown(s, t)
    ensures Rank(EffectState(s)) <= Rank(EffectState(t))
  {
    StateMeans(s);
    StateMeans(t);
  }

  lemma StateMeans(groups: Groups)
    ensures EffectState(groups) == StateConflict <==> exists k :: k in groups && groups[k].outcome.Disagreement?
    ensures EffectState(groups) == StateUnknown <==> forall k :: k in groups ==> groups[k].outcome.NoTicket?
  {
    ConflictsMean(groups);
    EffectsMean(groups, "", "", Delivered("", 0));
  }

  lemma CandidatesCovered(action: Option<string>, c: seq<Span>, d: seq<Span>)
    requires Covers(c, d)
    ensures Covers(Filter(IsCandidate(action), c), Filter(IsCandidate(action), d))
  {
    forall r | r in Filter(IsCandidate(action), c) ensures Copied(r, Filter(IsCandidate(action), d)) {
      assert Copied(r, d);
      var at :| r.(locator := at) in d;
      SameKey(r, at);
      assert IsCandidate(action)(r.(locator := at));
    }
  }

  /** More receipts never take the state back in unknown < established < conflict. */
  lemma MoreReceiptsNeverLower(ctx: Context, more: seq<Span>, e: Span)
    requires MethodFor(ctx.opts, R6).Some? && |ctx.scopes| == 1
    requires Covers(ctx.receipts, more)
    ensures Rank(EffectsAnswer(ctx, e).state) <= Rank(EffectsAnswer(ctx.(receipts := more), e).state)
  {
    CandidatesCovered(ActionId(e), ctx.receipts, more);
    var c, d := Filter(IsCandidate(ActionId(e)), ctx.receipts), Filter(IsCandidate(ActionId(e)), more);
    SummariesGrow(c, d);
    StateGrows(Summaries(c), Summaries(d));
  }

  /** The effects the report lists: scope, ticket and receipt. */
  ghost predicate ListsReceipt(x: Answer, scope: string, ticket: string, receipt: string)
    requires x.observed.ObservedEffects?
  {
    exists n: nat :: Lists(x.observed.effects, scope, ticket, Delivered(receipt, n))
  }

  ghost predicate ListsConflict(x: Answer, scope: string, receipt: string) {
    exists c :: c in x.conflicts && (c.scope, c.receipt) == (scope, receipt)
  }

  /** Two answers about one execution list the same effects and the same conflicts, and say the same. */
  ghost predicate SameFindings(x: Answer, y: Answer) {
    && x.observed.ObservedEffects? && y.observed.ObservedEffects?
    && x.state == y.state
    && (forall scope, ticket, receipt :: ListsReceipt(x, scope, ticket, receipt) <==> ListsReceipt(y, scope, ticket, receipt))
    && (forall scope, receipt :: ListsConflict(x, scope, receipt) <==> ListsConflict(y, scope, receipt))
  }

  lemma SameFindingsOfGroups(s: Groups, t: Groups, x: Answer, y: Answer)
    requires Grown(s, t) && Grown(t, s)
    requires x.observed.ObservedEffects? && x.observed.effects == Effects(s) && x.conflicts == Conflicts(s) && x.state == EffectState(s)
    requires y.observed.ObservedEffects? && y.observed.effects == Effects(t) && y.conflicts == Conflicts(t) && y.state == EffectState(t)
    ensures SameFindings(x, y)
  {
    StateGrows(s, t);
    StateGrows(t, s);
    forall scope, ticket, receipt ensures ListsReceipt(x, scope, ticket, receipt) <==> ListsReceipt(y, scope, ticket, receipt) {
      SameOutcome(s, t, (scope, receipt));
      ReceiptListed(s, x, scope, ticket, receipt);
      ReceiptListed(t, y, scope, ticket, receipt);
    }
    SameConflicts(s, t, x, y);
  }

  lemma SameOutcome(s: Groups, t: Groups, k: Key)
    requires Grown(s, t) && Grown(t, s)
    ensures k in s <==> k in t
    ensures k in s ==> s[k].outcome == t[k].outcome
  {
  }

  lemma SameConflicts(s: Groups, t: Groups, x: Answer, y: Answer)
    requires Grown(s, t) && Grown(t, s) && x.conflicts == Conflicts(s) && y.conflicts == Conflicts(t)
    ensures forall scope, receipt :: ListsConflict(x, scope, receipt) <==> ListsConflict(y, scope, receipt)
  {
    forall scope, receipt ensures ListsConflict(x, scope, receipt) <==> ListsConflict(y, scope, receipt) {
      SameOutcome(s, t, (scope, receipt));
      ConflictListed(s, x, scope, receipt);
      ConflictListed(t, y, scope, receipt);
    }
  }

  lemma ConflictListed(groups: Groups, x: Answer, scope: string, receipt: string)
    requires x.conflicts == Conflicts(groups)
    ensures ListsConflict(x, scope, receipt) <==> (scope, receipt) in groups && groups[(scope, receipt)].outcome.Disagreement?
  {
    ConflictsMean(groups);
  }

  lemma ReceiptListed(groups: Groups, x: Answer, scope: string, ticket: string, receipt: string)
    requires x.observed.ObservedEffects? && x.observed.effects == Effects(groups)
    ensures ListsReceipt(x, scope, ticket, receipt) <==> (scope, receipt) in groups && groups[(scope, receipt)].outcome == Effect(ticket)
  {
    forall n: nat ensures Lists(x.observed.effects, scope, ticket, Delivered(receipt, n)) <==>
      (scope, receipt) in groups && groups[(scope, receipt)].outcome == Effect(ticket) && groups[(scope, receipt)].deliveries == n
    {
      EffectsMean(groups, scope, ticket, Delivered(receipt, n));
    }
    if (scope, receipt) in groups && groups[(scope, receipt)].outcome == Effect(ticket) {
      assert Lists(x.observed.effects, scope, ticket, Delivered(receipt, groups[(scope, receipt)].deliveries));
    }
  }

  /** Delivering again what was delivered before changes no effect, no conflict and no state. */
  lemma RepeatedDeliveryChangesNothing(ctx: Context, more: seq<Span>, e: Span)
    requires MethodFor(ctx.opts, R6).Some? && |ctx.scopes| == 1
    requires Covers(ctx.receipts, more) && Covers(more, ctx.receipts)
    ensures SameFindings(EffectsAnswer(ctx, e), EffectsAnswer(ctx.(receipts := more), e))
  {
    var c, d := Filter(IsCandidate(ActionId(e)), ctx.receipts), Filter(IsCandidate(ActionId(e)), more);
    CandidatesCovered(ActionId(e), ctx.receipts, more);
    CandidatesCovered(ActionId(e), more, ctx.receipts);
    SummariesGrow(c, d);
    SummariesGrow(d, c);
    SameFindingsOfGroups(Summaries(c), Summaries(d), EffectsAnswer(ctx, e), EffectsAnswer(ctx.(receipts := more), e));
  }

  /** One more copy of a receipt, read from anywhere, is such a repetition. */
  lemma OneMoreCopy(receipts: seq<Span>, r: Span, at: string)
    requires r in receipts
    ensures Covers(receipts, receipts + [r.(locator := at)]) && Covers(receipts + [r.(locator := at)], receipts)
  {
    var more := receipts + [r.(locator := at)];
    forall x | x in receipts ensures Copied(x, more) {
      assert x.(locator := x.locator) == x;
    }
    forall x | x in more ensures Copied(x, receipts) {
      if x in receipts {
        assert x.(locator := x.locator) == x;
      } else {
        assert x.(locator := r.locator) == r;
      }
    }
  }

  // ---- conservation -------------------------------------------------------------------------

  function Sizes(candidates: seq<Span>): map<Key, nat> {
    map k | k in Keys(candidates) :: |Deliveries(candidates, k)|
  }

  lemma SizesNext(before: seq<Span>, r: Span, k: Key)
    requires KeyOf(r) == Some(k)
    ensures Sizes(before + [r]) == Sizes(before)[k := Count(Sizes(before), k) + 1]
  {
    var sizes := Sizes(before + [r]);
    assert sizes.Keys == Sizes(before).Keys + {k} by {
      GroupGrows(before, r);
    }
    forall j | j in sizes ensures sizes[j] == Count(Sizes(before), j) + if j == k then 1 else 0 {
      SizeNext(before, r, j);
    }
    OneCounted(Sizes(before), sizes, k);
  }

  lemma OneCounted(before: map<Key, nat>, after: map<Key, nat>, k: Key)
    requires after.Keys == before.Keys + {k}
    requires forall j :: j in after ==> after[j] == Count(before, j) + if j == k then 1 else 0
    ensures after == before[k := Count(before, k) + 1]
  {
  }

  lemma SizesSame(before: seq<Span>, r: Span)
    requires KeyOf(r).None?
    ensures Sizes(before + [r]) == Sizes(before)
  {
    GroupGrows(before, r);
  }

  lemma SizeNext(before: seq<Span>, r: Span, k: Key)
    ensures |Deliveries(before + [r], k)| == Count(Sizes(before), k) + if KeyOf(r) == Some(k) then 1 else 0
  {
    FilterAppend(InGroup(k), before, r);
    GroupsNonEmpty(before, k);
  }

  function HasGap(gap: Gap): Span -> bool {
    r => GapOf(r) == Some(gap)
  }

  function Missed(gap: Gap, candidates: seq<Span>): nat {
    |Filter(HasGap(gap), candidates)|
  }

  lemma MissedNext(gap: Gap, before: seq<Span>, r: Span)
    ensures Missed(gap, before + [r]) == Missed(gap, before) + if GapOf(r) == Some(gap) then 1 else 0
  {
    FilterAppend(HasGap(gap), before, r);
  }

  /** Each receipt is in one group, or has one of the two gaps. */
  lemma {:induction false} EachOnce(candidates: seq<Span>)
    ensures |candidates| == Sum(Sizes(candidates)) + Missed(ReceiptScopeUnresolved, candidates) + Missed(ReceiptIdentityMissing, candidates)
  {
    if candidates == [] {
      assert Sizes(candidates) == map[];
    } else {
      var n := |candidates| - 1;
      var before, r := candidates[..n], candidates[n];
      assert candidates == before + [r];
      EachOnce(before);
      EachOnceNext(before, r);
    }
  }

  lemma SumOneMore(before: map<Key, nat>, after: map<Key, nat>, k: Key)
    requires after == before[k := Count(before, k) + 1]
    ensures Sum(after) == Sum(before) + 1
  {
    SumNext(before, k);
  }

  lemma GroupedNext(before: seq<Span>, r: Span, place: Option<Key>)
    requires place == KeyOf(r)
    ensures Sum(Sizes(before + [r])) == Sum(Sizes(before)) + if place.Some? then 1 else 0
  {
    if place.Some? {
      SizesNext(before, r, place.value);
      SumOneMore(Sizes(before), Sizes(before + [r]), place.value);
    } else {
      SizesSame(before, r);
    }
  }

  lemma OnePlace(r: Span)
    ensures 1 == (if KeyOf(r).Some? then 1 else 0) + (if GapOf(r) == Some(ReceiptScopeUnresolved) then 1 else 0)
                 + (if GapOf(r) == Some(ReceiptIdentityMissing) then 1 else 0)
  {
  }

  lemma EachOnceNext(before: seq<Span>, r: Span)
    ensures Sum(Sizes(before + [r])) + Missed(ReceiptScopeUnresolved, before + [r]) + Missed(ReceiptIdentityMissing, before + [r])
            == Sum(Sizes(before)) + Missed(ReceiptScopeUnresolved, before) + Missed(ReceiptIdentityMissing, before) + 1
  {
    GroupedNext(before, r, KeyOf(r));
    MissedNext(ReceiptScopeUnresolved, before, r);
    MissedNext(ReceiptIdentityMissing, before, r);
    OnePlace(r);
  }

  function At(sizes: map<Key, nat>): Key -> nat {
    (k: Key) => Count(sizes, k)
  }

  /** A map of sizes, added up in the order of its keys. */
  lemma {:induction false} SumInOrder(sizes: map<Key, nat>)
    ensures SumOf(At(sizes), InOrder(sizes.Keys)) == Sum(sizes)
    decreases sizes.Keys
  {
    if sizes != map[] {
      var k := Least(sizes.Keys);
      var rest := sizes - {k};
      assert rest.Keys == sizes.Keys - {k};
      var order := InOrder(rest.Keys);
      SumInOrder(rest);
      SumWithout(sizes, k);
      SumOfSplit(At(sizes), [k], order);
      SumOfSame(At(sizes), At(rest), order);
      SumOfOne(At(sizes), k);
    }
  }

  function Times(d: Delivered): nat { d.deliveries }
  function ItemTimes(item: (Key, Delivered)): nat { item.1.deliveries }
  function ReceiptTimes(c: Correlated): nat { SumOf(Times, c.receipts) }
  function Places(c: Conflict): nat { |c.at| }

  /** The deliveries that a list of effects counts. */
  function Counted(effects: seq<Correlated>): nat { SumOf(ReceiptTimes, effects) }

  function BucketSizes(effects: map<Key, seq<Delivered>>): map<Key, nat> {
    map k | k in effects :: SumOf(Times, effects[k])
  }

  lemma {:induction false} BucketSum(items: seq<(Key, Delivered)>)
    ensures Sum(BucketSizes(Bucketed(items))) == SumOf(ItemTimes, items)
  {
    if items == [] {
      assert BucketSizes(Bucketed(items)) == map[];
    } else {
      var n := |items| - 1;
      BucketSum(items[..n]);
      PushSum(Bucketed(items[..n]), items[n].0, items[n].1);
    }
  }

  lemma PushSum(effects: map<Key, seq<Delivered>>, k: Key, d: Delivered)
    ensures Sum(BucketSizes(Push(effects, k, d))) == Sum(BucketSizes(effects)) + d.deliveries
  {
    var sizes := BucketSizes(effects);
    var was := if k in effects then effects[k] else [];
    SumOfSplit(Times, was, [d]);
    SumOfOne(Times, d);
    assert BucketSizes(Push(effects, k, d)) == sizes[k := Count(sizes, k) + d.deliveries];
    SumUpdate(sizes, k, Count(sizes, k) + d.deliveries);
    if k in sizes {
      SumWithout(sizes, k);
    } else {
      assert sizes - {k} == sizes;
    }
  }

  lemma CorrelateSum(items: seq<(Key, Delivered)>)
    ensures Counted(Correlate(items)) == SumOf(ItemTimes, items)
  {
    var effects := Bucketed(items);
    var order := InOrder(effects.Keys);
    var sizes := BucketSizes(effects);
    assert sizes.Keys == effects.Keys;
    BucketSum(items);
    SumInOrder(sizes);
    SumOfMap(ReceiptTimes, Listing(effects), At(sizes), order);
  }

  /** Deliveries of an agreed receipt that names no ticket. */
  function TicketlessAt(groups: Groups): Key -> nat {
    (k: Key) => if k in groups && groups[k].outcome.NoTicket? then groups[k].deliveries else 0
  }

  function Ticketless(groups: Groups): nat {
    SumOf(TicketlessAt(groups), InOrder(groups.Keys))
  }

  lemma GroupCounted(groups: Groups, k: Key)
    requires k in groups && |groups[k].at| == groups[k].deliveries
    ensures groups[k].deliveries == SumOf(ItemTimes, EffectAt(groups)(k)) + SumOf(Places, ConflictAt(groups)(k)) + TicketlessAt(groups)(k)
  {
    var g := groups[k];
    match g.outcome
    case Effect(ticket) => SumOfOne(ItemTimes, ((k.0, ticket), Delivered(k.1, g.deliveries)));
    case Disagreement => SumOfOne(Places, Conflict(k.1, k.0, g.at));
    case NoTicket =>
  }

  /** Every delivery of every group is counted in one of the three places. */
  lemma GroupsCounted(groups: Groups, sizes: map<Key, nat>)
    requires sizes.Keys == groups.Keys
    requires forall k :: k in groups ==> sizes[k] == groups[k].deliveries == |groups[k].at|
    ensures Sum(sizes) == Counted(Effects(groups)) + SumOf(Places, Conflicts(groups)) + Ticketless(groups)
  {
    var order := InOrder(groups.Keys);
    SumInOrder(sizes);
    CorrelateSum(FlatMap(EffectAt(groups), order));
    SumOfFlat(ItemTimes, EffectAt(groups), order);
    SumOfFlat(Places, ConflictAt(groups), order);
    forall k | k in order
      ensures At(sizes)(k) == Under(ItemTimes, EffectAt(groups))(k) + Under(Places, ConflictAt(groups))(k) + TicketlessAt(groups)(k)
    {
      GroupCounted(groups, k);
    }
    SumOfPlus(At(sizes), Under(ItemTimes, EffectAt(groups)), Under(Places, ConflictAt(groups)), TicketlessAt(groups), order);
  }

  lemma SortedKeepsCount(s: seq<string>)
    ensures |SortedTexts(s)| == |s|
  {
  }

  /** No candidate is lost or counted twice. */
  lemma EveryCandidateCounted(ctx: Context, e: Span)
    requires MethodFor(ctx.opts, R6).Some? && |ctx.scopes| == 1
    ensures var candidates := Filter(IsCandidate(ActionId(e)), ctx.receipts);
            var answer := EffectsAnswer(ctx, e);
            |candidates| == Counted(answer.observed.effects) + SumOf(Places, answer.conflicts) + Ticketless(Summaries(candidates))
                            + Missed(ReceiptScopeUnresolved, candidates) + Missed(ReceiptIdentityMissing, candidates)
  {
    var candidates := Filter(IsCandidate(ActionId(e)), ctx.receipts);
    EachOnce(candidates);
    forall k | k in Keys(candidates) ensures Sizes(candidates)[k] == Summaries(candidates)[k].deliveries == |Summaries(candidates)[k].at| {
      GroupsNonEmpty(candidates, k);
      SortedKeepsCount(Map(Locator, Deliveries(candidates, k)));
    }
    GroupsCounted(Summaries(candidates), Sizes(candidates));
  }

  // ---- reports of longer inputs -------------------------------------------------------------

  /** Adding receipts changes what the answers draw on in the receipts alone. */
  lemma ContextOfMore(spans: seq<Span>, added: seq<Span>, opts: Options)
    requires forall r :: r in added ==> IsKind(Receipt)(r)
    ensures ContextOf(spans + added, opts) == ContextOf(spans, opts).(receipts := Receipts(spans) + added)
    ensures Executions(spans + added) == Executions(spans)
  {
    FilterConcat(IsKind(Proposal), spans, added);
    FilterConcat(IsKind(Execution), spans, added);
    FilterConcat(IsKind(Receipt), spans, added);
    OnlyReceipts(added);
  }

  lemma {:induction false} OnlyReceipts(added: seq<Span>)
    requires forall r :: r in added ==> IsKind(Receipt)(r)
    ensures Filter(IsKind(Receipt), added) == added && Filter(IsKind(Proposal), added) == [] && Filter(IsKind(Execution), added) == []
  {
    if added != [] {
      var n := |added| - 1;
      assert added[n] in added && forall r :: r in added[..n] ==> r in added;
      OnlyReceipts(added[..n]);
      assert added == added[..n] + [added[n]];
    }
  }

  lemma CoversMore(c: seq<Span>, added: seq<Span>)
    ensures Covers(c, c + added)
  {
    forall r | r in c ensures Copied(r, c + added) {
      assert r.(locator := r.locator) == r && r in c + added;
    }
  }

  /** What the report says about an execution is in the report. */
  lemma EffectsReported(spans: seq<Span>, opts: Options, e: Span)
    requires e in Executions(spans)
    ensures EffectsAnswer(ContextOf(spans, opts), e) in AllAnswers(spans, opts)
  {
    var ctx := ContextOf(spans, opts);
    var x := EffectsAnswer(ctx, e);
    assert ExecutionAnswers(ctx)(e)[1] == x;
    FlatMapHas(ExecutionAnswers(ctx), Executions(spans), x);
    assert x in OtherAnswers(spans, opts);
  }

  /**
   However many receipts a report is given in addition, in whatever place, no execution's state
   falls in unknown < established < conflict.
   */
  lemma LongerReportNeverLowers(spans: seq<Span>, added: seq<Span>, longer: seq<Span>, opts: Options, e: Span)
    requires MethodFor(opts, R6).Some? && |Scopes(Executions(spans))| == 1
    requires (forall r :: r in added ==> IsKind(Receipt)(r)) && Permutation(spans + added, longer) && e in Executions(spans)
    ensures var x, y := EffectsAnswer(ContextOf(spans, opts), e), EffectsAnswer(ContextOf(longer, opts), e);
            && x in AllAnswers(spans, opts) && y in AllAnswers(longer, opts)
            && x.query == y.query && x.subject == y.subject && Rank(x.state) <= Rank(y.state)
  {
    LongerAnswer(spans, added, longer, opts, e);
    CoversMore(Receipts(spans), added);
    MoreReceiptsNeverLower(ContextOf(spans, opts), Receipts(spans) + added, e);
  }

  lemma LongerAnswer(spans: seq<Span>, added: seq<Span>, longer: seq<Span>, opts: Options, e: Span)
    requires (forall r :: r in added ==> IsKind(Receipt)(r)) && Permutation(spans + added, longer) && e in Executions(spans)
    ensures EffectsAnswer(ContextOf(longer, opts), e) == EffectsAnswer(ContextOf(spans, opts).(receipts := Receipts(spans) + added), e)
    ensures EffectsAnswer(ContextOf(spans, opts), e) in AllAnswers(spans, opts)
    ensures EffectsAnswer(ContextOf(longer, opts), e) in AllAnswers(longer, opts)
  {
    ContextOfMore(spans, added, opts);
    ContextOrderFree(spans + added, longer, opts);
    EffectsOrderFree(ContextOf(spans + added, opts), ContextOf(longer, opts), e);
    FilterPermutation(IsKind(Execution), spans + added, longer);
    PermutationMembers(Executions(spans + added), Executions(longer));
    EffectsReported(spans, opts, e);
    EffectsReported(longer, opts, e);
  }

  /** Receipts delivered again, in whatever place and from wherever, change no finding of the report. */
  lemma ReportWithRepetitions(spans: seq<Span>, added: seq<Span>, longer: seq<Span>, opts: Options, e: Span)
    requires MethodFor(opts, R6).Some? && |Scopes(Executions(spans))| == 1
    requires (forall r :: r in added ==> IsKind(Receipt)(r)) && Permutation(spans + added, longer) && e in Executions(spans)
    requires Covers(added, Receipts(spans))
    ensures var x, y := EffectsAnswer(ContextOf(spans, opts), e), EffectsAnswer(ContextOf(longer, opts), e);
            x in AllAnswers(spans, opts) && y in AllAnswers(longer, opts) && SameFindings(x, y)
  {
    LongerAnswer(spans, added, longer, opts, e);
    CoversMore(Receipts(spans), added);
    CoversRepetitions(Receipts(spans), added);
    RepeatedDeliveryChangesNothing(ContextOf(spans, opts), Receipts(spans) + added, e);
  }

  lemma CoversRepetitions(c: seq<Span>, added: seq<Span>)
    requires Covers(added, c)
    ensures Covers(c + added, c)
  {
    forall r | r in c + added ensures Copied(r, c) {
      if r in c {
        assert r.(locator := r.locator) == r;
      }
    }
  }
}
