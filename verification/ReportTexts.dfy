/**
 The texts the reader sorts by: compact JSON with the members of an object in the order of their
 names, as `serde_json` prints a value. They are shown to be faithful, so what the order theorems
 ask of printed sort keys holds of these.
 */
module ReportTexts {
  import opened Prelude
  import opened Printing
  import opened ReceiptSigning
  import opened Sorting
  import opened TraceReader
  import opened TraceReaderOrder
  import TraceReaderMeaning

  /** Only quotes, backslashes and control characters are escaped. */
  function PlainChar(c: char): string {
    if Letter(c).Some? then [BACKSLASH, Letter(c).value]
    else if c as int < 0x20 then UnitEscape(c as int)
    else [c]
  }

  lemma PlainCharInverse()
    ensures Inverse(PlainChar, ReadChar)
  {
    forall c, rest ensures InverseAt(PlainChar, ReadChar, c, rest) {
      PlainCharRoundTrip(c, rest);
    }
  }

  lemma PlainCharRoundTrip(c: char, rest: string)
    ensures InverseAt(PlainChar, ReadChar, c, rest)
  {
    var t := PlainChar(c) + rest;
    if Letter(c).Some? {
      assert t[0] == BACKSLASH && t[1] == Letter(c).value;
    } else if c as int < 0x20 {
      UnicodeRoundTrip(c, rest);
      assert t[0] == BACKSLASH && t[1] == 'u';
    } else {
      assert t[0] == c;
    }
  }

  // ---- values and their text ----------------------------------------------------------------

  datatype Value = Null | Str(text: string) | Obj(members: Members)

  /** The members of an object, in the order of their names. */
  datatype Members = End | More(name: string, value: Value, rest: Members)

  const NULL_TEXT: string := ['n', 'u', 'l', 'l']

  function Text(v: Value): string {
    match v
    case Null => NULL_TEXT
    case Str(text) => Quote(PlainChar, text)
    case Obj(members) => ['{'] + MembersText(members, true)
  }

  /** The members that are left, and the closing brace. */
  function MembersText(m: Members, first: bool): string {
    match m
    case End => ['}']
    case More(name, value, rest) =>
      Comma(first) + (Quote(PlainChar, name) + ([':'] + (Text(value) + MembersText(rest, false))))
  }

  function Comma(first: bool): string {
    if first then [] else [',']
  }

  lemma Strip(head: string, x: string, y: string)
    requires head + x == head + y
    ensures x == y
  {
    assert (head + x)[|head|..] == x && (head + y)[|head|..] == y;
  }

  lemma QuoteHead(a: string, b: string, x: string, y: string)
    requires Quote(PlainChar, a) + x == Quote(PlainChar, b) + y
    ensures a == b && x == y
  {
    PlainCharInverse();
    QuoteRoundTrip(PlainChar, ReadChar, a, x);
    QuoteRoundTrip(PlainChar, ReadChar, b, y);
  }

  lemma FirstChar(v: Value, x: string)
    ensures Text(v) != ""
    ensures (Text(v) + x)[0] == match v case Null => 'n' case Str(_) => '\"' case Obj(_) => '{'
  {
  }

  lemma FirstOfMembers(m: Members, first: bool, x: string)
    ensures MembersText(m, first) != ""
    ensures (MembersText(m, first) + x)[0] == if m.End? then '}' else if first then '\"' else ','
  {
  }

  /** The parts of a list of members followed by `x`, nested to the right. */
  function Parts(name: string, tail: string, first: bool): string {
    Comma(first) + (Quote(PlainChar, name) + ([':'] + tail))
  }

  lemma MembersParts(m: Members, first: bool, x: string)
    requires m.More?
    ensures MembersText(m, first) + x == Parts(m.name, Text(m.value) + (MembersText(m.rest, false) + x), first)
  {
    Regroup5(Comma(first), Quote(PlainChar, m.name), [':'], Text(m.value), MembersText(m.rest, false), x);
  }

  lemma Regroup5(a: string, b: string, c: string, d: string, e: string, x: string)
    ensures a + (b + (c + (d + e))) + x == a + (b + (c + (d + (e + x))))
  {
  }

  lemma PartsHead(a: string, b: string, x: string, y: string, first: bool)
    requires Parts(a, x, first) == Parts(b, y, first)
    ensures a == b && x == y
  {
    Strip(Comma(first), Quote(PlainChar, a) + ([':'] + x), Quote(PlainChar, b) + ([':'] + y));
    QuoteHead(a, b, [':'] + x, [':'] + y);
    Strip([':'], x, y);
  }

  /** A text shows where it ends and which value it prints. */
  lemma {:induction false} TextHead(a: Value, b: Value, x: string, y: string)
    requires Text(a) + x == Text(b) + y
    ensures a == b && x == y
    decreases a
  {
    FirstChar(a, x);
    FirstChar(b, y);
    match a
    case Null => Strip(NULL_TEXT, x, y);
    case Str(_) => QuoteHead(a.text, b.text, x, y);
    case Obj(_) =>
      var p, q := MembersText(a.members, true) + x, MembersText(b.members, true) + y;
      assert Text(a) + x == ['{'] + p && Text(b) + y == ['{'] + q;
      Strip(['{'], p, q);
      MembersHead(a.members, b.members, true, x, y);
  }

  lemma {:induction false} MembersHead(a: Members, b: Members, first: bool, x: string, y: string)
    requires MembersText(a, first) + x == MembersText(b, first) + y
    ensures a == b && x == y
    decreases a
  {
    FirstOfMembers(a, first, x);
    FirstOfMembers(b, first, y);
    match a
    case End => Strip(['}'], x, y);
    case More(_, _, _) =>
      MembersParts(a, first, x);
      MembersParts(b, first, y);
      var p, q := MembersText(a.rest, false) + x, MembersText(b.rest, false) + y;
      PartsHead(a.name, b.name, Text(a.value) + p, Text(b.value) + q, first);
      TextHead(a.value, b.value, p, q);
      MembersHead(a.rest, b.rest, false, x, y);
  }

  /** Different values have different texts. */
  lemma TextInjective(a: Value, b: Value)
    requires Text(a) == Text(b)
    ensures a == b
  {
    assert Text(a) + "" == Text(a) && Text(b) + "" == Text(b);
    TextHead(a, b, "", "");
  }

  // ---- what the reader sorts by -------------------------------------------------------------

  function Nullable(text: Option<string>): Value {
    if text.Some? then Str(text.value) else Null
  }

  function QueryName(q: Query): string {
    match q
    case ApprovalForExecution => "approval-for-execution"
    case Calls => "calls"
    case Continuity => "continuity"
    case EffectsForExecution => "effects-for-execution"
    case ProposalOrigin => "proposal-origin"
    case UncorrelatedReport => "uncorrelated-external-report"
  }

  function SubjectKind(s: Subject): string {
    match s
    case TurnSubject(_) => "turn"
    case ProposalSubject(_) => "proposed_action"
    case ExecutionSubject(_, _) => "tool_execution"
    case ReceiptSubject(_, _) => "receipt"
  }

  function SubjectId(s: Subject): Value {
    match s
    case TurnSubject(turn) => Nullable(turn)
    case ProposalSubject(action) => Nullable(action)
    case ExecutionSubject(_, _) => Null
    case ReceiptSubject(receipt, _) => Nullable(receipt)
  }

  function SubjectRest(s: Subject): Members {
    match s
    case TurnSubject(_) => End
    case ProposalSubject(_) => End
    case ExecutionSubject(scope, proposal) =>
      More("references", Obj(More("proposal", Nullable(proposal), End)), More("scope", Nullable(scope), End))
    case ReceiptSubject(_, service) => More("scope", Nullable(service), End)
  }

  function SubjectValue(s: Subject): Value {
    Obj(More("id", SubjectId(s), More("kind", Str(SubjectKind(s)), SubjectRest(s))))
  }

  function RelationshipName(r: Relationship): string {
    match r
    case R1 => "R1"
    case R5 => "R5"
    case R6 => "R6"
  }

  function LossCode(loss: Loss): string {
    match loss
    case UnsupportedKind(_, _) => "unsupported_record_kind"
    case UnmappedAttribute(_, _) => "unmapped_attribute"
    case UnrecognizedMethod(_, _, _) => "unrecognized_method_default"
    case MethodAbsent(_, _) => "relationship_method_absent"
  }

  const NO_METHOD: string :=
    "record carries no method and no mapping-file default is declared (contract \U{A7}4 step 3)"

  /** `attribute` comes before `code`; the other members come after it. */
  function LossValue(loss: Loss): Value {
    var code := Str(LossCode(loss));
    match loss
    case UnsupportedKind(name, at) => Obj(More("at", Str(at), More("code", code, More("name", Str(name), End))))
    case UnmappedAttribute(attribute, at) => Obj(More("at", Str(at), More("attribute", Str(attribute), More("code", code, End))))
    case UnrecognizedMethod(r, value, at) =>
      Obj(More("at", Str(at), More("code", code, More("relationship", Str(RelationshipName(r)), More("value", Str(value), End)))))
    case MethodAbsent(r, at) =>
      Obj(More("at", Str(at), More("code", code, More("relationship", Str(RelationshipName(r)), More("why", Str(NO_METHOD), End)))))
  }

  const PRODUCER_CLAIM: string := "producer claim about external verification; not re-derived by this reader"

  function NotUsedValue(n: NotUsed): Value {
    Obj(More("at", Str(n.at), More("attribute", Str(n.attribute), More("why", Str(PRODUCER_CLAIM), End))))
  }

  function TheTexts(): Texts {
    Texts(q => Text(Str(QueryName(q))), s => Text(SubjectValue(s)), l => Text(LossValue(l)), n => Text(NotUsedValue(n)))
  }

  lemma QueryNamesDiffer(x: Query, y: Query)
    requires QueryName(x) == QueryName(y)
    ensures x == y
  {
    assert |QueryName(x)| == |QueryName(y)|;
    assert QueryName(x)[0] == QueryName(y)[0];
    assert QueryName(x)[1] == QueryName(y)[1];
  }

  lemma SubjectsDiffer(x: Subject, y: Subject)
    requires SubjectValue(x) == SubjectValue(y)
    ensures x == y
  {
    assert |SubjectKind(x)| == |SubjectKind(y)|;
    assert SubjectId(x) == SubjectId(y) && SubjectRest(x) == SubjectRest(y);
  }

  lemma RelationshipNamesDiffer(x: Relationship, y: Relationship)
    requires RelationshipName(x) == RelationshipName(y)
    ensures x == y
  {
    assert RelationshipName(x)[1] == RelationshipName(y)[1];
  }

  /** The codes have different lengths. */
  lemma LossesDiffer(x: Loss, y: Loss)
    requires LossValue(x) == LossValue(y)
    ensures x == y
  {
    SameCode(x, y);
    if x.UnrecognizedMethod? || x.MethodAbsent? {
      RelationshipNamesDiffer(x.relationship, y.relationship);
    }
  }

  function CodeOf(v: Value): Option<Value> {
    if v.Obj? then Find(v.members, "code") else None
  }

  function Find(m: Members, name: string): Option<Value> {
    match m
    case End => None
    case More(n, value, rest) => if n == name then Some(value) else Find(rest, name)
  }

  lemma SameCode(x: Loss, y: Loss)
    requires LossValue(x) == LossValue(y)
    ensures x.UnsupportedKind? == y.UnsupportedKind? && x.UnmappedAttribute? == y.UnmappedAttribute?
    ensures x.MethodAbsent? == y.MethodAbsent?
  {
    CodeFound(x);
    CodeFound(y);
    assert |LossCode(x)| == |LossCode(y)|;
  }

  lemma CodeFound(x: Loss)
    ensures CodeOf(LossValue(x)) == Some(Str(LossCode(x)))
  {
    assert |"at"| == 2 && |"attribute"| == 9 && |"code"| == 4;
    var m := LossValue(x).members;
    if x.UnmappedAttribute? {
      assert Find(m.rest.rest, "code") == Some(Str(LossCode(x)));
    }
    assert Find(m.rest, "code") == Some(Str(LossCode(x)));
  }

  /** The texts the program prints can stand for what they print. */
  lemma TheTextsAreFaithful()
    ensures Faithful(TheTexts())
  {
    var t := TheTexts();
    forall x, y | t.query(x) == t.query(y) ensures x == y {
      TextInjective(Str(QueryName(x)), Str(QueryName(y)));
      QueryNamesDiffer(x, y);
    }
    forall x, y | t.subject(x) == t.subject(y) ensures x == y {
      TextInjective(SubjectValue(x), SubjectValue(y));
      SubjectsDiffer(x, y);
    }
    forall x, y | t.loss(x) == t.loss(y) ensures x == y {
      TextInjective(LossValue(x), LossValue(y));
      LossesDiffer(x, y);
    }
    forall x, y | t.notUsed(x) == t.notUsed(y) ensures x == y {
      TextInjective(NotUsedValue(x), NotUsedValue(y));
    }
  }

  /** With the program's own texts no hypothesis about printing is left. */
  lemma ReportsOrderFree(a: seq<Span>, b: seq<Span>, opts: Options)
    requires Permutation(a, b)
    ensures Permutation(ReportOf(a, opts, TheTexts()).answers, ReportOf(b, opts, TheTexts()).answers)
    ensures ReportOf(a, opts, TheTexts()).losses == ReportOf(b, opts, TheTexts()).losses
    ensures ReportOf(a, opts, TheTexts()).notUsed == ReportOf(b, opts, TheTexts()).notUsed
  {
    TheTextsAreFaithful();
    ReportOrderFree(a, b, opts, TheTexts());
  }

  lemma AnswersOrderFree(spans: seq<Span>, opts: Options)
    ensures TurnsConsistent(spans, opts)
            <==> forall b :: Permutation(spans, b) ==> SemanticAnswers(spans, opts, TheTexts()) == SemanticAnswers(b, opts, TheTexts())
  {
    TheTextsAreFaithful();
    AnswerListOrderFree(spans, opts, TheTexts());
  }

  // ---- the order of the report --------------------------------------------------------------

  /** The order in which the report takes up the questions. */
  function Place(q: Query): nat {
    match q
    case ApprovalForExecution => 0
    case Calls => 1
    case Continuity => 2
    case EffectsForExecution => 3
    case ProposalOrigin => 4
    case UncorrelatedReport => 5
  }

  predicate Plain(c: char) {
    'a' <= c <= 'z' || c == '-'
  }

  lemma {:induction false} PlainName(s: string)
    requires forall i :: 0 <= i < |s| ==> Plain(s[i])
    ensures PrintAll(PlainChar, s) == s
  {
    if s != "" {
      var n := |s| - 1;
      PlainName(s[..n]);
      assert PlainChar(s[n]) == [s[n]];
    }
  }

  lemma QueryText(q: Query)
    ensures Text(Str(QueryName(q))) == ['\"'] + QueryName(q) + ['\"'] && |QueryName(q)| >= 2
  {
    match q
    case ApprovalForExecution => PlainName("approval-for-execution");
    case Calls => PlainName("calls");
    case Continuity => PlainName("continuity");
    case EffectsForExecution => PlainName("effects-for-execution");
    case ProposalOrigin => PlainName("proposal-origin");
    case UncorrelatedReport => PlainName("uncorrelated-external-report");
  }

  lemma NamesAscend(q: Query, r: Query)
    requires Place(q) < Place(r)
    ensures var a, b := QueryName(q), QueryName(r);
            |a| >= 2 && |b| >= 2 && (a[0] < b[0] || (a[0] == b[0] && a[1] < b[1]))
  {
  }

  lemma QueriesAscend(q: Query, r: Query)
    requires Place(q) < Place(r)
    ensures var a, b := Text(Str(QueryName(q))), Text(Str(QueryName(r))); a != b && TextLe(a, b)
  {
    QueryText(q);
    QueryText(r);
    NamesAscend(q, r);
    var a, b := Text(Str(QueryName(q))), Text(Str(QueryName(r)));
    TextLeMeans(a, b);
    var n := if a[1] != b[1] then 1 else 2;
    assert a[..n] == b[..n] && a[n] < b[n];
  }

  /** Answers are listed question by question in this order, and for one question by the text of their subject. */
  lemma AnswersInOrder(spans: seq<Span>, opts: Options, i: nat, j: nat)
    requires i < j < |ReportOf(spans, opts, TheTexts()).answers|
    ensures var x, y := ReportOf(spans, opts, TheTexts()).answers[i], ReportOf(spans, opts, TheTexts()).answers[j];
            && Place(x.query) <= Place(y.query)
            && (x.query == y.query ==> TextLe(Text(SubjectValue(x.subject)), Text(SubjectValue(y.subject))))
  {
    var key, answers := SortKey(TheTexts()), ReportOf(spans, opts, TheTexts()).answers;
    var x, y := answers[i], answers[j];
    PairOrder();
    SortSorts(key, PairLe, AllAnswers(spans, opts));
    assert PairLe(key(x), key(y));
    if Place(x.query) > Place(y.query) {
      QueriesAscend(y.query, x.query);
      TextTotal(key(x).0, key(y).0);
      assert false;
    }
  }

  /** Losses and unused attributes are listed by their texts. */
  lemma LossesInOrder(spans: seq<Span>, opts: Options, i: nat, j: nat)
    ensures var losses := ReportOf(spans, opts, TheTexts()).losses;
            i < j < |losses| ==> TextLe(Text(LossValue(losses[i])), Text(LossValue(losses[j])))
    ensures var notUsed := ReportOf(spans, opts, TheTexts()).notUsed;
            i < j < |notUsed| ==> TextLe(Text(NotUsedValue(notUsed[i])), Text(NotUsedValue(notUsed[j])))
  {
    TextOrder();
    var texts := TheTexts();
    SortSorts(texts.loss, TextLe, AllLosses(spans, opts));
    SortSorts(texts.notUsed, TextLe, FlatMap(SpanNotUsed, spans));
    TraceReaderMeaning.DedupAscends(texts.loss, StableSort(texts.loss, TextLe, AllLosses(spans, opts)));
  }

  // ---- what the texts look like -------------------------------------------------------------

  /** The subject of an answer, member by member in the order of their names. */
  lemma SubjectsLookLike(scope: Option<string>, other: Option<string>)
    ensures SubjectValue(TurnSubject(other)) == Obj(More("id", Nullable(other), More("kind", Str("turn"), End)))
    ensures SubjectValue(ProposalSubject(other)) == Obj(More("id", Nullable(other), More("kind", Str("proposed_action"), End)))
    ensures SubjectValue(ReceiptSubject(other, scope))
         == Obj(More("id", Nullable(other), More("kind", Str("receipt"), More("scope", Nullable(scope), End))))
    ensures SubjectValue(ExecutionSubject(scope, other))
         == Obj(More("id", Null, More("kind", Str("tool_execution"),
                More("references", Obj(More("proposal", Nullable(other), End)), More("scope", Nullable(scope), End)))))
  {
  }
}
