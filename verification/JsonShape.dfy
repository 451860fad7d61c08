/**
 The two walks over an event before it is trusted: the explicit-stack shape check, which must
 cope with any finite object graph, and the recursive privacy walk that relies on it. Objects
 live in a heap and refer to each other by address, so sharing and cycles are possible.
 `str.lower` is a parameter.
 */
module JsonShape {
  import opened Prelude

  const MAX_DEPTH: nat := 32

  type Ref = nat

  datatype Key = Text(text: string) | OtherKey

  /** A container, a float, or any other immutable value by its text. */
  datatype Object = Dict(members: seq<(Key, Ref)>) | List(items: seq<Ref>) | Float(finite: bool, digits: string) | Scalar(text: string)

  type Heap = seq<Object>

  function Children(o: Object): (refs: seq<Ref>)
    ensures o.Dict? ==> |refs| == |o.members| && forall i :: 0 <= i < |refs| ==> refs[i] == o.members[i].1
    ensures o.List? ==> refs == o.items
  {
    match o
    case Dict(members) => seq(|members|, i requires 0 <= i < |members| => members[i].1)
    case List(items) => items
    case _ => []
  }

  /** No dangling references. */
  ghost predicate Closed(heap: Heap) {
    forall r, i :: 0 <= r < |heap| && 0 <= i < |Children(heap[r])| ==> Children(heap[r])[i] < |heap|
  }

  predicate Bad(o: Object) {
    match o
    case Dict(members) => exists i :: 0 <= i < |members| && members[i].0.OtherKey?
    case Float(finite, _) => !finite
    case _ => false
  }

  /** A path names a child by position at every step. */
  type Path = seq<nat>

  function Follow(heap: Heap, r: Ref, path: Path): (end: Option<Ref>)
    requires Closed(heap) && r < |heap|
    ensures end.Some? ==> end.value < |heap|
    decreases |path|
  {
    if path == [] then Some(r)
    else if path[0] < |Children(heap[r])| then Follow(heap, Children(heap[r])[path[0]], path[1..])
    else None
  }

  lemma {:induction false} FollowAppend(heap: Heap, r: Ref, p: Path, q: Path)
    requires Closed(heap) && r < |heap|
    ensures Follow(heap, r, p + q) == if Follow(heap, r, p).Some? then Follow(heap, Follow(heap, r, p).value, q) else None
    decreases |p|
  {
    if p == [] {
      assert p + q == q;
    } else {
      assert (p + q)[1..] == p[1..] + q;
      if p[0] < |Children(heap[r])| {
        FollowAppend(heap, Children(heap[r])[p[0]], p[1..], q);
      }
    }
  }

  ghost predicate IsPath(heap: Heap, r: Ref, path: Path)
    requires Closed(heap) && r < |heap|
  {
    Follow(heap, r, path).Some?
  }

  ghost predicate Faulty(limit: nat, heap: Heap, r: Ref, path: Path)
    requires Closed(heap) && r < |heap|
  {
    IsPath(heap, r, path) && (|path| > limit || Bad(heap[Follow(heap, r, path).value]))
  }

  /** Every path has at most `bound` steps. */
  ghost predicate Bounded(heap: Heap, r: Ref, bound: int)
    requires Closed(heap) && r < |heap|
  {
    forall path :: IsPath(heap, r, path) ==> |path| <= bound
  }

  ghost predicate Clean(heap: Heap, r: Ref)
    requires Closed(heap) && r < |heap|
  {
    forall path :: IsPath(heap, r, path) ==> !Bad(heap[Follow(heap, r, path).value])
  }

  /** What a clean value is: every key of every object is a string, and every float is finite. */
  lemma CleanMeans(heap: Heap, root: Ref)
    requires Closed(heap) && root < |heap|
    ensures Clean(heap, root) <==> forall path :: IsPath(heap, root, path) ==>
      match heap[Follow(heap, root, path).value]
      case Dict(members) => forall i :: 0 <= i < |members| ==> members[i].0 != OtherKey
      case Float(finite, _) => finite
      case _ => true
  {
  }

  // ---- the explicit stack -------------------------------------------------------------------

  datatype Visit = Visit(item: Ref, path: Path, depth: nat)

  /** The size of the tree that unfolding `r` to `budget` levels gives: what a visit can still cost. */
  ghost function Weight(heap: Heap, r: Ref, budget: nat): (w: nat)
    requires Closed(heap) && r < |heap|
    ensures w > 0
    decreases budget, 1, 0
  {
    if budget == 0 then 1 else 1 + Weights(heap, r, |Children(heap[r])|, budget - 1)
  }

  ghost function Weights(heap: Heap, r: Ref, n: nat, budget: nat): nat
    requires Closed(heap) && r < |heap| && n <= |Children(heap[r])|
    decreases budget, 2, n
  {
    if n == 0 then 0 else Weights(heap, r, n - 1, budget) + Weight(heap, Children(heap[r])[n - 1], budget)
  }

  ghost predicate GoodVisit(limit: nat, heap: Heap, root: Ref, v: Visit)
    requires Closed(heap) && root < |heap|
  {
    v.depth == |v.path| <= limit + 1 && Follow(heap, root, v.path) == Some(v.item)
  }

  ghost function StackWeight(limit: nat, heap: Heap, stack: seq<Visit>): nat
    requires Closed(heap)
    requires forall v :: v in stack ==> v.item < |heap| && v.depth <= limit + 1
  {
    if stack == [] then 0
    else
      var v := stack[|stack| - 1];
      StackWeight(limit, heap, stack[..|stack| - 1]) + Weight(heap, v.item, limit + 1 - v.depth)
  }

  /** The first `n` children of a visited object, ready to push. */
  function ChildVisits(heap: Heap, v: Visit, n: nat): (visits: seq<Visit>)
    requires v.item < |heap| && n <= |Children(heap[v.item])|
    ensures |visits| == n
    ensures forall i :: 0 <= i < n ==> visits[i] == Visit(Children(heap[v.item])[i], v.path + [i], v.depth + 1)
  {
    seq(n, i requires 0 <= i < n => Visit(Children(heap[v.item])[i], v.path + [i], v.depth + 1))
  }

  lemma {:induction false} PushedWeight(limit: nat, heap: Heap, stack: seq<Visit>, v: Visit, n: nat)
    requires Closed(heap) && v.item < |heap| && v.depth <= limit && n <= |Children(heap[v.item])|
    requires forall u :: u in stack ==> u.item < |heap| && u.depth <= limit + 1
    ensures StackWeight(limit, heap, stack + ChildVisits(heap, v, n)) == StackWeight(limit, heap, stack) + Weights(heap, v.item, n, limit - v.depth)
  {
    var visits := ChildVisits(heap, v, n);
    if n == 0 {
      assert stack + visits == stack;
    } else {
      PushedWeight(limit, heap, stack, v, n - 1);
      var shorter := stack + ChildVisits(heap, v, n - 1);
      assert stack + visits == shorter + [visits[n - 1]];
      OneMoreVisit(limit, heap, shorter, visits[n - 1]);
    }
  }

  lemma OneMoreVisit(limit: nat, heap: Heap, stack: seq<Visit>, v: Visit)
    requires Closed(heap) && v.item < |heap| && v.depth <= limit + 1
    requires forall u :: u in stack ==> u.item < |heap| && u.depth <= limit + 1
    ensures StackWeight(limit, heap, stack + [v]) == StackWeight(limit, heap, stack) + Weight(heap, v.item, limit + 1 - v.depth)
  {
    assert (stack + [v])[..|stack|] == stack;
  }

  /** What a visit pushes: the children of a container, or None for a value that is refused. */
  method Expand(heap: Heap, v: Visit) returns (pushed: Option<seq<Visit>>)
    requires Closed(heap) && v.item < |heap|
    ensures pushed.None? <==> Bad(heap[v.item])
    ensures pushed.Some? ==> pushed.value == ChildVisits(heap, v, |Children(heap[v.item])|)
  {
    var o, visits := heap[v.item], [];
    if o.Float? && !o.finite {
      return None;
    }
    for i := 0 to |Children(o)|
      invariant visits == ChildVisits(heap, v, i)
      invariant o.Dict? ==> forall k :: 0 <= k < i ==> !o.members[k].0.OtherKey?
    {
      if o.Dict? && o.members[i].0.OtherKey? {
        return None;
      }
      visits := visits + [Visit(Children(o)[i], v.path + [i], v.depth + 1)];
    }
    return Some(visits);
  }

  /** Every path that is not known to be fine still has a visit pending on it. */
  ghost predicate Pending(limit: nat, heap: Heap, root: Ref, stack: seq<Visit>)
    requires Closed(heap) && root < |heap|
  {
    forall path :: IsPath(heap, root, path) && |path| <= limit + 1 ==>
      !Faulty(limit, heap, root, path) || exists v :: v in stack && v.path <= path
  }

  lemma PathAfterPop(limit: nat, heap: Heap, root: Ref, rest: seq<Visit>, v: Visit, path: Path)
    requires Closed(heap) && root < |heap|
    requires GoodVisit(limit, heap, root, v) && v.depth <= limit && !Bad(heap[v.item])
    requires Faulty(limit, heap, root, path) && v.path <= path
    ensures exists u :: u in ChildVisits(heap, v, |Children(heap[v.item])|) && u.path <= path
  {
    var visits := ChildVisits(heap, v, |Children(heap[v.item])|);
    var tail := path[|v.path|..];
    assert path == v.path + tail;
    FollowAppend(heap, root, v.path, tail);
    assert tail == [] ==> path == v.path;
    var child := visits[tail[0]];
    assert child in visits && child.path <= path;
  }

  lemma PendingAfterPop(limit: nat, heap: Heap, root: Ref, rest: seq<Visit>, v: Visit)
    requires Closed(heap) && root < |heap|
    requires GoodVisit(limit, heap, root, v) && v.depth <= limit && !Bad(heap[v.item])
    requires Pending(limit, heap, root, rest + [v])
    ensures Pending(limit, heap, root, rest + ChildVisits(heap, v, |Children(heap[v.item])|))
  {
    var visits := ChildVisits(heap, v, |Children(heap[v.item])|);
    forall path | IsPath(heap, root, path) && |path| <= limit + 1 && Faulty(limit, heap, root, path)
      ensures exists u :: u in rest + visits && u.path <= path
    {
      var u :| u in rest + [v] && u.path <= path;
      if u in rest {
        assert u in rest + visits;
      } else {
        PathAfterPop(limit, heap, root, rest, v, path);
        var child :| child in visits && child.path <= path;
        assert child in rest + visits;
      }
    }
  }

  ghost predicate StackOk(limit: nat, heap: Heap, root: Ref, stack: seq<Visit>)
    requires Closed(heap) && root < |heap|
  {
    (forall v :: v in stack ==> GoodVisit(limit, heap, root, v)) && Pending(limit, heap, root, stack)
  }

  /** Replacing a visit by its children keeps every path covered ... */
  lemma AfterVisit(limit: nat, heap: Heap, root: Ref, rest: seq<Visit>, v: Visit)
    requires Closed(heap) && root < |heap|
    requires v.item < |heap| && StackOk(limit, heap, root, rest + [v]) && v.depth <= limit && !Bad(heap[v.item])
    ensures StackOk(limit, heap, root, rest + ChildVisits(heap, v, |Children(heap[v.item])|))
  {
    var visits := ChildVisits(heap, v, |Children(heap[v.item])|);
    assert v in rest + [v];
    VisitsGood(limit, heap, root, v);
    PendingAfterPop(limit, heap, root, rest, v);
    forall u | u in rest + visits ensures GoodVisit(limit, heap, root, u) {
      assert u in rest ==> u in rest + [v];
    }
  }

  ghost function StackCost(limit: nat, heap: Heap, root: Ref, stack: seq<Visit>): nat
    requires Closed(heap) && root < |heap| && StackOk(limit, heap, root, stack)
  {
    StackWeight(limit, heap, stack)
  }

  /** ... and leaves less to do. */
  lemma LessWeight(limit: nat, heap: Heap, root: Ref, rest: seq<Visit>, v: Visit)
    requires Closed(heap) && root < |heap| && v.item < |heap| && v.depth <= limit && !Bad(heap[v.item])
    requires StackOk(limit, heap, root, rest + [v])
    ensures var next := rest + ChildVisits(heap, v, |Children(heap[v.item])|);
            StackOk(limit, heap, root, next) && StackCost(limit, heap, root, next) < StackCost(limit, heap, root, rest + [v])
  {
    AfterVisit(limit, heap, root, rest, v);
    forall u | u in rest ensures u.item < |heap| && u.depth <= limit + 1 {
      assert u in rest + [v];
    }
    PushedWeight(limit, heap, rest, v, |Children(heap[v.item])|);
    OneMoreVisit(limit, heap, rest, v);
  }

  /** A visit that stops the walk shows a fault. */
  lemma VisitFault(limit: nat, heap: Heap, root: Ref, rest: seq<Visit>, v: Visit)
    requires Closed(heap) && root < |heap| && StackOk(limit, heap, root, rest + [v])
    ensures v.item < |heap|
    ensures v.depth > limit || Bad(heap[v.item]) ==> Faulty(limit, heap, root, v.path) && !(Bounded(heap, root, limit) && Clean(heap, root))
  {
    assert v in rest + [v];
    assert IsPath(heap, root, v.path);
  }

  /** The loop of the walk: the visit at which it stops, if it stops early. */
  method WalkLoop(heap: Heap, root: Ref, limit: nat) returns (stop: Option<Visit>, ghost rest: seq<Visit>)
    requires Closed(heap) && root < |heap|
    ensures stop.None? ==> StackOk(limit, heap, root, [])
    ensures stop.Some? ==> StackOk(limit, heap, root, rest + [stop.value]) && stop.value.item < |heap|
    ensures stop.Some? ==> stop.value.depth > limit || Bad(heap[stop.value.item])
  {
    var stack := [Visit(root, [], 0)];
    assert stack[0] in stack;
    while stack != []
      invariant StackOk(limit, heap, root, stack)
      decreases StackCost(limit, heap, root, stack)
    {
      var v := stack[|stack| - 1];
      rest := stack[..|stack| - 1];
      assert stack == rest + [v];
      VisitFault(limit, heap, root, rest, v);
      if v.depth > limit {
        return Some(v), rest;
      }
      var pushed := Expand(heap, v);
      if pushed.None? {
        return Some(v), rest;
      }
      LessWeight(limit, heap, root, rest, v);
      stack := stack[..|stack| - 1] + pushed.value;
    }
    return None, [];
  }

  /** The walk: None, or a path on which the value is not one the later walks can take. */
  method Walk(heap: Heap, root: Ref, limit: nat) returns (fault: Option<Path>)
    requires Closed(heap) && root < |heap|
    ensures fault.Some? ==> Faulty(limit, heap, root, fault.value)
    ensures fault.None? <==> Bounded(heap, root, limit) && Clean(heap, root)
  {
    var stop, rest := WalkLoop(heap, root, limit);
    match stop
    case Some(v) =>
      VisitFault(limit, heap, root, rest, v);
      return Some(v.path);
    case None =>
      NothingPending(limit, heap, root);
      return None;
  }

  /** `_json_shape_error`. */
  method JsonShapeError(heap: Heap, root: Ref) returns (fault: Option<Path>)
    requires Closed(heap) && root < |heap|
    ensures fault.Some? ==> Faulty(MAX_DEPTH, heap, root, fault.value)
    ensures fault.None? <==> Bounded(heap, root, 32) && Clean(heap, root)
  {
    fault := Walk(heap, root, MAX_DEPTH);
  }

  lemma VisitsGood(limit: nat, heap: Heap, root: Ref, v: Visit)
    requires Closed(heap) && root < |heap| && GoodVisit(limit, heap, root, v) && v.depth <= limit
    ensures forall u :: u in ChildVisits(heap, v, |Children(heap[v.item])|) ==> GoodVisit(limit, heap, root, u)
  {
    var visits := ChildVisits(heap, v, |Children(heap[v.item])|);
    forall i | 0 <= i < |visits| ensures GoodVisit(limit, heap, root, visits[i]) {
      FollowAppend(heap, root, v.path, [i]);
    }
  }

  lemma NothingPending(limit: nat, heap: Heap, root: Ref)
    requires Closed(heap) && root < |heap| && Pending(limit, heap, root, [])
    ensures Bounded(heap, root, limit) && Clean(heap, root)
  {
    forall path | IsPath(heap, root, path) ensures |path| <= limit {
      if |path| > limit {
        var start := path[..limit + 1];
        assert path == start + path[limit + 1..];
        FollowAppend(heap, root, start, path[limit + 1..]);
        assert Faulty(limit, heap, root, start);
      }
    }
  }

  // ---- what a passing walk is for -----------------------------------------------------------

  function Repeat(q: Path, n: nat): (p: Path)
    ensures |p| == n * |q|
  {
    if n == 0 then [] else q + Repeat(q, n - 1)
  }

  lemma {:induction false} FollowRepeat(heap: Heap, r: Ref, q: Path, n: nat)
    requires Closed(heap) && r < |heap| && Follow(heap, r, q) == Some(r)
    ensures Follow(heap, r, Repeat(q, n)) == Some(r)
  {
    if n > 0 {
      FollowRepeat(heap, r, q, n - 1);
      FollowAppend(heap, r, q, Repeat(q, n - 1));
    }
  }

  /** Nothing reachable from a value that passed the check contains itself. */
  lemma PassedIsAcyclic(heap: Heap, root: Ref, p: Path, q: Path)
    requires Closed(heap) && root < |heap| && Bounded(heap, root, MAX_DEPTH)
    requires IsPath(heap, root, p) && q != []
    ensures Follow(heap, Follow(heap, root, p).value, q) != Follow(heap, root, p)
  {
    var r := Follow(heap, root, p).value;
    if Follow(heap, r, q) == Some(r) {
      var n := MAX_DEPTH + 1;
      FollowRepeat(heap, r, q, n);
      FollowAppend(heap, root, p, Repeat(q, n));
      assert |Repeat(q, n)| >= n by { LongRepeat(q, n); }
      assert IsPath(heap, root, p + Repeat(q, n));
    }
  }

  lemma LongRepeat(q: Path, n: nat)
    requires q != []
    ensures |Repeat(q, n)| >= n
  {
    assert n * |q| >= n * 1;
  }

  // ---- the privacy walk ---------------------------------------------------------------------

  datatype Privacy = Privacy(lower: string -> string, prohibited: set<string>)

  predicate ProhibitedStep(privacy: Privacy, o: Object, i: nat)
    requires i < |Children(o)|
  {
    o.Dict? && o.members[i].0.Text? && privacy.lower(o.members[i].0.text) in privacy.prohibited
  }

  function Decimal(n: nat): string {
    if n < 10 then [('0' as int + n) as char] else Decimal(n / 10) + [('0' as int + n % 10) as char]
  }

  function StepText(o: Object, i: nat): string
    requires i < |Children(o)|
  {
    if o.Dict? then "." + (if o.members[i].0.Text? then o.members[i].0.text else "") else "[" + Decimal(i) + "]"
  }

  /** The text of a path, as the source writes it. */
  function Render(heap: Heap, r: Ref, prefix: string, path: Path): string
    requires Closed(heap) && r < |heap|
    decreases |path|
  {
    if path == [] || path[0] >= |Children(heap[r])| then prefix
    else Render(heap, Children(heap[r])[path[0]], prefix + StepText(heap[r], path[0]), path[1..])
  }

  function RenderAll(heap: Heap, r: Ref, prefix: string, paths: seq<Path>): (texts: seq<string>)
    requires Closed(heap) && r < |heap|
    ensures |texts| == |paths|
    ensures forall k :: 0 <= k < |paths| ==> texts[k] == Render(heap, r, prefix, paths[k])
  {
    seq(|paths|, k requires 0 <= k < |paths| => Render(heap, r, prefix, paths[k]))
  }

  function Below(i: nat, paths: seq<Path>): (longer: seq<Path>)
    ensures |longer| == |paths| && forall k :: 0 <= k < |paths| ==> longer[k] == [i] + paths[k]
  {
    seq(|paths|, k requires 0 <= k < |paths| => [i] + paths[k])
  }

  /** The paths of at most `budget` steps that end in a prohibited key, parents first, in member order. */
  ghost function Occurrences(privacy: Privacy, heap: Heap, r: Ref, budget: nat): seq<Path>
    requires Closed(heap) && r < |heap|
    decreases budget, 1, 0
  {
    if budget == 0 then [] else OccurrencesBelow(privacy, heap, r, |Children(heap[r])|, budget - 1)
  }

  /** Those through the first `n` children. */
  ghost function OccurrencesBelow(privacy: Privacy, heap: Heap, r: Ref, n: nat, rest: nat): seq<Path>
    requires Closed(heap) && r < |heap| && n <= |Children(heap[r])|
    decreases rest, 2, n
  {
    if n == 0 then []
    else
      OccurrencesBelow(privacy, heap, r, n - 1, rest)
      + OwnOccurrence(privacy, heap[r], n - 1)
      + Below(n - 1, Occurrences(privacy, heap, Children(heap[r])[n - 1], rest))
  }

  function OwnOccurrence(privacy: Privacy, o: Object, i: nat): seq<Path>
    requires i < |Children(o)|
  {
    if ProhibitedStep(privacy, o, i) then [[i]] else []
  }

  lemma ChildBounded(heap: Heap, r: Ref, i: nat, budget: int)
    requires Closed(heap) && r < |heap| && Bounded(heap, r, budget) && i < |Children(heap[r])|
    ensures Bounded(heap, Children(heap[r])[i], budget - 1) && budget >= 1
  {
    assert IsPath(heap, r, [i]);
    forall path | IsPath(heap, Children(heap[r])[i], path) ensures |path| <= budget - 1 {
      assert IsPath(heap, r, [i] + path);
    }
  }

  lemma NoChildren(heap: Heap, r: Ref)
    requires Closed(heap) && r < |heap| && Bounded(heap, r, 0)
    ensures Children(heap[r]) == []
  {
    assert Children(heap[r]) != [] ==> IsPath(heap, r, [0]);
  }

  /** A path of children whose last step is a prohibited key. */
  ghost predicate Occurs(privacy: Privacy, heap: Heap, r: Ref, path: Path)
    requires Closed(heap) && r < |heap|
    decreases |path|
  {
    && path != [] && path[0] < |Children(heap[r])|
    && if |path| == 1 then ProhibitedStep(privacy, heap[r], path[0])
       else Occurs(privacy, heap, Children(heap[r])[path[0]], path[1..])
  }

  /** `found` lists every occurrence once. */
  ghost predicate Exact(privacy: Privacy, heap: Heap, r: Ref, found: seq<Path>)
    requires Closed(heap) && r < |heap|
  {
    Distinct(found) && forall path :: path in found <==> Occurs(privacy, heap, r, path)
  }

  lemma {:induction false} OccurrencesExact(privacy: Privacy, heap: Heap, r: Ref, budget: nat)
    requires Closed(heap) && r < |heap| && Bounded(heap, r, budget)
    ensures Exact(privacy, heap, r, Occurrences(privacy, heap, r, budget))
    decreases budget, 1, 0
  {
    if budget > 0 {
      OccurrencesBelowExact(privacy, heap, r, |Children(heap[r])|, budget - 1);
      BelowAll(privacy, heap, r, OccurrencesBelow(privacy, heap, r, |Children(heap[r])|, budget - 1));
    } else {
      NoChildren(heap, r);
      BelowAll(privacy, heap, r, []);
    }
  }

  lemma BelowAll(privacy: Privacy, heap: Heap, r: Ref, found: seq<Path>)
    requires Closed(heap) && r < |heap|
    ensures ExactBelow(privacy, heap, r, |Children(heap[r])|, found) ==> Exact(privacy, heap, r, found)
    ensures Children(heap[r]) == [] ==> Exact(privacy, heap, r, [])
  {
  }

  /** `found` lists, once each, the occurrences below the first `n` children. */
  ghost predicate ExactBelow(privacy: Privacy, heap: Heap, r: Ref, n: nat, found: seq<Path>)
    requires Closed(heap) && r < |heap|
  {
    Distinct(found) && forall path :: path in found <==> Occurs(privacy, heap, r, path) && path[0] < n
  }

  lemma {:induction false} OccurrencesBelowExact(privacy: Privacy, heap: Heap, r: Ref, n: nat, rest: nat)
    requires Closed(heap) && r < |heap| && Bounded(heap, r, rest + 1) && n <= |Children(heap[r])|
    ensures ExactBelow(privacy, heap, r, n, OccurrencesBelow(privacy, heap, r, n, rest))
    decreases rest, 2, n
  {
    if n > 0 {
      var i, child := n - 1, Children(heap[r])[n - 1];
      OccurrencesBelowExact(privacy, heap, r, i, rest);
      ChildBounded(heap, r, i, rest + 1);
      OccurrencesExact(privacy, heap, child, rest);
      var before, inner := OccurrencesBelow(privacy, heap, r, i, rest), Occurrences(privacy, heap, child, rest);
      CombineExact(privacy, heap, r, i, before, inner);
      assert OccurrencesBelow(privacy, heap, r, n, rest) == before + OwnOccurrence(privacy, heap[r], i) + Below(i, inner);
    }
  }

  lemma CombineExact(privacy: Privacy, heap: Heap, r: Ref, i: nat, before: seq<Path>, inner: seq<Path>)
    requires Closed(heap) && r < |heap| && i < |Children(heap[r])|
    requires ExactBelow(privacy, heap, r, i, before) && Exact(privacy, heap, Children(heap[r])[i], inner)
    ensures ExactBelow(privacy, heap, r, i + 1, before + OwnOccurrence(privacy, heap[r], i) + Below(i, inner))
  {
    var own := OwnOccurrence(privacy, heap[r], i);
    ThroughChild(privacy, heap, r, i, inner);
    DistinctParts(before, own, Below(i, inner), i);
    ExactParts(privacy, heap, r, i, before, own, Below(i, inner));
  }

  lemma ExactParts(privacy: Privacy, heap: Heap, r: Ref, i: nat, before: seq<Path>, own: seq<Path>, inner: seq<Path>)
    requires Closed(heap) && r < |heap| && i < |Children(heap[r])|
    requires forall path :: path in before <==> Occurs(privacy, heap, r, path) && path[0] < i
    requires own == OwnOccurrence(privacy, heap[r], i)
    requires forall path :: path in inner <==> Occurs(privacy, heap, r, path) && path[0] == i && |path| > 1
    ensures forall path :: path in before + own + inner <==> Occurs(privacy, heap, r, path) && path[0] < i + 1
  {
    forall path ensures path in before + own + inner <==> Occurs(privacy, heap, r, path) && path[0] < i + 1 {
      assert path in before + own + inner <==> path in before || path in own || path in inner;
      if path in own {
        assert path == [i];
      }
      if Occurs(privacy, heap, r, path) && path[0] == i && |path| == 1 {
        assert path == [i];
      }
    }
  }

  lemma ThroughChild(privacy: Privacy, heap: Heap, r: Ref, i: nat, inner: seq<Path>)
    requires Closed(heap) && r < |heap| && i < |Children(heap[r])|
    requires forall path :: path in inner <==> Occurs(privacy, heap, Children(heap[r])[i], path)
    requires Distinct(inner)
    ensures forall path :: path in Below(i, inner) <==> Occurs(privacy, heap, r, path) && path[0] == i && |path| > 1
    ensures Distinct(Below(i, inner))
  {
    var longer := Below(i, inner);
    forall path ensures path in longer <==> Occurs(privacy, heap, r, path) && path[0] == i && |path| > 1 {
      if path in longer {
        var k :| 0 <= k < |longer| && longer[k] == path;
        assert inner[k] in inner && path[1..] == inner[k];
      }
      if Occurs(privacy, heap, r, path) && path[0] == i && |path| > 1 {
        assert path[1..] in inner;
        var k :| 0 <= k < |inner| && inner[k] == path[1..];
        assert longer[k] == path;
      }
    }
    forall j, k | 0 <= j < k < |longer| ensures longer[j] != longer[k] {
      assert longer[j][1..] == inner[j] && longer[k][1..] == inner[k];
    }
  }

  lemma DistinctParts(before: seq<Path>, own: seq<Path>, inner: seq<Path>, i: nat)
    requires Distinct(before) && Distinct(inner)
    requires forall path :: path in before ==> path != [] && path[0] < i
    requires own == [] || own == [[i]]
    requires forall path :: path in inner ==> |path| > 1 && path[0] == i
    ensures Distinct(before + own + inner)
  {
    var all := before + own + inner;
    forall j, k | 0 <= j < k < |all| ensures all[j] != all[k] {
      if k < |before| {
      } else if j < |before| {
        assert all[j] in before;
        assert all[k] == [i] || all[k] in inner;
      } else if j >= |before| + |own| {
      } else {
        assert all[j] == [i] && all[k] in inner;
      }
    }
  }

  lemma RenderParts(heap: Heap, r: Ref, prefix: string, a: seq<Path>, b: seq<Path>)
    requires Closed(heap) && r < |heap|
    ensures RenderAll(heap, r, prefix, a + b) == RenderAll(heap, r, prefix, a) + RenderAll(heap, r, prefix, b)
  {
  }

  lemma RenderBelow(heap: Heap, r: Ref, prefix: string, i: nat, paths: seq<Path>)
    requires Closed(heap) && r < |heap| && i < |Children(heap[r])|
    ensures RenderAll(heap, r, prefix, Below(i, paths))
         == RenderAll(heap, Children(heap[r])[i], prefix + StepText(heap[r], i), paths)
  {
    forall k | 0 <= k < |paths|
      ensures Render(heap, r, prefix, Below(i, paths)[k]) == Render(heap, Children(heap[r])[i], prefix + StepText(heap[r], i), paths[k])
    {
      assert ([i] + paths[k])[1..] == paths[k];
    }
  }

  lemma RenderStep(privacy: Privacy, heap: Heap, r: Ref, prefix: string, i: nat, before: seq<Path>, inner: seq<Path>)
    requires Closed(heap) && r < |heap| && i < |Children(heap[r])|
    ensures var text := prefix + StepText(heap[r], i);
            RenderAll(heap, r, prefix, before + OwnOccurrence(privacy, heap[r], i) + Below(i, inner))
            == RenderAll(heap, r, prefix, before)
             + (if ProhibitedStep(privacy, heap[r], i) then [text] else [])
             + RenderAll(heap, Children(heap[r])[i], text, inner)
  {
    var own := OwnOccurrence(privacy, heap[r], i);
    RenderParts(heap, r, prefix, before + own, Below(i, inner));
    RenderParts(heap, r, prefix, before, own);
    RenderBelow(heap, r, prefix, i, inner);
    if own != [] {
      assert Render(heap, r, prefix, [i]) == prefix + StepText(heap[r], i);
    }
  }

  /** What the walk collects under `r`. */
  ghost function Texts(privacy: Privacy, heap: Heap, r: Ref, prefix: string, budget: nat): seq<string>
    requires Closed(heap) && r < |heap|
    decreases budget, 1, 0
  {
    if budget == 0 then [] else TextsBelow(privacy, heap, r, prefix, |Children(heap[r])|, budget - 1)
  }

  ghost function TextsBelow(privacy: Privacy, heap: Heap, r: Ref, prefix: string, n: nat, rest: nat): seq<string>
    requires Closed(heap) && r < |heap| && n <= |Children(heap[r])|
    decreases rest, 2, n
  {
    if n == 0 then []
    else
      var path := prefix + StepText(heap[r], n - 1);
      TextsBelow(privacy, heap, r, prefix, n - 1, rest)
      + (if ProhibitedStep(privacy, heap[r], n - 1) then [path] else [])
      + Texts(privacy, heap, Children(heap[r])[n - 1], path, rest)
  }

  lemma OccurrencesNext(privacy: Privacy, heap: Heap, r: Ref, i: nat, rest: nat)
    requires Closed(heap) && r < |heap| && i < |Children(heap[r])|
    ensures OccurrencesBelow(privacy, heap, r, i + 1, rest)
         == OccurrencesBelow(privacy, heap, r, i, rest) + OwnOccurrence(privacy, heap[r], i)
          + Below(i, Occurrences(privacy, heap, Children(heap[r])[i], rest))
  {
  }

  lemma TextsNext(privacy: Privacy, heap: Heap, r: Ref, prefix: string, i: nat, rest: nat)
    requires Closed(heap) && r < |heap| && i < |Children(heap[r])|
    ensures TextsBelow(privacy, heap, r, prefix, i + 1, rest)
         == TextsBelow(privacy, heap, r, prefix, i, rest)
          + (if ProhibitedStep(privacy, heap[r], i) then [prefix + StepText(heap[r], i)] else [])
          + Texts(privacy, heap, Children(heap[r])[i], prefix + StepText(heap[r], i), rest)
  {
  }

  /** They are the texts of the occurrences. */
  lemma {:induction false} TextsRender(privacy: Privacy, heap: Heap, r: Ref, prefix: string, budget: nat)
    requires Closed(heap) && r < |heap|
    ensures Texts(privacy, heap, r, prefix, budget) == RenderAll(heap, r, prefix, Occurrences(privacy, heap, r, budget))
    decreases budget, 1, 0
  {
    if budget > 0 {
      TextsBelowRender(privacy, heap, r, prefix, |Children(heap[r])|, budget - 1);
    }
  }

  lemma {:induction false} TextsBelowRender(privacy: Privacy, heap: Heap, r: Ref, prefix: string, n: nat, rest: nat)
    requires Closed(heap) && r < |heap| && n <= |Children(heap[r])|
    ensures TextsBelow(privacy, heap, r, prefix, n, rest) == RenderAll(heap, r, prefix, OccurrencesBelow(privacy, heap, r, n, rest))
    decreases rest, 2, n
  {
    if n > 0 {
      var i := n - 1;
      var child, path := Children(heap[r])[i], prefix + StepText(heap[r], i);
      TextsBelowRender(privacy, heap, r, prefix, i, rest);
      TextsRender(privacy, heap, child, path, rest);
      OccurrencesNext(privacy, heap, r, i, rest);
      TextsNext(privacy, heap, r, prefix, i, rest);
      RenderStep(privacy, heap, r, prefix, i, OccurrencesBelow(privacy, heap, r, i, rest), Occurrences(privacy, heap, child, rest));
    }
  }

  /**
   `_prohibited_paths`: one text per occurrence, in order. `budget` bounds the remaining depth, so
   a value that passed the check with depth 32 costs at most 33 nested calls.
   */
  method ProhibitedPaths(privacy: Privacy, heap: Heap, r: Ref, prefix: string, ghost budget: nat) returns (found: seq<string>)
    requires Closed(heap) && r < |heap| && Bounded(heap, r, budget)
    ensures found == Texts(privacy, heap, r, prefix, budget)
    decreases budget
  {
    found := [];
    ghost var rest := if budget == 0 then 0 else budget - 1;
    var o := heap[r];
    if budget == 0 {
      NoChildren(heap, r);
    }
    for i := 0 to |Children(o)|
      invariant budget == 0 ==> Children(o) == []
      invariant found == TextsBelow(privacy, heap, r, prefix, i, rest)
    {
      var path := prefix + StepText(o, i);
      var own := if ProhibitedStep(privacy, o, i) then [path] else [];
      ChildBounded(heap, r, i, budget);
      var inner := ProhibitedPaths(privacy, heap, Children(o)[i], path, rest);
      TextsNext(privacy, heap, r, prefix, i, rest);
      found := found + own + inner;
    }
  }

  /** `found` is the text of every occurrence, each exactly once. */
  ghost predicate Reports(privacy: Privacy, heap: Heap, root: Ref, found: seq<string>)
    requires Closed(heap) && root < |heap|
  {
    exists paths: seq<Path> ::
      && Distinct(paths)
      && (forall path :: path in paths <==> Occurs(privacy, heap, root, path))
      && found == RenderAll(heap, root, "$", paths)
  }

  method WalkTwice(privacy: Privacy, heap: Heap, root: Ref, limit: nat) returns (r: Result<seq<string>, Path>)
    requires Closed(heap) && root < |heap|
    ensures r.Ok? <==> Bounded(heap, root, limit) && Clean(heap, root)
    ensures r.Ok? ==> Reports(privacy, heap, root, r.value)
  {
    var fault := Walk(heap, root, limit);
    if fault.Some? {
      return Err(fault.value);
    }
    var found := ProhibitedPaths(privacy, heap, root, "$", limit);
    OccurrencesExact(privacy, heap, root, limit);
    TextsRender(privacy, heap, root, "$", limit);
    return Ok(found);
  }

  /** The last step of the path is a member of an object whose key, in lower case, is prohibited. */
  ghost predicate FindsAt(privacy: Privacy, heap: Heap, root: Ref, path: Path)
    requires Closed(heap) && root < |heap|
  {
    && path != []
    && var n := |path| - 1;
       && Follow(heap, root, path[..n]).Some?
       && var o := heap[Follow(heap, root, path[..n]).value];
          && o.Dict? && path[n] < |o.members|
          && o.members[path[n]].0.Text? && privacy.lower(o.members[path[n]].0.text) in privacy.prohibited
  }

  /** Descending to an occurrence step by step is following its path to the object and looking at the key. */
  lemma {:induction false} OccursIffFound(privacy: Privacy, heap: Heap, root: Ref, path: Path)
    requires Closed(heap) && root < |heap|
    ensures Occurs(privacy, heap, root, path) <==> FindsAt(privacy, heap, root, path)
    decreases |path|
  {
    if |path| == 1 {
      assert path[..0] == [];
    } else if |path| > 1 && path[0] < |Children(heap[root])| {
      var n := |path| - 1;
      OccursIffFound(privacy, heap, Children(heap[root])[path[0]], path[1..]);
      assert path[..n][1..] == path[1..][..n - 1] && path[..n][0] == path[0] && path[1..][n - 1] == path[n];
    } else if |path| > 1 {
      assert Follow(heap, root, path[..|path| - 1]) == None;
    }
  }

  /** The text of a member or item is the text of its container and its own step. */
  lemma {:induction false} RenderLast(heap: Heap, r: Ref, prefix: string, path: Path, i: nat)
    requires Closed(heap) && r < |heap| && IsPath(heap, r, path)
    requires var o := heap[Follow(heap, r, path).value]; i < |Children(o)| && (o.Dict? ==> o.members[i].0.Text?)
    ensures var o := heap[Follow(heap, r, path).value];
            Render(heap, r, prefix, path + [i]) == Render(heap, r, prefix, path) + if o.Dict? then "." + o.members[i].0.text else "[" + Decimal(i) + "]"
    decreases |path|
  {
    if path == [] {
      assert path + [i] == [i];
    } else {
      assert (path + [i])[0] == path[0] && (path + [i])[1..] == path[1..] + [i];
      RenderLast(heap, Children(heap[r])[path[0]], prefix + StepText(heap[r], path[0]), path[1..], i);
    }
  }

  function DecimalValue(text: string): nat
    requires forall i :: 0 <= i < |text| ==> '0' <= text[i] <= '9'
  {
    if text == "" then 0 else 10 * DecimalValue(text[..|text| - 1]) + (text[|text| - 1] as int - '0' as int)
  }

  /** A position is printed in decimal, without leading zeros. */
  lemma {:induction false} DecimalReads(n: nat)
    ensures var text := Decimal(n);
            && text != "" && (forall i :: 0 <= i < |text| ==> '0' <= text[i] <= '9')
            && DecimalValue(text) == n && (|text| > 1 ==> text[0] != '0')
  {
    if n < 10 {
      assert Decimal(n)[..0] == "";
    } else {
      DecimalReads(n / 10);
      var text, before := Decimal(n), Decimal(n / 10);
      assert text[..|text| - 1] == before && text[0] == before[0];
      if |before| == 1 {
        assert before[..0] == "" && DecimalValue(before) == before[0] as int - '0' as int;
      }
    }
  }

  /** The findings are the texts of the paths that end in a prohibited key, and only those. */
  lemma FindingsMean(privacy: Privacy, heap: Heap, root: Ref, found: seq<string>)
    requires Closed(heap) && root < |heap| && Reports(privacy, heap, root, found)
    ensures forall path :: FindsAt(privacy, heap, root, path) ==> Render(heap, root, "$", path) in found
    ensures forall text :: text in found ==> exists path :: FindsAt(privacy, heap, root, path) && text == Render(heap, root, "$", path)
  {
    var paths: seq<Path> :|
      && Distinct(paths)
      && (forall path :: path in paths <==> Occurs(privacy, heap, root, path))
      && found == RenderAll(heap, root, "$", paths);
    forall path | FindsAt(privacy, heap, root, path) ensures Render(heap, root, "$", path) in found {
      OccursIffFound(privacy, heap, root, path);
      var k :| 0 <= k < |paths| && paths[k] == path;
      assert found[k] == Render(heap, root, "$", path);
    }
    forall text | text in found ensures exists path :: FindsAt(privacy, heap, root, path) && text == Render(heap, root, "$", path) {
      var k :| 0 <= k < |found| && found[k] == text;
      assert paths[k] in paths;
      OccursIffFound(privacy, heap, root, paths[k]);
    }
  }

  /** Equal but for the case of keys. */
  ghost predicate SameButCase(lower: string -> string, a: Object, b: Object) {
    if a.Dict? && b.Dict? then
      |a.members| == |b.members| && forall i :: 0 <= i < |a.members| ==>
        && a.members[i].1 == b.members[i].1
        && (a.members[i].0.Text? <==> b.members[i].0.Text?)
        && (a.members[i].0.Text? ==> lower(a.members[i].0.text) == lower(b.members[i].0.text))
    else a == b
  }

  lemma {:induction false} SameFollow(lower: string -> string, a: Heap, b: Heap, r: Ref, path: Path)
    requires Closed(a) && Closed(b) && r < |a| == |b| && forall q :: 0 <= q < |a| ==> SameButCase(lower, a[q], b[q])
    ensures Follow(a, r, path) == Follow(b, r, path)
    decreases |path|
  {
    assert SameButCase(lower, a[r], b[r]);
    assert Children(a[r]) == Children(b[r]);
    if path != [] && path[0] < |Children(a[r])| {
      SameFollow(lower, a, b, Children(a[r])[path[0]], path[1..]);
    }
  }

  /** How keys are written in upper and lower case does not matter. */
  lemma CaseDoesNotMatter(privacy: Privacy, a: Heap, b: Heap, root: Ref, path: Path)
    requires Closed(a) && Closed(b) && root < |a| == |b| && forall q :: 0 <= q < |a| ==> SameButCase(privacy.lower, a[q], b[q])
    ensures FindsAt(privacy, a, root, path) <==> FindsAt(privacy, b, root, path)
    ensures Occurs(privacy, a, root, path) <==> Occurs(privacy, b, root, path)
  {
    OccursIffFound(privacy, a, root, path);
    OccursIffFound(privacy, b, root, path);
    if path != [] {
      var start := path[..|path| - 1];
      SameFollow(privacy.lower, a, b, root, start);
      if Follow(a, root, start).Some? {
        var r := Follow(a, root, start).value;
        assert SameButCase(privacy.lower, a[r], b[r]);
      }
    }
  }

  /** The two walks together, as the validator runs them. */
  method CheckPrivacy(privacy: Privacy, heap: Heap, root: Ref) returns (r: Result<seq<string>, Path>)
    requires Closed(heap) && root < |heap|
    ensures r.Ok? <==> Bounded(heap, root, 32) && Clean(heap, root)
    ensures r.Ok? ==> Reports(privacy, heap, root, r.value)
    ensures r.Ok? ==> forall path :: FindsAt(privacy, heap, root, path) ==> Render(heap, root, "$", path) in r.value
    ensures r.Ok? && r.value != [] ==> exists path :: FindsAt(privacy, heap, root, path)
  {
    r := WalkTwice(privacy, heap, root, MAX_DEPTH);
    if r.Ok? {
      FindingsMean(privacy, heap, root, r.value);
      assert r.value != [] ==> r.value[0] in r.value;
    }
  }
}
