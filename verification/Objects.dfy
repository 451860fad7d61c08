/**
 The objects of the interpreter: a heap graph, what a reference into it shows, `deepcopy`, and
 what code that holds only some references can do to it.

 Immutable values get cells like containers; whether two of them are one object cannot be
 observed, so copying such a cell changes nothing.
 */
module Objects {
  import opened JsonShape
  import opened Prelude

  // ---- what a reference shows ---------------------------------------------------------------

  /** An object without its children. */
  datatype Form = DictForm(keys: seq<Key>) | ListForm | FloatForm(finite: bool, digits: string) | ScalarForm(text: string)

  function FormOf(o: Object): Form {
    match o
    case Dict(members) => DictForm(seq(|members|, i requires 0 <= i < |members| => members[i].0))
    case List(_) => ListForm
    case Float(finite, digits) => FloatForm(finite, digits)
    case Scalar(text) => ScalarForm(text)
  }

  /** An unfolded value; `Cut` stands where the unfolding stops. */
  datatype Json = Node(form: Form, parts: seq<Json>) | Cut

  /** The value at `r`, unfolded to `depth` levels. */
  function Tree(heap: Heap, r: Ref, depth: nat): Json
    requires Closed(heap) && r < |heap|
    decreases depth
  {
    if depth == 0 then Cut
    else
      var refs := Children(heap[r]);
      Node(FormOf(heap[r]), seq(|refs|, i requires 0 <= i < |refs| => Tree(heap, refs[i], depth - 1)))
  }

  predicate GoodForm(form: Form) {
    match form
    case DictForm(keys) => forall i :: 0 <= i < |keys| ==> keys[i].Text?
    case FloatForm(finite, _) => finite
    case _ => true
  }

  /** Nothing was cut off, every key is a string and every float finite. */
  predicate Fits(t: Json) {
    t.Node? && GoodForm(t.form) && forall i :: 0 <= i < |t.parts| ==> Fits(t.parts[i])
  }

  ghost predicate GoodBelow(heap: Heap, r: Ref, depth: nat)
    requires Closed(heap) && r < |heap|
  {
    Bounded(heap, r, depth) && Clean(heap, r)
  }

  lemma GoodFormMeans(o: Object)
    ensures GoodForm(FormOf(o)) <==> !Bad(o)
  {
    if o.Dict? {
      assert forall i :: 0 <= i < |o.members| ==> FormOf(o).keys[i] == o.members[i].0;
    }
  }

  /** The shape check on the graph is a check on the unfolded value. */
  lemma {:induction false} FitsIffGood(heap: Heap, r: Ref, depth: nat)
    requires Closed(heap) && r < |heap|
    ensures Fits(Tree(heap, r, depth + 1)) <==> GoodBelow(heap, r, depth)
    decreases depth
  {
    GoodFormMeans(heap[r]);
    GoodNode(heap, r, depth);
    var t, refs := Tree(heap, r, depth + 1), Children(heap[r]);
    assert t.parts == seq(|refs|, i requires 0 <= i < |refs| => Tree(heap, refs[i], depth));
    if depth > 0 {
      forall i | 0 <= i < |refs| ensures Fits(t.parts[i]) <==> GoodBelow(heap, refs[i], depth - 1) {
        FitsIffGood(heap, refs[i], depth - 1);
      }
    } else if refs != [] {
      assert !Fits(t.parts[0]);
    }
  }

  lemma GoodNode(heap: Heap, r: Ref, depth: nat)
    requires Closed(heap) && r < |heap|
    ensures GoodBelow(heap, r, depth) <==>
      && !Bad(heap[r])
      && if depth == 0 then Children(heap[r]) == []
         else forall i :: 0 <= i < |Children(heap[r])| ==> GoodBelow(heap, Children(heap[r])[i], depth - 1)
  {
    if GoodBelow(heap, r, depth) {
      assert IsPath(heap, r, []);
      if depth == 0 {
        NoChildren(heap, r);
      } else {
        forall i | 0 <= i < |Children(heap[r])| ensures GoodBelow(heap, Children(heap[r])[i], depth - 1) {
          ChildGood(heap, r, depth, i);
        }
      }
    } else if !Bad(heap[r]) {
      PathThroughChild(heap, r, depth);
    }
  }

  lemma ChildGood(heap: Heap, r: Ref, depth: nat, i: nat)
    requires Closed(heap) && r < |heap| && depth > 0 && i < |Children(heap[r])| && GoodBelow(heap, r, depth)
    ensures GoodBelow(heap, Children(heap[r])[i], depth - 1)
  {
    ChildBounded(heap, r, i, depth);
    forall path | IsPath(heap, Children(heap[r])[i], path) ensures !Bad(heap[Follow(heap, Children(heap[r])[i], path).value]) {
      assert ([i] + path)[1..] == path;
      assert IsPath(heap, r, [i] + path);
    }
  }

  /** A fault below `r` is a fault below one of its children. */
  lemma PathThroughChild(heap: Heap, r: Ref, depth: nat)
    requires Closed(heap) && r < |heap| && !Bad(heap[r]) && !GoodBelow(heap, r, depth)
    ensures Children(heap[r]) != []
    ensures depth > 0 ==> exists i :: 0 <= i < |Children(heap[r])| && !GoodBelow(heap, Children(heap[r])[i], depth - 1)
  {
    var path :| IsPath(heap, r, path) && (|path| > depth || Bad(heap[Follow(heap, r, path).value]));
    assert path != [];
    var child := Children(heap[r])[path[0]];
    assert IsPath(heap, child, path[1..]);
  }

  lemma SameParts(a: Heap, r: Ref, b: Heap, q: Ref, depth: nat)
    requires Closed(a) && Closed(b) && r < |a| && q < |b| && depth > 0
    requires FormOf(a[r]) == FormOf(b[q]) && |Children(a[r])| == |Children(b[q])|
    requires forall i :: 0 <= i < |Children(a[r])| ==> Tree(a, Children(a[r])[i], depth - 1) == Tree(b, Children(b[q])[i], depth - 1)
    ensures Tree(a, r, depth) == Tree(b, q, depth)
  {
  }

  /** `part` is closed under references, and the two heaps agree on it. */
  ghost predicate Agree(a: Heap, b: Heap, part: set<Ref>) {
    forall q :: q in part ==> q < |a| && q < |b| && a[q] == b[q] && forall i :: 0 <= i < |Children(a[q])| ==> Children(a[q])[i] in part
  }

  /** Heaps that agree on a part show the same values there. */
  lemma {:induction false} TreeFrame(a: Heap, b: Heap, part: set<Ref>, r: Ref, depth: nat)
    requires Closed(a) && Closed(b) && Agree(a, b, part) && r in part
    ensures Tree(a, r, depth) == Tree(b, r, depth)
    decreases depth
  {
    if depth > 0 {
      forall i | 0 <= i < |Children(a[r])| ensures Tree(a, Children(a[r])[i], depth - 1) == Tree(b, Children(a[r])[i], depth - 1) {
        TreeFrame(a, b, part, Children(a[r])[i], depth - 1);
      }
      SameParts(a, r, b, r, depth);
    }
  }

  // ---- deepcopy -----------------------------------------------------------------------------

  /** From `base` on every object refers only to older objects that are also new. */
  ghost predicate NewFrom(heap: Heap, base: nat) {
    && base <= |heap|
    && forall r, i :: base <= r < |heap| && 0 <= i < |Children(heap[r])| ==> base <= Children(heap[r])[i] < r
  }

  /** The objects before `base` refer only to each other. */
  ghost predicate OldUpTo(heap: Heap, base: nat) {
    base <= |heap| && forall r, i :: 0 <= r < base && 0 <= i < |Children(heap[r])| ==> Children(heap[r])[i] < base
  }

  /** Equal values to every depth. */
  ghost predicate SameValue(heap: Heap, a: Ref, b: Ref)
    requires Closed(heap) && a < |heap| && b < |heap|
  {
    forall depth: nat :: Tree(heap, a, depth) == Tree(heap, b, depth)
  }

  /** What the memo of a copy in progress says. */
  ghost predicate Copies(heap: Heap, base: nat, memo: map<Ref, Ref>)
    requires Closed(heap)
  {
    forall r :: r in memo ==> r < base && base <= memo[r] < |heap| && base <= |heap| && SameValue(heap, memo[r], r)
  }

  lemma SplitClosed(heap: Heap, base: nat)
    requires OldUpTo(heap, base) && NewFrom(heap, base)
    ensures Closed(heap)
  {
  }

  /** New objects leave old values as they are. */
  lemma {:induction false} ValuesStay(a: Heap, b: Heap, r: Ref, depth: nat)
    requires Closed(a) && Closed(b) && a <= b && r < |a|
    ensures Tree(a, r, depth) == Tree(b, r, depth)
    decreases depth
  {
    if depth > 0 {
      forall i | 0 <= i < |Children(a[r])| ensures Tree(a, Children(a[r])[i], depth - 1) == Tree(b, Children(a[r])[i], depth - 1) {
        ValuesStay(a, b, Children(a[r])[i], depth - 1);
      }
      SameParts(a, r, b, r, depth);
    }
  }

  lemma SameValueStays(a: Heap, b: Heap, x: Ref, y: Ref)
    requires Closed(a) && Closed(b) && a <= b && x < |a| && y < |a| && SameValue(a, x, y)
    ensures SameValue(b, x, y)
  {
    forall depth: nat ensures Tree(b, x, depth) == Tree(b, y, depth) {
      ValuesStay(a, b, x, depth);
      ValuesStay(a, b, y, depth);
    }
  }

  lemma CopiesStay(a: Heap, b: Heap, base: nat, memo: map<Ref, Ref>)
    requires Closed(a) && Closed(b) && a <= b && base <= |a| && Copies(a, base, memo)
    ensures Copies(b, base, memo)
  {
    forall r | r in memo ensures SameValue(b, memo[r], r) {
      SameValueStays(a, b, memo[r], r);
    }
  }

  lemma {:induction false} NewStaysNew(heap: Heap, base: nat, r: Ref, path: Path)
    requires Closed(heap) && NewFrom(heap, base) && base <= r < |heap|
    ensures Follow(heap, r, path).Some? ==> base <= Follow(heap, r, path).value
    decreases |path|
  {
    if path != [] && path[0] < |Children(heap[r])| {
      NewStaysNew(heap, base, Children(heap[r])[path[0]], path[1..]);
    }
  }

  lemma {:induction false} OldStaysOld(heap: Heap, base: nat, r: Ref, path: Path)
    requires Closed(heap) && OldUpTo(heap, base) && r < base
    ensures Follow(heap, r, path).Some? ==> Follow(heap, r, path).value < base
    decreases |path|
  {
    if path != [] && path[0] < |Children(heap[r])| {
      OldStaysOld(heap, base, Children(heap[r])[path[0]], path[1..]);
    }
  }

  /** What a copy reaches and what older objects reach have nothing in common. */
  lemma CopiesAreDisjoint(heap: Heap, base: nat, copy: Ref, r: Ref, p: Path, q: Path)
    requires Closed(heap) && OldUpTo(heap, base) && NewFrom(heap, base) && r < base <= copy < |heap|
    requires IsPath(heap, copy, p) && IsPath(heap, r, q)
    ensures Follow(heap, copy, p) != Follow(heap, r, q)
  {
    NewStaysNew(heap, base, copy, p);
    OldStaysOld(heap, base, r, q);
  }

  /** `o` with other children. */
  function WithChildren(o: Object, refs: seq<Ref>): (copy: Object)
    requires |refs| == |Children(o)|
    ensures FormOf(copy) == FormOf(o) && Children(copy) == refs
  {
    match o
    case Dict(members) =>
      var copy := Dict(seq(|members|, i requires 0 <= i < |members| => (members[i].0, refs[i])));
      assert FormOf(copy).keys == FormOf(o).keys && Children(copy) == refs;
      copy
    case List(_) => List(refs)
    case _ => assert refs == []; o
  }

  /** The copies of the first children of a node. */
  ghost predicate CopiedChildren(heap: Heap, base: nat, children: seq<Ref>, refs: seq<Ref>)
    requires Closed(heap)
  {
    && base <= |heap| && |refs| <= |children|
    && forall i :: 0 <= i < |refs| ==> children[i] < |heap| && base <= refs[i] < |heap| && SameValue(heap, refs[i], children[i])
  }

  lemma CopiedChildrenStay(a: Heap, b: Heap, base: nat, children: seq<Ref>, refs: seq<Ref>)
    requires Closed(a) && Closed(b) && a <= b && CopiedChildren(a, base, children, refs)
    ensures CopiedChildren(b, base, children, refs)
  {
    forall i | 0 <= i < |refs| ensures SameValue(b, refs[i], children[i]) {
      SameValueStays(a, b, refs[i], children[i]);
    }
  }

  lemma CopiedOneMore(heap: Heap, base: nat, children: seq<Ref>, refs: seq<Ref>, ref: Ref)
    requires Closed(heap) && CopiedChildren(heap, base, children, refs) && |refs| < |children|
    requires children[|refs|] < |heap| && base <= ref < |heap| && SameValue(heap, ref, children[|refs|])
    ensures CopiedChildren(heap, base, children, refs + [ref])
  {
  }

  /** A new object over copied children is a copy. */
  lemma CopiedNode(heap: Heap, base: nat, r: Ref, refs: seq<Ref>)
    requires OldUpTo(heap, base) && NewFrom(heap, base) && Closed(heap) && r < base
    requires CopiedChildren(heap, base, Children(heap[r]), refs) && |refs| == |Children(heap[r])|
    ensures var longer := heap + [WithChildren(heap[r], refs)];
            Closed(longer) && NewFrom(longer, base) && OldUpTo(longer, base) && SameValue(longer, |heap|, r)
  {
    var longer := heap + [WithChildren(heap[r], refs)];
    assert NewFrom(longer, base) && OldUpTo(longer, base);
    SplitClosed(longer, base);
    CopiedChildrenStay(heap, longer, base, Children(heap[r]), refs);
    forall depth: nat ensures Tree(longer, |heap|, depth) == Tree(longer, r, depth) {
      if depth > 0 {
        SameParts(longer, |heap|, longer, r, depth);
      }
    }
  }

  /** A copy in progress: new objects from `base` on, and what they are copies of. */
  ghost predicate Copying(heap: Heap, base: nat, memo: map<Ref, Ref>) {
    Closed(heap) && OldUpTo(heap, base) && NewFrom(heap, base) && Copies(heap, base, memo)
  }

  lemma CopyMade(heap: Heap, base: nat, memo: map<Ref, Ref>, r: Ref, node: Object)
    requires Copying(heap, base, memo) && r < base
    requires var longer := heap + [node]; Closed(longer) && NewFrom(longer, base) && OldUpTo(longer, base) && SameValue(longer, |heap|, r)
    ensures Copying(heap + [node], base, memo[r := |heap|])
  {
    CopiesStay(heap, heap + [node], base, memo);
  }

  /** Every reference that code outside holds, or that an object it holds shows it, is outside `kept`. */
  ghost predicate Secluded(heap: Heap, known: set<Ref>, kept: set<Ref>) {
    && Closed(heap)
    && (forall r :: r in kept ==> r < |heap|)
    && (forall r, i :: r in kept && 0 <= i < |Children(heap[r])| ==> Children(heap[r])[i] in kept)
    && (forall r, i :: 0 <= r < |heap| && r !in kept && 0 <= i < |Children(heap[r])| ==> Children(heap[r])[i] !in kept)
    && (forall r :: r in known ==> r < |heap| && r !in kept)
  }

  /** Nothing in `kept` can be reached from a reference that is known outside. */
  lemma {:induction false} NothingKeptIsReachable(heap: Heap, known: set<Ref>, kept: set<Ref>, r: Ref, path: Path)
    requires Secluded(heap, known, kept) && r < |heap| && r !in kept
    ensures Follow(heap, r, path).Some? ==> Follow(heap, r, path).value !in kept
    decreases |path|
  {
    if path != [] && path[0] < |Children(heap[r])| {
      NothingKeptIsReachable(heap, known, kept, Children(heap[r])[path[0]], path[1..]);
    }
  }

  /** What outside code may do next with the references it holds. */
  datatype Move = Create(o: Object) | Write(r: Ref, o: Object) | Look(r: Ref, i: nat)

  /** The heap, and the references that code outside the accumulator has got hold of. */
  class Memory {
    var objects: Heap
    var known: set<Ref>

    constructor ()
      ensures objects == [] && known == {}
    {
      objects, known := [], {};
    }

    /**
     Any behaviour of outside code: it creates objects, changes objects it knows and looks into
     them, as often and in whatever order it likes.
     */
    method Act(ghost kept: set<Ref>)
      requires Secluded(objects, known, kept)
      modifies this
      ensures Secluded(objects, known, kept) && old(known) <= known
      ensures |old(objects)| <= |objects| && forall r :: r in kept ==> objects[r] == old(objects)[r]
    {
      var moves :| 0 <= moves;
      for i := 0 to moves
        invariant Secluded(objects, known, kept) && old(known) <= known
        invariant |old(objects)| <= |objects| && forall r :: r in kept ==> objects[r] == old(objects)[r]
      {
        var move: Move := *;
        Do(move, kept);
      }
    }

    method Do(move: Move, ghost kept: set<Ref>)
      requires Secluded(objects, known, kept)
      modifies this
      ensures Secluded(objects, known, kept) && old(known) <= known
      ensures |old(objects)| <= |objects| && forall r :: r in kept ==> objects[r] == old(objects)[r]
    {
      match move
      case Create(o) =>
        if forall i :: 0 <= i < |Children(o)| ==> Children(o)[i] in known {
          objects, known := objects + [o], known + {|objects|};
        }
      case Write(r, o) =>
        if r in known && forall i :: 0 <= i < |Children(o)| ==> Children(o)[i] in known {
          objects := objects[r := o];
        }
      case Look(r, i) =>
        if r in known && i < |Children(objects[r])| {
          known := known + {Children(objects[r])[i]};
        }
    }

    /** `deepcopy`, with its memo of the objects copied so far. */
    method CopyInto(r: Ref, memo: map<Ref, Ref>, ghost base: nat, ghost depth: nat) returns (copy: Ref, memo': map<Ref, Ref>)
      requires Copying(objects, base, memo) && r < base && Bounded(objects, r, depth)
      modifies this`objects
      ensures old(objects) <= objects && Copying(objects, base, memo')
      ensures base <= copy < |objects| && SameValue(objects, copy, r)
      decreases depth, 1
    {
      if r in memo {
        return memo[r], memo;
      }
      var refs;
      refs, memo' := CopyChildren(r, memo, base, depth);
      CopiedNode(objects, base, r, refs);
      CopyMade(objects, base, memo', r, WithChildren(objects[r], refs));
      copy := |objects|;
      objects := objects + [WithChildren(objects[r], refs)];
      memo' := memo'[r := copy];
    }

    method CopyChildren(r: Ref, memo: map<Ref, Ref>, ghost base: nat, ghost depth: nat) returns (refs: seq<Ref>, memo': map<Ref, Ref>)
      requires Copying(objects, base, memo) && r < base && Bounded(objects, r, depth)
      modifies this`objects
      ensures old(objects) <= objects && Copying(objects, base, memo')
      ensures |refs| == |Children(objects[r])| && CopiedChildren(objects, base, Children(objects[r]), refs)
      decreases depth, 0
    {
      var children := Children(objects[r]);
      refs, memo' := [], memo;
      for i := 0 to |children|
        invariant old(objects) <= objects && Copying(objects, base, memo')
        invariant |refs| == i && CopiedChildren(objects, base, children, refs)
      {
        ghost var before := objects;
        DepthOfChild(old(objects), objects, r, i, depth);
        var ref;
        ref, memo' := CopyInto(children[i], memo', base, depth - 1);
        CopiedChildrenStay(before, objects, base, children, refs);
        CopiedOneMore(objects, base, children, refs, ref);
        refs := refs + [ref];
      }
    }

    /** A copy shares no object with anything that existed before. */
    method DeepCopy(r: Ref, ghost depth: nat) returns (copy: Ref)
      requires Closed(objects) && r < |objects| && Bounded(objects, r, depth)
      modifies this`objects
      ensures old(objects) <= objects && Closed(objects) && NewFrom(objects, |old(objects)|) && OldUpTo(objects, |old(objects)|)
      ensures |old(objects)| <= copy < |objects|
      ensures forall n: nat :: Tree(objects, copy, n) == old(Tree(objects, r, n))
    {
      var memo;
      copy, memo := CopyInto(r, map[], |objects|, depth);
      forall n: nat ensures Tree(objects, copy, n) == old(Tree(objects, r, n)) {
        ValuesStay(old(objects), objects, r, n);
      }
    }

    /** A copy made by outside code. */
    method CopyOutside(r: Ref, ghost depth: nat, ghost kept: set<Ref>) returns (copy: Ref)
      requires Secluded(objects, known, kept) && r < |objects| && Bounded(objects, r, depth)
      modifies this
      ensures old(objects) <= objects && Secluded(objects, known, kept) && known == old(known) + {copy}
      ensures forall n: nat :: Tree(objects, copy, n) == old(Tree(objects, r, n))
    {
      copy := DeepCopy(r, depth);
      FreshIsShareable(old(objects), objects, known, kept, copy);
      known := known + {copy};
    }
  }

  /** A fresh object may be handed out. */
  lemma FreshIsShareable(before: Heap, after: Heap, known: set<Ref>, kept: set<Ref>, r: Ref)
    requires Secluded(before, known, kept) && before <= after && Closed(after) && NewFrom(after, |before|) && |before| <= r < |after|
    ensures Secluded(after, known + {r}, kept)
  {
  }

  lemma DepthOfChild(a: Heap, b: Heap, r: Ref, i: nat, depth: nat)
    requires Closed(a) && Closed(b) && a <= b && r < |a| && i < |Children(a[r])| && Bounded(a, r, depth)
    ensures depth > 0 && Children(a[r])[i] < |a| && Bounded(b, Children(a[r])[i], depth - 1)
  {
    ChildBounded(a, r, i, depth);
    forall path | IsPath(b, Children(a[r])[i], path) ensures |path| <= depth - 1 {
      FollowStays(a, b, Children(a[r])[i], path);
    }
  }

  lemma {:induction false} FollowStays(a: Heap, b: Heap, r: Ref, path: Path)
    requires Closed(a) && Closed(b) && a <= b && r < |a|
    ensures Follow(a, r, path) == Follow(b, r, path)
    decreases |path|
  {
    if path != [] && path[0] < |Children(a[r])| {
      FollowStays(a, b, Children(a[r])[path[0]], path[1..]);
    }
  }
}
