/** A binary heap as the sequence of its keys, node `i` (counted from 1) being at index `i - 1`. */
module HeapKeys {

  type Order<!T> = (T, T) -> bool

  /** What the heap needs of `node_less_then_eq`. */
  ghost predicate TotalPreorder<T(!new)>(leq: Order<T>) {
    && (forall x, y :: leq(x, y) || leq(y, x))
    && (forall x, y, z :: leq(x, y) && leq(y, z) ==> leq(x, z))
  }

  function Parent(i: nat): nat { i / 2 }
  function Left(i: nat): nat { 2 * i }
  function Right(i: nat): nat { 2 * i + 1 }

  function Node<T>(k: seq<T>, i: nat): T
    requires 1 <= i <= |k|
  {
    k[i - 1]
  }

  function SetNode<T>(k: seq<T>, i: nat, x: T): (r: seq<T>)
    requires 1 <= i <= |k|
    ensures |r| == |k|
    ensures forall j: nat :: 1 <= j <= |k| ==> Node(r, j) == if j == i then x else Node(k, j)
  {
    k[i - 1 := x]
  }

  /** The node is at least its parent. */
  predicate NodeOk<T>(leq: Order<T>, k: seq<T>, i: nat) {
    2 <= i <= |k| ==> leq(Node(k, Parent(i)), Node(k, i))
  }

  ghost predicate Heap<T>(leq: Order<T>, k: seq<T>) {
    forall i: nat :: NodeOk(leq, k, i)
  }

  // ---------------------------------------------------------------- checking

  function VerifyHeap<T>(leq: Order<T>, k: seq<T>, index: nat): bool
    requires index >= 1
    decreases |k| + 1 - index
  {
    if index > |k| then true
    else if index == 1 then VerifyHeap(leq, k, Right(index)) && VerifyHeap(leq, k, Left(index))
    else if leq(Node(k, Parent(index)), Node(k, index))
        then VerifyHeap(leq, k, Right(index)) && VerifyHeap(leq, k, Left(index))
    else false
  }

  /** `i` is `root` or below it. */
  predicate Below(i: nat, root: nat) {
    i == root || (i > root && Below(Parent(i), root))
  }

  lemma {:induction false} BelowSplit(i: nat, root: nat)
    requires root >= 1
    ensures Below(i, root) <==> i == root || Below(i, Left(root)) || Below(i, Right(root))
  {
    if i > root {
      BelowSplit(Parent(i), root);
      if i == Left(root) || i == Right(root) {
        assert Below(Parent(i), root);
      } else if Parent(i) == root {
        assert false;
      }
    }
  }

  lemma {:induction false} BelowFirst(i: nat)
    requires i >= 1
    ensures Below(i, 1)
  {
    if i > 1 {
      BelowFirst(Parent(i));
    }
  }

  lemma {:induction false} VerifySubtree<T>(leq: Order<T>, k: seq<T>, root: nat)
    requires root >= 1
    ensures VerifyHeap(leq, k, root) <==> forall i: nat :: Below(i, root) ==> NodeOk(leq, k, i)
    decreases |k| + 1 - root
  {
    if root > |k| {
      forall i: nat | Below(i, root) ensures NodeOk(leq, k, i) {
      }
    } else {
      VerifySubtree(leq, k, Left(root));
      VerifySubtree(leq, k, Right(root));
      forall i: nat ensures Below(i, root) <==> i == root || Below(i, Left(root)) || Below(i, Right(root)) {
        BelowSplit(i, root);
      }
      assert Below(root, root);
      assert VerifyHeap(leq, k, root)
             <==> NodeOk(leq, k, root) && VerifyHeap(leq, k, Left(root)) && VerifyHeap(leq, k, Right(root));
    }
  }

  /** The recursive check finds out exactly whether every node is at least its parent. */
  lemma VerifyHeapIff<T>(leq: Order<T>, k: seq<T>)
    ensures VerifyHeap(leq, k, 1) <==> Heap(leq, k)
  {
    VerifySubtree(leq, k, 1);
    forall i: nat ensures i >= 1 ==> Below(i, 1) {
      if i >= 1 { BelowFirst(i); }
    }
  }

  // ---------------------------------------------------------------- insertion

  /** Move the hole at `i` up to where `key` belongs. */
  function Raise<T>(leq: Order<T>, k: seq<T>, i: nat, key: T): (r: seq<T>)
    requires 1 <= i <= |k|
    ensures |r| == |k|
    decreases i
  {
    if i > 1 && leq(key, Node(k, Parent(i))) then Raise(leq, SetNode(k, i, Node(k, Parent(i))), Parent(i), key)
    else SetNode(k, i, key)
  }

  function Inserted<T>(leq: Order<T>, k: seq<T>, key: T): seq<T> {
    Raise(leq, k + [key], |k| + 1, key)
  }

  /** What is in the hole does not matter. */
  lemma RaiseIgnoresHole<T>(leq: Order<T>, k: seq<T>, i: nat, key: T, x: T)
    requires 1 <= i <= |k|
    ensures Raise(leq, SetNode(k, i, x), i, key) == Raise(leq, k, i, key)
  {
    assert SetNode(SetNode(k, i, x), i, key) == SetNode(k, i, key);
    if i > 1 {
      var y := Node(k, Parent(i));
      assert SetNode(SetNode(k, i, x), i, y) == SetNode(k, i, y);
    }
  }

  /** A heap but for the hole at `i`, whose children are in order with the hole's parent and with `key`. */
  ghost predicate HeapButFor<T>(leq: Order<T>, k: seq<T>, i: nat, key: T)
    requires 1 <= i <= |k|
  {
    && (forall j: nat :: j != i && Parent(j) != i ==> NodeOk(leq, k, j))
    && (forall j: nat :: j <= |k| && Parent(j) == i ==>
          leq(key, Node(k, j)) && (i > 1 ==> leq(Node(k, Parent(i)), Node(k, j))))
  }

  lemma {:induction false} RaiseKeepsHeap<T(!new)>(leq: Order<T>, k: seq<T>, i: nat, key: T)
    requires TotalPreorder(leq) && 1 <= i <= |k| && HeapButFor(leq, k, i, key)
    ensures Heap(leq, Raise(leq, k, i, key))
    decreases i
  {
    if i > 1 && leq(key, Node(k, Parent(i))) {
      var p := Parent(i);
      var k' := SetNode(k, i, Node(k, p));
      assert NodeOk(leq, k, p);
      forall j: nat | j != p && Parent(j) != p ensures NodeOk(leq, k', j) {
        assert j != i;
        if Parent(j) != i { assert NodeOk(leq, k, j); }
      }
      forall j: nat | j <= |k| && Parent(j) == p
        ensures leq(key, Node(k', j)) && (p > 1 ==> leq(Node(k', Parent(p)), Node(k', j)))
      {
        if j != i { assert NodeOk(leq, k, j); }
      }
      RaiseKeepsHeap(leq, k', p, key);
    } else {
      var r := SetNode(k, i, key);
      forall j: nat ensures NodeOk(leq, r, j) {
        if j != i && Parent(j) != i { assert NodeOk(leq, k, j); }
      }
    }
  }

  lemma {:induction false} RaiseKeepsKeys<T>(leq: Order<T>, k: seq<T>, i: nat, key: T)
    requires 1 <= i <= |k|
    ensures multiset(Raise(leq, k, i, key)) == multiset(SetNode(k, i, key))
    decreases i
  {
    if i > 1 && leq(key, Node(k, Parent(i))) {
      RaiseKeepsKeys(leq, SetNode(k, i, Node(k, Parent(i))), Parent(i), key);
    }
  }

  /** Insertion keeps the heap in order and adds exactly the new key. */
  lemma InsertedIsHeap<T(!new)>(leq: Order<T>, k: seq<T>, key: T)
    requires TotalPreorder(leq) && Heap(leq, k)
    ensures Heap(leq, Inserted(leq, k, key)) && multiset(Inserted(leq, k, key)) == multiset(k) + multiset{key}
  {
    var t := k + [key];
    forall j: nat | j != |t| && Parent(j) != |t| ensures NodeOk(leq, t, j) {
      assert NodeOk(leq, k, j);
    }
    RaiseKeepsHeap(leq, t, |t|, key);
    RaiseKeepsKeys(leq, t, |t|, key);
    assert SetNode(t, |t|, key) == t;
  }

  // ---------------------------------------------------------------- extraction

  /**
   * The node to go on with: a child that is not above the node and, of two, not above the other; or the node itself.
   */
  function Smallest<T>(leq: Order<T>, k: seq<T>, i: nat): (s: nat)
    requires 1 <= i <= |k|
    ensures i <= s <= |k| && (s == i || Parent(s) == i)
  {
    var s := if Left(i) <= |k| && leq(Node(k, Left(i)), Node(k, i)) then Left(i) else i;
    if Right(i) <= |k| && leq(Node(k, Right(i)), Node(k, s)) then Right(i) else s
  }

  function Swapped<T>(k: seq<T>, i: nat, j: nat): seq<T>
    requires 1 <= i <= |k| && 1 <= j <= |k|
  {
    SetNode(SetNode(k, i, Node(k, j)), j, Node(k, i))
  }

  /** Let node `i` sink to where it belongs. */
  function Sink<T>(leq: Order<T>, k: seq<T>, i: nat): (r: seq<T>)
    requires 1 <= i <= |k|
    ensures |r| == |k|
    decreases |k| - i
  {
    var s := Smallest(leq, k, i);
    if s == i then k else Sink(leq, Swapped(k, i, s), s)
  }

  /** What is left after taking out the first key. */
  function Extracted<T>(leq: Order<T>, k: seq<T>): (r: seq<T>)
    requires k != []
    ensures |r| == |k| - 1
  {
    if |k| == 1 then [] else Sink(leq, SetNode(k, 1, Node(k, |k|))[..|k|-1], 1)
  }

  /** A heap but for node `i`, whose children are in order with its parent. */
  ghost predicate HeapBelow<T>(leq: Order<T>, k: seq<T>, i: nat)
    requires 1 <= i <= |k|
  {
    && (forall j: nat :: Parent(j) != i ==> NodeOk(leq, k, j))
    && (i > 1 ==> forall j: nat :: j <= |k| && Parent(j) == i ==> leq(Node(k, Parent(i)), Node(k, j)))
  }

  lemma SmallestIsLeast<T(!new)>(leq: Order<T>, k: seq<T>, i: nat)
    requires TotalPreorder(leq) && 1 <= i <= |k|
    ensures var s := Smallest(leq, k, i);
            leq(Node(k, s), Node(k, i)) && forall j: nat :: j <= |k| && Parent(j) == i ==> leq(Node(k, s), Node(k, j))
  {
    forall j: nat | j <= |k| && Parent(j) == i ensures leq(Node(k, Smallest(leq, k, i)), Node(k, j)) {
      assert j == Left(i) || j == Right(i);
    }
  }

  lemma {:induction false} SinkMakesHeap<T(!new)>(leq: Order<T>, k: seq<T>, i: nat)
    requires TotalPreorder(leq) && 1 <= i <= |k| && HeapBelow(leq, k, i)
    ensures Heap(leq, Sink(leq, k, i))
    decreases |k| - i
  {
    var s := Smallest(leq, k, i);
    SmallestIsLeast(leq, k, i);
    if s == i {
      forall j: nat ensures NodeOk(leq, k, j) {
      }
    } else {
      var k' := Swapped(k, i, s);
      forall j: nat | Parent(j) != s ensures NodeOk(leq, k', j) {
        if Parent(j) != i { assert NodeOk(leq, k, j); }
      }
      forall j: nat | j <= |k| && Parent(j) == s ensures leq(Node(k', Parent(s)), Node(k', j)) {
        assert NodeOk(leq, k, j);
      }
      SinkMakesHeap(leq, k', s);
    }
  }

  lemma {:induction false} SinkKeepsKeys<T>(leq: Order<T>, k: seq<T>, i: nat)
    requires 1 <= i <= |k|
    ensures multiset(Sink(leq, k, i)) == multiset(k)
    decreases |k| - i
  {
    var s := Smallest(leq, k, i);
    if s != i {
      SinkKeepsKeys(leq, Swapped(k, i, s), s);
    }
  }

  lemma {:induction false} FirstIsLeast<T(!new)>(leq: Order<T>, k: seq<T>, i: nat)
    requires TotalPreorder(leq) && Heap(leq, k) && 1 <= i <= |k|
    ensures leq(Node(k, 1), Node(k, i))
  {
    assert NodeOk(leq, k, i);
    if i > 1 {
      FirstIsLeast(leq, k, Parent(i));
    }
  }

  /** Extraction takes out a least key, and nothing else, and keeps the heap in order. */
  lemma ExtractedIsHeap<T(!new)>(leq: Order<T>, k: seq<T>)
    requires TotalPreorder(leq) && Heap(leq, k) && k != []
    ensures Heap(leq, Extracted(leq, k)) && multiset(Extracted(leq, k)) + multiset{k[0]} == multiset(k)
    ensures forall x :: x in k ==> leq(k[0], x)
  {
    forall x | x in k ensures leq(k[0], x) {
      var i :| 0 <= i < |k| && k[i] == x;
      FirstIsLeast(leq, k, i + 1);
    }
    var last := k[|k|-1];
    assert k == k[..|k|-1] + [last];
    if |k| > 1 {
      var t := SetNode(k, 1, last)[..|k|-1];
      assert t == k[..|k|-1][0 := last];
      forall j: nat | Parent(j) != 1 ensures NodeOk(leq, t, j) {
        assert NodeOk(leq, k, j);
      }
      SinkMakesHeap(leq, t, 1);
      SinkKeepsKeys(leq, t, 1);
    } else {
      assert k == [k[0]];
    }
  }

  // ---------------------------------------------------------------- which nodes change

  /** On the way from `i` up to `a`, but not `a` itself. */
  predicate Between(j: nat, i: nat, a: nat) {
    Below(i, j) && Below(j, a) && j != a
  }

  /**
   * The key rises past every key on its way that it is not above, so past equal ones too, up to the first that it is
   * not; those move down by one, and no other node changes.
   */
  lemma {:induction false} RaiseRises<T>(leq: Order<T>, k: seq<T>, i: nat, key: T) returns (a: nat)
    requires 1 <= i <= |k|
    ensures 1 <= a <= i && Below(i, a) && (a > 1 ==> !leq(key, Node(k, Parent(a))))
    ensures var r := Raise(leq, k, i, key);
            && Node(r, a) == key
            && forall j: nat :: 1 <= j <= |k| && j != a ==>
                 if Between(j, i, a) then j > 1 && leq(key, Node(k, Parent(j))) && Node(r, j) == Node(k, Parent(j))
                 else Node(r, j) == Node(k, j)
    decreases i
  {
    if i > 1 && leq(key, Node(k, Parent(i))) {
      var p := Parent(i);
      var k' := SetNode(k, i, Node(k, p));
      a := RaiseRises(leq, k', p, key);
      BelowIsNotLess(p, a);
      forall j: nat | 1 <= j <= |k| && j != a
        ensures Between(j, i, a) <==> j == i || Between(j, p, a)
        ensures Between(j, p, a) ==> j <= p && j > 1
      {
        BelowIsNotLess(p, j);
        BelowIsNotLess(j, a);
      }
    } else {
      a := i;
      forall j: nat | j != a ensures !Between(j, i, a) {
        BelowIsNotLess(i, j);
        BelowIsNotLess(j, a);
      }
    }
  }

  lemma {:induction false} BelowIsNotLess(i: nat, root: nat)
    ensures Below(i, root) ==> i >= root
  {
  }

  /** What a new key does to a heap: which nodes get another key, and which. */
  lemma InsertedRises<T>(leq: Order<T>, k: seq<T>, key: T) returns (a: nat)
    ensures var n, r := |k| + 1, Inserted(leq, k, key);
            && 1 <= a <= n && Below(n, a) && |r| == n && Node(r, a) == key
            && (a > 1 ==> !leq(key, Node(k, Parent(a))))
            && forall j: nat :: 1 <= j <= n && j != a ==>
                 if Between(j, n, a) then j > 1 && leq(key, Node(k, Parent(j))) && Node(r, j) == Node(k, Parent(j))
                 else j <= |k| && Node(r, j) == Node(k, j)
  {
    var t := k + [key];
    a := RaiseRises(leq, t, |t|, key);
    forall j: nat | 1 <= j <= |k| ensures Node(t, j) == Node(k, j) {}
    if a != |t| {
      assert Between(|t|, |t|, a);
    }
  }

  /** The child `s` of `j` goes up in place of a key `x` that sinks: of two equal ones the right one. */
  predicate GoesUp<T>(leq: Order<T>, k: seq<T>, j: nat, s: nat, x: T) {
    && 1 <= s <= |k|
    && if s == Left(j) then leq(Node(k, s), x) && (Right(j) <= |k| ==> !leq(Node(k, Right(j)), Node(k, s)))
       else j >= 1 && s == Right(j) && leq(Node(k, s), if leq(Node(k, Left(j)), x) then Node(k, Left(j)) else x)
  }

  /** The key of node `i` sinks to node `a`: past every child that goes up, to where none does. */
  ghost predicate Sunk<T>(leq: Order<T>, k: seq<T>, i: nat, r: seq<T>, a: nat)
    requires 1 <= i <= |k| == |r|
  {
    var x := Node(k, i);
    && i <= a <= |k| && Below(a, i) && Node(r, a) == x
    && (Left(a) <= |k| ==> !leq(Node(k, Left(a)), x)) && (Right(a) <= |k| ==> !leq(Node(k, Right(a)), x))
    && (forall j: nat :: 1 <= j <= |k| && !(Below(a, j) && Below(j, i)) ==> Node(r, j) == Node(k, j))
    && (forall j: nat :: Below(a, j) && Below(j, i) && j != a ==>
          exists s: nat :: Below(a, s) && GoesUp(leq, k, j, s, x) && Node(r, j) == Node(k, s))
  }

  /** Two nodes on the way to a third are on the way to each other. */
  lemma {:induction false} OneWay(a: nat, j: nat, s: nat)
    requires Below(a, j) && Below(a, s) && j >= s
    ensures Below(j, s)
    decreases a
  {
    BelowIsNotLess(a, j);
    BelowIsNotLess(a, s);
    if a != j && a != s {
      OneWay(Parent(a), j, s);
    }
  }

  lemma SinkStep<T>(leq: Order<T>, k: seq<T>, i: nat, s: nat, r: seq<T>, a: nat)
    requires 1 <= i <= |k| == |r| && i < s <= |k| && Parent(s) == i && GoesUp(leq, k, i, s, Node(k, i))
    requires Sunk(leq, Swapped(k, i, s), s, r, a)
    ensures Sunk(leq, k, i, r, a)
  {
    var k', x := Swapped(k, i, s), Node(k, i);
    BelowParent(a, s);
    BelowIsNotLess(a, s);
    forall j: nat | 1 <= j <= |k| && !(Below(a, j) && Below(j, i)) ensures Node(r, j) == Node(k, j) {
      if Below(j, s) { BelowParent(j, s); }
    }
    forall j: nat | Below(a, j) && Below(j, i) && j != a
      ensures exists d: nat :: Below(a, d) && GoesUp(leq, k, j, d, x) && Node(r, j) == Node(k, d)
    {
      BelowIsNotLess(a, j);
      BelowIsNotLess(j, i);
      if j == i {
        BelowIsNotLess(i, s);
        assert Node(r, i) == Node(k', i) == Node(k, s);
        assert Below(a, s) && GoesUp(leq, k, i, s, x);
      } else {
        if j < s {
          OneWay(a, s, j);
          BelowIsNotLess(i, j);
          assert false;
        }
        OneWay(a, j, s);
        var d: nat :| Below(a, d) && GoesUp(leq, k', j, d, x) && Node(r, j) == Node(k', d);
        assert d > j >= s;
        assert GoesUp(leq, k, j, d, x) && Node(k', d) == Node(k, d);
      }
    }
  }

  lemma {:induction false} SinkIsSunk<T>(leq: Order<T>, k: seq<T>, i: nat) returns (a: nat)
    requires 1 <= i <= |k|
    ensures Sunk(leq, k, i, Sink(leq, k, i), a)
    decreases |k| - i
  {
    var s := Smallest(leq, k, i);
    if s == i {
      a := i;
      forall j: nat | Below(i, j) && Below(j, i) ensures j == i {
        BelowIsNotLess(i, j);
        BelowIsNotLess(j, i);
      }
    } else {
      a := SinkIsSunk(leq, Swapped(k, i, s), s);
      SinkStep(leq, k, i, s, Sink(leq, k, i), a);
    }
  }

  /** What taking the first key out does to a heap: the last key sinks from the first node, and no other key moves. */
  lemma ExtractedSinks<T>(leq: Order<T>, k: seq<T>) returns (a: nat)
    requires |k| >= 2
    ensures Sunk(leq, k[..|k|-1][0 := k[|k|-1]], 1, Extracted(leq, k), a)
  {
    assert SetNode(k, 1, Node(k, |k|))[..|k|-1] == k[..|k|-1][0 := k[|k|-1]];
    a := SinkIsSunk(leq, k[..|k|-1][0 := k[|k|-1]], 1);
  }

  lemma {:induction false} BelowParent(a: nat, s: nat)
    requires s >= 2 && Below(a, s)
    ensures Below(a, Parent(s))
  {
    if a != s {
      BelowParent(Parent(a), s);
    }
  }

  // ---------------------------------------------------------------- runs

  /** All keys, in the order in which repeated extraction gives them. */
  function Drained<T>(leq: Order<T>, k: seq<T>): seq<T>
    decreases |k|
  {
    if k == [] then [] else [k[0]] + Drained(leq, Extracted(leq, k))
  }

  /** Draining a heap sorts it. */
  lemma {:induction false} DrainedIsSorted<T(!new)>(leq: Order<T>, k: seq<T>)
    requires TotalPreorder(leq) && Heap(leq, k)
    ensures var d := Drained(leq, k);
            multiset(d) == multiset(k) && forall i, j :: 0 <= i < j < |d| ==> leq(d[i], d[j])
    decreases |k|
  {
    if k != [] {
      var rest := Extracted(leq, k);
      var d := Drained(leq, rest);
      ExtractedIsHeap(leq, k);
      DrainedIsSorted(leq, rest);
      forall j | 0 <= j < |d| ensures leq(k[0], d[j]) {
        assert d[j] in multiset(d);
        assert d[j] in multiset(k);
      }
    }
  }

  datatype Op<T> = Insert(key: T) | ExtractMin

  /** The keys in the heap, those put in and those taken out, in order. */
  datatype History<T> = History(keys: seq<T>, put: seq<T>, taken: seq<T>)

  function Run<T>(leq: Order<T>, ops: seq<Op<T>>): History<T> {
    if ops == [] then History([], [], [])
    else
      var h := Run(leq, ops[..|ops|-1]);
      match ops[|ops|-1]
      case Insert(key) => History(Inserted(leq, h.keys, key), h.put + [key], h.taken)
      case ExtractMin => if h.keys == [] then h else History(Extracted(leq, h.keys), h.put, h.taken + [h.keys[0]])
  }

  /** In every run the heap is in order, and what was put in is what was taken out and what is still there. */
  lemma {:induction false} RunConservesKeys<T(!new)>(leq: Order<T>, ops: seq<Op<T>>)
    requires TotalPreorder(leq)
    ensures var h := Run(leq, ops);
            Heap(leq, h.keys) && multiset(h.put) == multiset(h.taken) + multiset(h.keys)
  {
    if ops != [] {
      var init := ops[..|ops|-1];
      var h := Run(leq, init);
      RunConservesKeys(leq, init);
      match ops[|ops|-1]
      case Insert(key) =>
        InsertedIsHeap(leq, h.keys, key);
      case ExtractMin =>
        if h.keys != [] { ExtractedIsHeap(leq, h.keys); }
    }
  }
}
