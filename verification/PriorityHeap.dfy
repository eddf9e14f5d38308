/** The priority heap: node `i` is element `i` of a vector whose element 0 is not a node. */
module PriorityHeap {
  import opened Outcomes
  import opened HeapKeys
  import opened GrowableVector

  datatype Fault = EmptyHeap

  class PrioHeap<T(0,!new)> {
    const leq: Order<T>
    const heap: Vector<T>
    var currentSize: nat

    ghost predicate Valid()
      reads this, heap, heap.vec
    {
      heap.Valid() && (currentSize > 0 ==> currentSize < heap.size)
    }

    /** The nodes' keys. */
    ghost function Keys(): (k: seq<T>)
      reads this, heap, heap.vec
      requires Valid()
      ensures |k| == currentSize
    {
      if currentSize == 0 then [] else heap.vec[1..currentSize+1]
    }

    constructor (leq: Order<T>)
      ensures Valid() && Keys() == [] && this.leq == leq && fresh(heap) && fresh(heap.vec)
    {
      this.leq := leq;
      heap := new Vector<T>();
      currentSize := 0;
    }

    /** Give a node a key. */
    method SetKey(i: nat, x: T)
      requires Valid() && 1 <= i <= currentSize
      modifies heap.vec
      ensures Valid() && Keys() == SetNode(old(Keys()), i, x)
    {
      heap.Put(i, x);
    }

    function KeyAt(i: nat): (x: T)
      reads this, heap, heap.vec
      requires Valid() && 1 <= i <= currentSize
      ensures x == Node(Keys(), i)
    {
      heap.At(i)
    }

    /** One more node, whose key is still to come. */
    method AddNode(key: T)
      requires Valid()
      modifies this`currentSize, heap, heap.vec
      ensures Valid() && (heap.vec == old(heap.vec) || fresh(heap.vec))
      ensures currentSize == old(currentSize) + 1 && Keys()[..old(currentSize)] == old(Keys())
    {
      ghost var before, k := heap.Elements(), Keys();
      assert forall i :: 1 <= i <= currentSize ==> before[i] == k[i-1];
      currentSize := currentSize + 1;
      heap.SetSize(currentSize + 1);
      assert forall i :: 1 <= i <= |k| ==> heap.Elements()[i] == before[i];
      if currentSize == 1 {
        heap.Put(0, key);
      }
      assert forall i :: 0 <= i < |k| ==> Keys()[i] == heap.Elements()[i+1] == k[i];
    }

    /** Insert by moving parents down along the path from the new last node. */
    method Insert(key: T)
      requires Valid()
      modifies this`currentSize, heap, heap.vec
      ensures Valid() && (heap.vec == old(heap.vec) || fresh(heap.vec))
      ensures Keys() == Inserted(leq, old(Keys()), key)
    {
      ghost var before := Keys();
      AddNode(key);
      var i := currentSize;
      RaiseIgnoresHole(leq, Keys(), i, key, key);
      assert SetNode(Keys(), i, key) == before + [key];
      while i > 1 && leq(key, KeyAt(Parent(i)))
        invariant Valid() && 1 <= i <= currentSize
        invariant Raise(leq, Keys(), i, key) == Inserted(leq, before, key)
        modifies heap.vec
      {
        SetKey(i, KeyAt(Parent(i)));
        i := Parent(i);
      }
      SetKey(i, key);
    }

    /** The first key, which is a least one. */
    function PeekMin(): (r: Result<T, Fault>)
      reads this, heap, heap.vec
      requires Valid()
      ensures r == if Keys() == [] then Failure(EmptyHeap) else Success(Keys()[0])
    {
      if currentSize == 0 then Failure(EmptyHeap) else Success(KeyAt(1))
    }

    /** Take out the first key; the last one takes its place and sinks. */
    method ExtractMin() returns (r: Result<T, Fault>)
      requires Valid()
      modifies this`currentSize, heap.vec
      ensures Valid() && r == old(PeekMin())
      ensures r.Success? ==> Keys() == Extracted(leq, old(Keys()))
      ensures r.Failure? ==> Keys() == old(Keys())
    {
      if currentSize == 0 {
        return Failure(EmptyHeap);
      }
      ghost var before := Keys();
      r := Success(KeyAt(1));
      SetKey(1, KeyAt(currentSize));
      assert Keys() == SetNode(before, 1, Node(before, |before|));
      currentSize := currentSize - 1;
      assert Keys() == SetNode(before, 1, Node(before, |before|))[..|before|-1];
      Heapify();
    }

    /** Let the first node sink. */
    method Heapify()
      requires Valid()
      modifies heap.vec
      ensures Valid() && Keys() == if currentSize == 0 then [] else Sink(leq, old(Keys()), 1)
    {
      if currentSize == 0 {
        return;
      }
      ghost var before := Keys();
      var current := 1;
      while true
        invariant Valid() && 1 <= current <= currentSize
        invariant Sink(leq, Keys(), current) == Sink(leq, before, 1)
        decreases currentSize - current
        modifies heap.vec
      {
        var left, right := Left(current), Right(current);
        var smallest := current;
        if left <= currentSize && leq(KeyAt(left), KeyAt(current)) {
          smallest := left;
        }
        if right <= currentSize && leq(KeyAt(right), KeyAt(smallest)) {
          smallest := right;
        }
        if smallest == current {
          break;
        }
        var temp := KeyAt(current);
        SetKey(current, KeyAt(smallest));
        SetKey(smallest, temp);
        current := smallest;
      }
    }

    /** Whether every node from `index` down is at least its parent. */
    function VerifyHeap(index: nat): (r: bool)
      reads this, heap, heap.vec
      requires Valid() && index >= 1
      ensures r == HeapKeys.VerifyHeap(leq, Keys(), index)
      decreases currentSize + 1 - index
    {
      if index > currentSize then true
      else if index == 1 then VerifyHeap(Right(index)) && VerifyHeap(Left(index))
      else if leq(KeyAt(Parent(index)), KeyAt(index)) then VerifyHeap(Right(index)) && VerifyHeap(Left(index))
      else false
    }
  }
}
