/** The growable array under the heap. */
module GrowableVector {

  class Vector<T(0)> {
    var vec: array<T>
    var size: nat

    ghost predicate Valid()
      reads this
    {
      size <= vec.Length
    }

    ghost function Elements(): (s: seq<T>)
      reads this, vec
      requires Valid()
      ensures |s| == size
    {
      vec[..size]
    }

    constructor ()
      ensures Valid() && Elements() == [] && fresh(vec)
    {
      vec := new T[0];
      size := 0;
    }

    /** Move the elements to a larger array. */
    method Grow(newMaxSize: nat)
      requires Valid() && size <= newMaxSize
      modifies this`vec
      ensures Valid() && vec.Length == newMaxSize && fresh(vec) && Elements() == old(Elements())
    {
      var temp := new T[newMaxSize];
      for i := 0 to size
        invariant temp[..i] == vec[..i]
        modifies temp
      {
        temp[i] := vec[i];
      }
      vec := temp;
    }

    /** Change the size; elements there before stay, and the array only ever grows. */
    method SetSize(newSize: nat)
      requires Valid()
      modifies this
      ensures Valid() && size == newSize && (vec == old(vec) || fresh(vec))
      ensures forall i :: 0 <= i < newSize && i < old(size) ==> Elements()[i] == old(Elements())[i]
      ensures vec.Length == if newSize <= old(vec.Length) then old(vec.Length)
                            else if newSize <= 2 * (old(vec.Length) + 1) then 2 * (old(vec.Length) + 1) else newSize
    {
      if newSize > vec.Length {
        ghost var before := Elements();
        Grow(if newSize <= (vec.Length + 1) * 2 then (vec.Length + 1) * 2 else newSize);
        assert forall i :: 0 <= i < size ==> vec[i] == before[i];
      }
      size := newSize;
    }

    function At(i: nat): T
      reads this, vec
      requires Valid() && i < size
    {
      vec[i]
    }

    method Put(i: nat, x: T)
      requires Valid() && i < size
      modifies vec
      ensures Valid() && Elements() == old(Elements())[i := x]
    {
      vec[i] := x;
    }

    method InsertAtBottom(x: T)
      requires Valid()
      modifies this, vec
      ensures Valid() && Elements() == old(Elements()) + [x] && (vec == old(vec) || fresh(vec))
    {
      SetSize(size + 1);
      vec[size - 1] := x;
    }

    /** Insert in front, moving the others from the far end. */
    method InsertAtTop(x: T)
      requires Valid()
      modifies this, vec
      ensures Valid() && Elements() == [x] + old(Elements()) && (vec == old(vec) || fresh(vec))
    {
      ghost var before := Elements();
      SetSize(size + 1);
      assert forall j :: 0 <= j < |before| ==> vec[j] == Elements()[j] == before[j];
      var i := size - 1;
      while i >= 1
        invariant 0 <= i < size == |before| + 1 <= vec.Length
        invariant forall j :: 0 <= j < i ==> vec[j] == before[j]
        invariant forall j :: i < j < size ==> vec[j] == before[j-1]
        modifies vec
      {
        vec[i] := vec[i-1];
        i := i - 1;
      }
      vec[0] := x;
    }

    /** Drop elements from the front, at most as many as there are. */
    method RemoveFromTop(num: nat)
      requires Valid()
      modifies this`size, vec
      ensures Valid() && Elements() == if num <= old(size) then old(Elements())[num..] else []
    {
      var n := if num > size then size else num;
      ghost var before := Elements();
      for i := 0 to size - n
        invariant forall j :: 0 <= j < i ==> vec[j] == before[j+n]
        invariant forall j :: i <= j < size ==> vec[j] == before[j]
        modifies vec
      {
        vec[i] := vec[i+n];
      }
      size := size - n;
    }
  }
}
