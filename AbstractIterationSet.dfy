/**
 * A Set implementation whose size can only be known by iterating over it.
 *
 * The set is represented by the sequence of elements one full iteration produces
 * (`elems`); as for every Java Set, no element is produced twice, and membership
 * (`contains`) agrees with what the iteration produces.
 */
module AbstractIterationSet {
  import opened Wrappers

  /** No element is produced twice by one iteration. */
  ghost predicate Distinct<E>(s: seq<E>) {
    forall i, j :: 0 <= i < j < |s| ==> s[i] != s[j]
  }

  /** The mathematical set of the elements an iteration produces. */
  ghost function Elements<E>(s: seq<E>): set<E> {
    set x | x in s
  }

  /** The argument of `equals`: this very object, another Set (by its iteration), or an object that is not a Set. */
  datatype Other<E> = ThisObject | SetObject(iteration: seq<E>) | NotASet

  /** `size()`: the number of elements one iteration produces, counted one by one. */
  function Size<E>(elems: seq<E>): (n: nat)
    ensures n == |elems|
  {
    if elems == [] then 0 else 1 + Size(elems[1..])
  }

  /** `isEmpty()`: the iterator has no first element. */
  function IsEmpty<E>(elems: seq<E>): (b: bool)
    ensures b <==> Size(elems) == 0
    ensures b <==> Elements(elems) == {}
  {
    assert elems != [] ==> elems[0] in Elements(elems);
    elems == []
  }

  /** `contains(x)`: x is one of the elements the iteration produces. */
  predicate Contains<E(==)>(elems: seq<E>, x: E) {
    x in elems
  }

  /** Counting the iteration of a Set gives its cardinality. */
  lemma {:induction false} SizeIsCardinality<E>(elems: seq<E>)
    requires Distinct(elems)
    ensures Size(elems) == |Elements(elems)|
  {
    if elems != [] {
      var rest := elems[1..];
      assert Distinct(rest) by {
        forall i, j | 0 <= i < j < |rest| ensures rest[i] != rest[j] {
          assert rest[i] == elems[i + 1] && rest[j] == elems[j + 1];
        }
      }
      SizeIsCardinality(rest);
      assert elems[0] !in Elements(rest) by {
        forall k | 0 <= k < |rest| ensures rest[k] != elems[0] {
          assert rest[k] == elems[k + 1];
        }
      }
      assert Elements(elems) == {elems[0]} + Elements(rest) by {
        assert elems == [elems[0]] + rest;
      }
    }
  }

  /**
   * `equals(obj)`: true for this object itself, false for anything that is not a Set,
   * and otherwise the result of walking both iterations in lockstep, checking that each
   * element of the other set is contained in this one.
   */
  method Equals<E(==)>(elems: seq<E>, obj: Other<E>) returns (r: bool)
    ensures obj.ThisObject? ==> r
    ensures obj.NotASet? ==> !r
    ensures obj.SetObject? ==>
              (r <==> |obj.iteration| == |elems| && forall x :: x in obj.iteration ==> Contains(elems, x))
  {
    if obj.ThisObject? {
      return true;
    }
    if obj.NotASet? {
      return false;
    }
    var that := obj.iteration;
    // number of elements consumed so far from each of the two iterators
    var n := 0;
    while true
      invariant n <= |elems| && n <= |that|
      invariant forall k :: 0 <= k < n ==> Contains(elems, that[k])
      decreases |elems| - n
    {
      var hasNext1 := n < |elems|;
      var hasNext2 := n < |that|;
      if !hasNext1 && !hasNext2 {
        return true;
      }
      if !hasNext1 || !hasNext2 {
        return false;
      }
      if !Contains(elems, that[n]) {
        return false;
      }
      n := n + 1;
    }
  }

  /**
   * For two Sets, the test `equals` performs (same number of elements, every element of
   * the other contained in this one) holds exactly when both hold the same elements.
   */
  lemma EqualsTestIsSetEquality<E>(elems: seq<E>, that: seq<E>)
    requires Distinct(elems) && Distinct(that)
    ensures (|that| == |elems| && forall x :: x in that ==> x in elems)
            <==> Elements(that) == Elements(elems)
  {
    SizeIsCardinality(elems);
    SizeIsCardinality(that);
    if |that| == |elems| && forall x :: x in that ==> x in elems {
      var a, b := Elements(elems), Elements(that);
      assert b <= a;
      assert |a - b| == |a| - |b|;
      assert |a - b| == 0;
      assert a == b;
    }
    if Elements(that) == Elements(elems) {
      forall x | x in that ensures x in elems {
        assert x in Elements(that);
      }
    }
  }

  /** Wraps every element as a non-null array slot. */
  function NonNull<E>(s: seq<E>): (r: seq<Option<E>>)
    ensures |r| == |s| && forall i :: 0 <= i < |s| ==> r[i] == Some(s[i])
  {
    if s == [] then [] else [Some(s[0])] + NonNull(s[1..])
  }

  /** `toArray()`: a new array holding the elements in iteration order. */
  method ToArray<E>(elems: seq<E>) returns (arr: array<E>)
    ensures fresh(arr)
    ensures arr.Length == Size(elems) && arr[..] == elems
  {
    var list: seq<E> := [];
    for i := 0 to |elems|
      invariant list == elems[..i]
    {
      list := list + [elems[i]];
    }
    assert list == elems;
    arr := new E[|list|](k requires 0 <= k < |list| => list[k]);
  }

  /**
   * `toArray(array)`: the elements in iteration order, stored into `a` when it is large
   * enough (with a null just after the last element when there is room), otherwise into a
   * new array of exactly the right length.
   */
  method ToArrayInto<E>(elems: seq<E>, a: array<Option<E>>) returns (r: array<Option<E>>)
    modifies a
    ensures |elems| <= a.Length ==> r == a && r[..|elems|] == NonNull(elems)
    ensures |elems| < a.Length ==> r[|elems|] == None && r[|elems| + 1..] == old(a[|elems| + 1..])
    ensures a.Length < |elems| ==> fresh(r) && r[..] == NonNull(elems) && a[..] == old(a[..])
  {
    var list: seq<E> := [];
    for i := 0 to |elems|
      invariant list == elems[..i]
    {
      list := list + [elems[i]];
    }
    assert list == elems;
    var slots := NonNull(list);
    if a.Length < |list| {
      r := new Option<E>[|list|](k requires 0 <= k < |list| => slots[k]);
    } else {
      for k := 0 to |list|
        invariant forall j :: 0 <= j < k ==> a[j] == slots[j]
        invariant forall j :: k <= j < a.Length ==> a[j] == old(a[j])
      {
        a[k] := slots[k];
      }
      if |list| < a.Length {
        a[|list|] := None;
      }
      r := a;
    }
  }
}
