/** The list arithmetic behind deleteObj: the linear search for the first element identical
    to the selection, and vector::erase at the position it stops at. */
module Editing {

  /** Where deleteObj's `while (i < size && !found)` loop stops: the first index holding `x`,
      or |s| when there is none. */
  function FindFirst<T(==)>(s: seq<T>, x: T): (i: nat)
    ensures i <= |s|
    ensures i < |s| ==> s[i] == x
    ensures forall k :: 0 <= k < i ==> s[k] != x
    ensures i == |s| <==> x !in s
  {
    if s == [] then 0
    else if s[0] == x then 0
    else 1 + FindFirst(s[1..], x)
  }

  /** vector::erase(begin() + i), which needs a dereferenceable position. */
  function EraseAt<T>(s: seq<T>, i: int): (r: seq<T>)
    requires 0 <= i < |s|
    ensures |r| == |s| - 1
    ensures forall k :: 0 <= k < i ==> r[k] == s[k]
    ensures forall k :: i <= k < |r| ==> r[k] == s[k + 1]
  {
    s[..i] + s[i + 1..]
  }

  /** The removal deleteObj is meant to perform: erase the first element identical to `x`,
      and leave the list alone when there is none. */
  function RemoveFirst<T(==)>(s: seq<T>, x: T): (r: seq<T>)
    ensures x in s ==> r == EraseAt(s, FindFirst(s, x))
    ensures x !in s ==> r == s
  {
    var i := FindFirst(s, x);
    if i < |s| then EraseAt(s, i) else s
  }

  /** Exactly one occurrence of `x` goes, and nothing else. */
  lemma RemoveFirstMultiset<T>(s: seq<T>, x: T)
    ensures x in s ==> multiset(RemoveFirst(s, x)) == multiset(s) - multiset{x}
    ensures x in s ==> |RemoveFirst(s, x)| == |s| - 1
  {
    if x in s {
      var i := FindFirst(s, x);
      assert s == s[..i] + [s[i]] + s[i + 1..];
      assert multiset(s) == multiset(s[..i]) + multiset{x} + multiset(s[i + 1..]);
    }
  }

  /** The elements that remain keep their relative order: the result is the list with
      the position of the first `x` skipped. */
  lemma RemoveFirstKeepsOrder<T>(s: seq<T>, x: T, k: int)
    requires x in s && 0 <= k < |s| - 1
    ensures RemoveFirst(s, x)[k] == (if k < FindFirst(s, x) then s[k] else s[k + 1])
  {
  }

  /** Everything before the removed element is untouched, including other copies of `x`
      after it. */
  lemma RemoveFirstOnlyFirst<T>(s: seq<T>, x: T)
    requires x in s
    ensures RemoveFirst(s, x) == s[..FindFirst(s, x)] + s[FindFirst(s, x) + 1..]
    ensures x !in s[..FindFirst(s, x)]
  {
  }

  // ------------------------------------------------------------ deleteObj as written

  /** deleteObj as written calls erase(begin() + i) whether or not the search found the
      selection; the call is defined only when the search stopped on an element. */
  predicate EraseAsWrittenDefined<T(==)>(s: seq<T>, x: T)
  {
    FindFirst(s, x) < |s|
  }

  /** When the search succeeds, the erase as written removes exactly what RemoveFirst does. */
  lemma EraseAsWrittenAgreesWhenFound<T>(s: seq<T>, x: T)
    requires EraseAsWrittenDefined(s, x)
    ensures EraseAt(s, FindFirst(s, x)) == RemoveFirst(s, x)
  {
  }

  /** deleteObj does not clear `selected`, so pressing 'd' a second time searches for an
      object that is no longer in the list: the search runs off the end and the erase as
      written is at end(), which std::vector does not allow. */
  lemma {:induction false} SecondDeleteErasesEnd<T>(s: seq<T>, x: T)
    requires multiset(s)[x] == 1
    ensures !EraseAsWrittenDefined(RemoveFirst(s, x), x)
  {
    RemoveFirstMultiset(s, x);
    var r := RemoveFirst(s, x);
    assert multiset(r)[x] == 0;
    assert x !in r;
  }

  /** The smallest instance: a scene holding only the selected sphere. */
  lemma SecondDeleteOfOnlyObject(x: int)
    ensures RemoveFirst([x], x) == []
    ensures !EraseAsWrittenDefined(RemoveFirst([x], x), x)
  {
  }

  /** The corrected deleteObj is total: a second delete leaves the list as it is. */
  lemma SecondDeleteIsNoOp<T>(s: seq<T>, x: T)
    requires multiset(s)[x] == 1
    ensures RemoveFirst(RemoveFirst(s, x), x) == RemoveFirst(s, x)
  {
    SecondDeleteErasesEnd(s, x);
  }
}
