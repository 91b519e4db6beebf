/**
 Sizes and orders of finite sets.
 */
module FiniteSets {

  lemma {:induction false} SubsetCount<T>(a: set<T>, b: set<T>)
    requires a <= b
    ensures |a| <= |b|
    decreases a
  {
    if a != {} {
      var x :| x in a;
      SubsetCount(a - {x}, b - {x});
    }
  }

  // The elements in some order.
  ghost function AnyOrder<T(!new)>(elements: set<T>): seq<T> {
    if elements == {} then [] else var x :| x in elements; AnyOrder(elements - {x}) + [x]
  }

  lemma {:induction false} AnyOrderEnumerates<T(!new)>(elements: set<T>)
    ensures forall x :: x in AnyOrder(elements) <==> x in elements
    ensures forall i, j :: 0 <= i < j < |AnyOrder(elements)| ==> AnyOrder(elements)[i] != AnyOrder(elements)[j]
  {
    if elements != {} {
      var order := AnyOrder(elements);
      var rest, x := order[..|order| - 1], order[|order| - 1];
      AnyOrderEnumerates(elements - {x});
      assert rest == AnyOrder(elements - {x});
      assert forall i :: 0 <= i < |rest| ==> rest[i] in rest && rest[i] == order[i];
    }
  }
}
