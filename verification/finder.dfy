/**
 * utility/finder.go: linear membership scans. Every variant walks the list
 * front to back and stops at the first element equal to the value.
 */
module Finder {
  import opened Integers

  /** IsInGeneric: true exactly when the value occurs somewhere in the list. */
  method IsInGeneric<T(==)>(list: seq<T>, value: T) returns (found: bool)
    ensures found <==> value in list
  {
    for i := 0 to |list|
      invariant value !in list[..i]
    {
      if list[i] == value {
        return true;
      }
    }
    return false;
  }

  /** IsIn: the same scan over a list of strings. */
  method IsIn(list: seq<string>, value: string) returns (found: bool)
    ensures found <==> value in list
  {
    found := IsInGeneric(list, value);
  }

  /**
   * IsInInt, IsInInt8 ... IsInUint64: the scan over a list of Go integers of
   * type k; each is the generic scan at that element type.
   */
  method IsInInteger(k: IntKind, list: seq<int>, value: int) returns (found: bool)
    requires k.Holds(value) && forall x :: x in list ==> k.Holds(x)
    ensures found <==> value in list
  {
    found := IsInGeneric(list, value);
  }

  /**
   * Membership depends on the multiset of elements only: permuting or
   * sorting the list, as the HTTP trigger does with its method list, does not
   * change any answer.
   */
  lemma MembershipUnderPermutation<T>(a: seq<T>, b: seq<T>)
    requires multiset(a) == multiset(b)
    ensures forall v :: v in a <==> v in b
  {
    forall v
      ensures v in a <==> v in b
    {
      assert v in a <==> v in multiset(a);
      assert v in b <==> v in multiset(b);
    }
  }
}
