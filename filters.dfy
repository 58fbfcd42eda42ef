/**
 * The order-keeping filter shared by the featured-id resolver (the
 * `not in` query on the recent rows) and the featured merge (`delete_if`
 * of the featured entries).
 */
module Filters {

  /**
   * The elements whose key is not among `excluded`, in their original order.
   */
  function Unlisted<T>(s: seq<T>, key: T -> string, excluded: seq<string>): seq<T>
  {
    if s == [] then []
    else if key(s[0]) in excluded then Unlisted(s[1..], key, excluded)
    else [s[0]] + Unlisted(s[1..], key, excluded)
  }

  /** Filtering a concatenation filters each part: the survivors keep their order. */
  lemma {:induction false} UnlistedAppend<T>(a: seq<T>, b: seq<T>, key: T -> string, excluded: seq<string>)
    ensures Unlisted(a + b, key, excluded) == Unlisted(a, key, excluded) + Unlisted(b, key, excluded)
  {
    if a != [] {
      assert (a + b)[1..] == a[1..] + b;
      UnlistedAppend(a[1..], b, key, excluded);
    } else {
      assert a + b == b;
    }
  }

  /** When no key is excluded, filtering changes nothing. */
  lemma {:induction false} UnlistedNone<T>(s: seq<T>, key: T -> string, excluded: seq<string>)
    requires forall x :: x in s ==> key(x) !in excluded
    ensures Unlisted(s, key, excluded) == s
  {
    if s != [] {
      assert s[0] in s;
      UnlistedNone(s[1..], key, excluded);
      assert s == [s[0]] + s[1..];
    }
  }

  /** Exactly the elements whose key is not excluded survive, and none is added. */
  lemma {:induction false} UnlistedElements<T>(s: seq<T>, key: T -> string, excluded: seq<string>)
    ensures forall x :: x in Unlisted(s, key, excluded) <==> x in s && key(x) !in excluded
    ensures |Unlisted(s, key, excluded)| <= |s|
  {
    if s != [] {
      UnlistedElements(s[1..], key, excluded);
      assert s == [s[0]] + s[1..];
    }
  }
}
