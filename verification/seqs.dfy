/** Order-preserving selection from sequences, the model of a filtered query or comprehension. */
module Seqs {

  /** No element occurs twice. */
  predicate Distinct<T(==)>(s: seq<T>) {
    forall a, b :: 0 <= a < b < |s| ==> s[a] != s[b]
  }

  /** The elements of `s` satisfying `p`, in their original order. */
  function Keep<T(!new)>(s: seq<T>, p: T -> bool): (r: seq<T>)
    ensures |r| <= |s|
    ensures forall x :: x in r <==> x in s && p(x)
  {
    if s == [] then []
    else if p(s[0]) then [s[0]] + Keep(s[1..], p)
    else Keep(s[1..], p)
  }

  /** Keeping preserves each kept element's multiplicity and drops the others entirely. */
  lemma {:induction false} KeepCount<T(!new)>(s: seq<T>, p: T -> bool, x: T)
    ensures multiset(Keep(s, p))[x] == if p(x) then multiset(s)[x] else 0
  {
    if s != [] {
      KeepCount(s[1..], p, x);
      assert s == [s[0]] + s[1..];
    }
  }

  /** Keeping distributes over concatenation, so a prefix of the input gives a prefix of the output. */
  lemma {:induction false} KeepAppend<T(!new)>(s: seq<T>, t: seq<T>, p: T -> bool)
    ensures Keep(s + t, p) == Keep(s, p) + Keep(t, p)
  {
    if s == [] {
      assert s + t == t;
    } else {
      assert (s + t)[1..] == s[1..] + t;
      KeepAppend(s[1..], t, p);
    }
  }
}
