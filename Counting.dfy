/** Counting the elements of a sequence that satisfy a predicate. */
module Counting {

  /** The number of elements of `s` satisfying `p`, counted from the back as cards are pushed. */
  function CountIf<T>(s: seq<T>, p: T -> bool): (n: nat)
    ensures n <= |s|
  {
    if |s| == 0 then 0
    else CountIf(s[..|s| - 1], p) + (if p(s[|s| - 1]) then 1 else 0)
  }

  lemma CountIfPush<T>(s: seq<T>, x: T, p: T -> bool)
    ensures CountIf(s + [x], p) == CountIf(s, p) + (if p(x) then 1 else 0)
  {
    assert (s + [x])[..|s|] == s;
  }

  lemma {:induction false} CountIfConcat<T>(a: seq<T>, b: seq<T>, p: T -> bool)
    ensures CountIf(a + b, p) == CountIf(a, p) + CountIf(b, p)
    decreases |b|
  {
    if |b| == 0 {
      assert a + b == a;
    } else {
      var b' := b[..|b| - 1];
      var x := b[|b| - 1];
      assert b == b' + [x];
      assert a + b == (a + b') + [x];
      CountIfConcat(a, b', p);
      CountIfPush(a + b', x, p);
      CountIfPush(b', x, p);
    }
  }

  /** Counts depend only on the multiset of elements: a permutation keeps every count. */
  lemma {:induction false} CountIfPerm<T>(a: seq<T>, b: seq<T>, p: T -> bool)
    requires multiset(a) == multiset(b)
    ensures CountIf(a, p) == CountIf(b, p)
    decreases |a|
  {
    if |a| == 0 {
      assert |b| == |multiset(b)| == 0;
    } else {
      var a' := a[..|a| - 1];
      var x := a[|a| - 1];
      assert a == a' + [x];
      assert x in multiset(b);
      var k :| 0 <= k < |b| && b[k] == x;
      var b' := b[..k] + b[k + 1..];
      assert b == b[..k] + [x] + b[k + 1..];
      assert multiset(b') == multiset(b) - multiset{x};
      assert multiset(a') == multiset(a) - multiset{x};
      CountIfPerm(a', b', p);
      CountIfPush(a', x, p);
      CountIfConcat(b[..k] + [x], b[k + 1..], p);
      CountIfConcat(b[..k], b[k + 1..], p);
      CountIfPush(b[..k], x, p);
    }
  }

  /**
   * The multiset of the elements of `s`, built from the back. Being
   * recursive, it is unfolded only where a proof asks for it, which keeps
   * invariants stated with it cheap to carry.
   */
  ghost function Bag<T>(s: seq<T>): multiset<T>
  {
    if |s| == 0 then multiset{} else Bag(s[..|s| - 1]) + multiset{s[|s| - 1]}
  }

  lemma {:induction false} BagIsMultiset<T>(s: seq<T>)
    ensures Bag(s) == multiset(s)
    decreases |s|
  {
    if |s| > 0 {
      BagIsMultiset(s[..|s| - 1]);
      assert s == s[..|s| - 1] + [s[|s| - 1]];
    }
  }
}
