/** Sums over finite sets and over sequences, and their independence of order. */
module Sums {

  ghost function SumSet<K(!new)>(s: set<K>, f: K -> int): int {
    if s == {} then 0
    else
      var k :| k in s;
      f(k) + SumSet(s - {k}, f)
  }

  /** Any element may be taken out first. */
  lemma {:induction false} SumSetPick<K(!new)>(s: set<K>, f: K -> int, k: K)
    requires k in s
    ensures SumSet(s, f) == f(k) + SumSet(s - {k}, f)
  {
    var j :| j in s && SumSet(s, f) == f(j) + SumSet(s - {j}, f);
    if j != k {
      SumSetPick(s - {j}, f, k);
      SumSetPick(s - {k}, f, j);
      assert s - {j} - {k} == s - {k} - {j};
    }
  }

  lemma {:induction false} SumSetSame<K(!new)>(s: set<K>, f: K -> int, g: K -> int)
    requires forall k :: k in s ==> f(k) == g(k)
    ensures SumSet(s, f) == SumSet(s, g)
  {
    if s != {} {
      var k :| k in s;
      SumSetPick(s, f, k);
      SumSetPick(s, g, k);
      SumSetSame(s - {k}, f, g);
    }
  }

  function SumSeq<T>(s: seq<T>, f: T -> int): int {
    if |s| == 0 then 0 else SumSeq(s[..|s| - 1], f) + f(s[|s| - 1])
  }

  lemma {:induction false} SumSeqSame<T>(s: seq<T>, f: T -> int, g: T -> int)
    requires forall t :: t in s ==> f(t) == g(t)
    ensures SumSeq(s, f) == SumSeq(s, g)
  {
    if |s| == 0 {
    } else {
      assert s[|s| - 1] in s;
      SumSeqSame(s[..|s| - 1], f, g);
    }
  }

  lemma {:induction false} SumOfZeros<T>(s: seq<T>, f: T -> int)
    requires forall t :: t in s ==> f(t) == 0
    ensures SumSeq(s, f) == 0
  {
    if |s| == 0 {
    } else {
      assert s[|s| - 1] in s;
      SumOfZeros(s[..|s| - 1], f);
    }
  }

  lemma {:induction false} SumNotNegative<T>(s: seq<T>, f: T -> int)
    requires forall x :: f(x) >= 0
    ensures SumSeq(s, f) >= 0
  {
    if |s| == 0 {
    } else {
      SumNotNegative(s[..|s| - 1], f);
    }
  }

  lemma {:induction false} CountsAtLeastOne<T>(s: seq<T>, f: T -> int, t: T)
    requires t in s && f(t) > 0 && forall x :: f(x) >= 0
    ensures SumSeq(s, f) > 0
  {
    var init, last := s[..|s| - 1], s[|s| - 1];
    assert s == init + [last];
    if t in init { CountsAtLeastOne(init, f, t); } else { SumNotNegative(init, f); }
  }

  lemma {:induction false} SumSeqConcat<T>(a: seq<T>, b: seq<T>, f: T -> int)
    ensures SumSeq(a + b, f) == SumSeq(a, f) + SumSeq(b, f)
  {
    if b == [] {
      assert a + b == a;
    } else {
      SumSeqConcat(a, b[..|b| - 1], f);
      assert (a + b)[..|a + b| - 1] == a + b[..|b| - 1];
    }
  }

  lemma SumSeqMiddle<T>(a: seq<T>, x: T, b: seq<T>, f: T -> int)
    ensures SumSeq(a + [x] + b, f) == f(x) + SumSeq(a + b, f)
  {
    SumSeqConcat(a + [x], b, f);
    SumSeqConcat(a, [x], f);
    SumSeqConcat(a, b, f);
  }

  lemma MultisetMiddle<T>(a: seq<T>, x: T, b: seq<T>)
    ensures multiset(a + [x] + b) == multiset(a + b) + multiset{x}
  {
  }

  lemma ConsMultiset<T>(x: T, s: seq<T>)
    ensures multiset([x] + s) == multiset(s) + multiset{x}
  {
  }

  lemma SplitAt<T>(s: seq<T>, i: nat)
    requires i < |s|
    ensures s == s[..i] + [s[i]] + s[i + 1..]
  {
  }

  lemma TwiceIn<T>(s: seq<T>, i: nat, j: nat)
    requires i < j < |s| && s[i] == s[j]
    ensures multiset(s)[s[i]] >= 2
  {
    assert s == s[..j] + ([s[j]] + s[j + 1..]);
    assert s[..j][i] == s[j];
    assert multiset(s) == multiset(s[..j]) + multiset([s[j]] + s[j + 1..]);
  }

  lemma SumSeqRemove<T>(s: seq<T>, i: nat, f: T -> int)
    requires i < |s|
    ensures SumSeq(s, f) == f(s[i]) + SumSeq(s[..i] + s[i + 1..], f)
    ensures multiset(s) == multiset(s[..i] + s[i + 1..]) + multiset{s[i]}
  {
    SplitAt(s, i);
    SumSeqMiddle(s[..i], s[i], s[i + 1..], f);
    MultisetMiddle(s[..i], s[i], s[i + 1..]);
  }

  lemma SameWithout<T>(a: seq<T>, x: T, b: seq<T>, rest: seq<T>)
    requires multiset(a + [x]) == multiset(b) && multiset(b) == multiset(rest) + multiset{x}
    ensures multiset(a) == multiset(rest)
  {
    MultisetMiddle(a, x, []);
    assert a + [x] + [] == a + [x] && a + [] == a;
    assert multiset(a) == multiset(b) - multiset{x};
    assert multiset(rest) == multiset(b) - multiset{x};
  }

  /** Sums depend only on the multiset of elements. */
  lemma {:induction false} SumSeqPermutation<T>(a: seq<T>, b: seq<T>, f: T -> int)
    requires multiset(a) == multiset(b)
    ensures SumSeq(a, f) == SumSeq(b, f)
  {
    if a == [] {
      assert |multiset(b)| == 0;
    } else {
      var init, x := a[..|a| - 1], a[|a| - 1];
      assert a == init + [x];
      assert x in multiset(b);
      var i :| 0 <= i < |b| && b[i] == x;
      var rest := b[..i] + b[i + 1..];
      SumSeqRemove(b, i, f);
      SameWithout(init, x, b, rest);
      SumSeqPermutation(init, rest, f);
    }
  }
}
