/**
 * Polynomials over GF(2) as bit strings, highest power first, and long division by a generator
 * whose leading coefficient is 1.
 */
module Gf2 {
  type Bits = seq<bool>

  type Generator = g: Bits | |g| > 0 && g[0] witness [true]

  function Zeros(n: nat): (b: Bits)
    ensures |b| == n && forall i :: 0 <= i < n ==> !b[i]
  {
    seq(n, i => false)
  }

  /** Sum, which is also difference. */
  function Xor(a: Bits, b: Bits): (r: Bits)
    requires |a| == |b|
    ensures |r| == |a| && forall i :: 0 <= i < |a| ==> r[i] == (a[i] != b[i])
  {
    seq(|a|, i requires 0 <= i < |a| => a[i] != b[i])
  }

  function Flip(b: Bits): (r: Bits)
    ensures |r| == |b| && forall i :: 0 <= i < |b| ==> r[i] == !b[i]
  {
    seq(|b|, i requires 0 <= i < |b| => !b[i])
  }

  function Scaled(b: bool, g: Bits): (r: Bits)
    ensures |r| == |g|
  {
    if b then g else Zeros(|g|)
  }

  function Degree(g: Generator): nat { |g| - 1 }

  /** One step of long division: cancel the leading coefficient and drop it. */
  function Cancel(p: Bits, g: Generator): (r: Bits)
    requires |p| > Degree(g)
    ensures |r| == |p| - 1
  {
    Xor(p, Scaled(p[0], g + Zeros(|p| - |g|)))[1..]
  }

  function Remainder(p: Bits, g: Generator): (r: Bits)
    requires |p| >= Degree(g)
    ensures |r| == Degree(g)
    decreases |p|
  {
    if |p| == Degree(g) then p else Remainder(Cancel(p, g), g)
  }

  /** Product of q and the generator. */
  function Times(q: Bits, g: Generator): (r: Bits)
    ensures |r| == |q| + Degree(g)
  {
    if q == [] then Zeros(Degree(g))
    else Xor(Scaled(q[0], g + Zeros(|q| - 1)), [false] + Times(q[1..], g))
  }

  /** p = q * g + r, with r of degree below that of g. */
  ghost predicate IsDivision(p: Bits, g: Generator, q: Bits, r: Bits) {
    |p| == |q| + Degree(g) && |r| == Degree(g) && p == Xor(Times(q, g), Zeros(|q|) + r)
  }

  /** Taking s out of s + x*u + x*z, whose leading coefficient is that of s, leaves u + z. */
  lemma TakeOut(p: Bits, s: Bits, u: Bits, z: Bits)
    requires |p| == |s| == |u| + 1 == |z| + 1
    ensures p == Xor(Xor(s, [false] + u), [false] + z) <==> p[0] == s[0] && Xor(p, s)[1..] == Xor(u, z)
  {
    var fu, fz := [false] + u, [false] + z;
    var sum, left, right := Xor(Xor(s, fu), fz), Xor(p, s)[1..], Xor(u, z);
    assert sum[0] == s[0];
    forall i | 0 < i < |p| ensures p[i] == sum[i] <==> left[i - 1] == right[i - 1] {
      assert fu[i] == u[i - 1] && fz[i] == z[i - 1];
      assert left[i - 1] == Xor(p, s)[i];
    }
    if p[0] == s[0] && left == right {
      assert forall i | 0 <= i < |p| :: p[i] == sum[i];
    }
    if p == sum {
      assert forall i | 0 <= i < |left| :: p[i + 1] == sum[i + 1] && left[i] == right[i];
    }
  }

  lemma MoreZeros(n: nat, r: Bits)
    ensures Zeros(n + 1) + r == [false] + (Zeros(n) + r)
  {
  }

  /** Dividing once removes exactly the leading term of the quotient. */
  lemma CancelTerm(p: Bits, g: Generator, q: Bits, r: Bits)
    requires q != [] && |p| == |q| + Degree(g) && |r| == Degree(g)
    ensures IsDivision(p, g, q, r) <==> p[0] == q[0] && IsDivision(Cancel(p, g), g, q[1..], r)
  {
    var s := Scaled(q[0], g + Zeros(|q| - 1));
    assert s[0] == q[0];
    MoreZeros(|q| - 1, r);
    TakeOut(p, s, Times(q[1..], g), Zeros(|q| - 1) + r);
  }

  /** Long division finds a quotient, and its result is the one remainder there is. */
  lemma {:induction false} RemainderDivides(p: Bits, g: Generator) returns (q: Bits)
    requires |p| >= Degree(g)
    ensures IsDivision(p, g, q, Remainder(p, g))
    decreases |p|
  {
    if |p| == Degree(g) {
      q := [];
      assert p == Xor(Times(q, g), Zeros(0) + p);
    } else {
      var tail := RemainderDivides(Cancel(p, g), g);
      q := [p[0]] + tail;
      assert q[1..] == tail;
      CancelTerm(p, g, q, Remainder(p, g));
    }
  }

  lemma {:induction false} RemainderIsUnique(p: Bits, g: Generator, q: Bits, r: Bits)
    requires IsDivision(p, g, q, r)
    ensures r == Remainder(p, g)
    decreases |q|
  {
    if q == [] {
      assert p == r;
    } else {
      CancelTerm(p, g, q, r);
      RemainderIsUnique(Cancel(p, g), g, q[1..], r);
    }
  }

  // --- the shift register ---

  /** Feeds one message bit to a register that divides by [true] + low. */
  function Clock(reg: Bits, b: bool, low: Bits): (r: Bits)
    requires |reg| == |low| > 0
    ensures |r| == |reg|
  {
    Xor(reg[1..] + [false], Scaled(reg[0] != b, low))
  }

  function ClockAll(reg: Bits, m: Bits, low: Bits): (r: Bits)
    requires |reg| == |low| > 0
    ensures |r| == |reg|
    decreases |m|
  {
    if m == [] then reg else ClockAll(Clock(reg, m[0], low), m[1..], low)
  }

  lemma ClockFirst(reg: Bits, b: bool, m: Bits, low: Bits)
    requires |reg| == |low| > 0
    ensures ClockAll(reg, [b] + m, low) == ClockAll(Clock(reg, b, low), m, low)
  {
    assert ([b] + m)[1..] == m;
  }

  lemma ClockZero(reg: Bits, n: nat, low: Bits)
    requires |reg| == |low| > 0 && n > 0
    ensures ClockAll(reg, Zeros(n), low) == ClockAll(Clock(reg, false, low), Zeros(n - 1), low)
  {
    assert Zeros(n)[1..] == Zeros(n - 1);
  }

  /** The message times x^|reg|, with the register's start value added to its leading coefficients. */
  function Dividend(reg: Bits, m: Bits): (p: Bits)
    ensures |p| == |reg| + |m|
  {
    Xor(reg + Zeros(|m|), m + Zeros(|reg|))
  }

  lemma ClockCancels(reg: Bits, m: Bits, low: Bits)
    requires |reg| == |low| > 0 && m != []
    ensures Cancel(Dividend(reg, m), [true] + low) == Dividend(Clock(reg, m[0], low), m[1..])
  {
    var n, w := |m|, |reg|;
    var p, next := Dividend(reg, m), Clock(reg, m[0], low);
    var s := Scaled(p[0], [true] + low + Zeros(n - 1));
    var left, right := Xor(p, s)[1..], Dividend(next, m[1..]);
    var padded, fed := reg + Zeros(n), m + Zeros(w);
    var padded', fed' := next + Zeros(n - 1), m[1..] + Zeros(w);
    forall i | 0 <= i < n + w - 1 ensures left[i] == right[i] {
      assert left[i] == (p[i + 1] != s[i + 1]);
      assert fed[i + 1] == fed'[i];
      if i < w {
        assert padded'[i] == next[i] == ((reg[1..] + [false])[i] != Scaled(p[0], low)[i]);
      }
    }
    assert left == right;
  }

  /** Clocking the message through the register leaves the remainder of the division. */
  lemma {:induction false} ClockAllDivides(reg: Bits, m: Bits, low: Bits)
    requires |reg| == |low| > 0
    ensures ClockAll(reg, m, low) == Remainder(Dividend(reg, m), [true] + low)
    decreases |m|
  {
    if m == [] {
      assert Dividend(reg, m) == reg;
    } else {
      ClockCancels(reg, m, low);
      ClockAllDivides(Clock(reg, m[0], low), m[1..], low);
    }
  }

  lemma {:induction false} ClockAllConcat(reg: Bits, a: Bits, b: Bits, low: Bits)
    requires |reg| == |low| > 0
    ensures ClockAll(reg, a + b, low) == ClockAll(ClockAll(reg, a, low), b, low)
    decreases |a|
  {
    if a == [] {
      assert a + b == b;
    } else {
      assert (a + b)[1..] == a[1..] + b;
      ClockAllConcat(Clock(reg, a[0], low), a[1..], b, low);
    }
  }

  lemma ClockAt(reg: Bits, b: bool, low: Bits, i: nat)
    requires |reg| == |low| > i
    ensures Clock(reg, b, low)[i] == ((i + 1 < |reg| && reg[i + 1]) != (reg[0] != b && low[i]))
  {
  }

  lemma XorLaws(a: Bits, b: Bits)
    requires |a| == |b|
    ensures Xor(a, b) == Xor(b, a)
    ensures Xor(a, Zeros(|a|)) == a && Xor(Zeros(|a|), a) == a
    ensures Xor(Xor(a, b), a) == b
  {
  }

  // --- tables: the effect of n bits at once ---

  lemma ClockAdds(r: Bits, s: Bits, a: bool, b: bool, low: Bits)
    requires |r| == |s| == |low| > 0
    ensures Clock(Xor(r, s), a != b, low) == Xor(Clock(r, a, low), Clock(s, b, low))
  {
    forall i | 0 <= i < |low|
      ensures Clock(Xor(r, s), a != b, low)[i] == (Clock(r, a, low)[i] != Clock(s, b, low)[i])
    {
      ClockAt(r, a, low, i);
      ClockAt(s, b, low, i);
      ClockAt(Xor(r, s), a != b, low, i);
    }
  }

  /** The register is a linear function of its start value and the message. */
  lemma {:induction false} ClockAllAdds(r: Bits, s: Bits, m: Bits, k: Bits, low: Bits)
    requires |r| == |s| == |low| > 0 && |m| == |k|
    ensures ClockAll(Xor(r, s), Xor(m, k), low) == Xor(ClockAll(r, m, low), ClockAll(s, k, low))
    decreases |m|
  {
    if m == [] {
    } else {
      assert Xor(m, k)[1..] == Xor(m[1..], k[1..]);
      ClockAdds(r, s, m[0], k[0], low);
      ClockAllAdds(Clock(r, m[0], low), Clock(s, k[0], low), m[1..], k[1..], low);
    }
  }

  lemma ShiftOnce(r: Bits, n: nat)
    requires 0 < n <= |r|
    ensures (r[1..] + [false])[n - 1..] + Zeros(n - 1) == r[n..] + Zeros(n)
  {
  }

  lemma ShiftedFront(r: Bits, n: nat)
    requires 0 < n <= |r|
    ensures r[..n] == [r[0]] + (r[1..] + [false])[..n - 1]
  {
  }

  /** Fed its own first bit, a register shifts once. */
  lemma ClockOwnBit(r: Bits, low: Bits)
    requires |r| == |low| > 0
    ensures Clock(r, r[0], low) == r[1..] + [false]
  {
  }

  /** Fed its own leading bits, a register only shifts. */
  lemma {:induction false} ClockOwnBits(reg: Bits, n: nat, low: Bits)
    requires |reg| == |low| > 0 && n <= |reg|
    ensures ClockAll(reg, reg[..n], low) == reg[n..] + Zeros(n)
    decreases n
  {
    if n == 0 {
      assert reg[..0] == [] && reg[0..] + Zeros(0) == reg;
    } else {
      var next := reg[1..] + [false];
      ClockOwnBit(reg, low);
      ShiftedFront(reg, n);
      ClockFirst(reg, reg[0], next[..n - 1], low);
      ClockOwnBits(next, n - 1, low);
      ShiftOnce(reg, n);
    }
  }

  /** n message bits act through their sum with the leading n bits; the others only move up. */
  lemma TableLookup(reg: Bits, m: Bits, low: Bits)
    requires |reg| == |low| > 0 && |m| <= |reg|
    ensures ClockAll(reg, m, low)
         == Xor(ClockAll(Zeros(|reg|), Xor(reg[..|m|], m), low), reg[|m|..] + Zeros(|m|))
  {
    var lead := reg[..|m|];
    XorLaws(reg, reg);
    XorLaws(lead, m);
    ClockAllAdds(Zeros(|reg|), reg, Xor(lead, m), lead, low);
    ClockOwnBits(reg, |m|, low);
  }

  lemma LoadedParts(m: Bits, w: nat)
    requires |m| <= w
    ensures (m + Zeros(w - |m|))[..|m|] == m
    ensures (m + Zeros(w - |m|))[|m|..] + Zeros(|m|) == Zeros(w)
  {
  }

  lemma XorZeros(a: Bits, z: Bits)
    requires z == Zeros(|a|)
    ensures Xor(a, z) == a
  {
  }

  /** A register whose leading bits are the message and whose other bits are zero. */
  lemma PreloadFrom(reg: Bits, m: Bits, z: Bits, low: Bits)
    requires |reg| == |low| > 0 && |m| <= |low| && reg[..|m|] == m
    requires z == Zeros(|m|) && reg[|m|..] + z == Zeros(|low|)
    ensures ClockAll(reg, z, low) == ClockAll(Zeros(|low|), m, low)
  {
    XorZeros(m, z);
    TableLookup(reg, z, low);
    XorZeros(ClockAll(Zeros(|low|), m, low), Zeros(|low|));
  }

  /** A message may be loaded into an empty register instead of being fed to it. */
  lemma Preload(m: Bits, low: Bits)
    requires |m| <= |low| && |low| > 0
    ensures ClockAll(m + Zeros(|low| - |m|), Zeros(|m|), low) == ClockAll(Zeros(|low|), m, low)
  {
    LoadedParts(m, |low|);
    PreloadFrom(m + Zeros(|low| - |m|), m, Zeros(|m|), low);
  }

  // --- what a remainder detects ---

  lemma ShiftApart(r: Bits, s: Bits, r': Bits, s': Bits, a: bool, b: bool, low: Bits, d: Bits)
    requires |r| == |s| == |r'| == |s'| == |low| == |d| > 0 && low[|low| - 1] && !d[|d| - 1]
    requires forall i :: 0 <= i < |r| ==> d[i] == (r'[i] != s'[i])
    requires forall i :: 0 <= i < |r| ==> r'[i] == ((i + 1 < |r| && r[i + 1]) != (r[0] != a && low[i]))
    requires forall i :: 0 <= i < |r| ==> s'[i] == ((i + 1 < |r| && s[i + 1]) != (s[0] != b && low[i]))
    ensures Xor(r, s) == [a != b] + d[..|d| - 1]
  {
    var w := |r|;
    assert !d[w - 1] && (r[0] != a) == (s[0] != b);
    forall i | 0 < i < w ensures (r[i] != s[i]) == d[i - 1] {
      assert d[i - 1] == (r'[i - 1] != s'[i - 1]);
    }
  }

  /** One clock tells apart registers or bits that differ, when the generator's constant term is 1. */
  lemma ClockApart(r: Bits, s: Bits, a: bool, b: bool, low: Bits, d: Bits)
    requires |r| == |s| == |low| == |d| > 0 && low[|low| - 1] && !d[|d| - 1]
    requires Xor(Clock(r, a, low), Clock(s, b, low)) == d
    ensures Xor(r, s) == [a != b] + d[..|d| - 1]
  {
    var w := |low|;
    var r', s' := Clock(r, a, low), Clock(s, b, low);
    forall i | 0 <= i < w
      ensures d[i] == (r'[i] != s'[i])
      ensures r'[i] == ((i + 1 < w && r[i + 1]) != (r[0] != a && low[i]))
      ensures s'[i] == ((i + 1 < w && s[i + 1]) != (s[0] != b && low[i]))
    {
      ClockAt(r, a, low, i);
      ClockAt(s, b, low, i);
    }
    ShiftApart(r, s, r', s', a, b, low, d);
  }

  lemma PeelXor(u: Bits, v: Bits, n: nat)
    requires |u| == |v| > 0
    ensures (Xor(u[1..], v[1..]) + Zeros(n + 1))[..|u| - 1 + n] == Xor(u[1..], v[1..]) + Zeros(n)
    ensures Xor(u, v) == [u[0] != v[0]] + Xor(u[1..], v[1..])
  {
  }

  lemma MeetBefore(r: Bits, s: Bits, u: Bits, v: Bits, low: Bits, n: nat)
    requires |r| == |s| == |low| > 0 && low[|low| - 1] && |u| == |v| > 0 && |low| == |u| + n
    requires Xor(Clock(r, u[0], low), Clock(s, v[0], low)) == Xor(u[1..], v[1..]) + Zeros(n + 1)
    ensures Xor(r, s) == Xor(u, v) + Zeros(n)
  {
    ClockApart(r, s, u[0], v[0], low, Xor(u[1..], v[1..]) + Zeros(n + 1));
    PeelXor(u, v, n);
  }

  /** Registers that meet after at most |low| clocks differed only in what they were about to read. */
  lemma {:induction false} MeetingRegisters(r: Bits, s: Bits, u: Bits, v: Bits, low: Bits)
    requires |r| == |s| == |low| > 0 && low[|low| - 1] && |u| == |v| <= |low|
    requires ClockAll(r, u, low) == ClockAll(s, v, low)
    ensures Xor(r, s) == Xor(u, v) + Zeros(|low| - |u|)
    decreases |u|
  {
    if u == [] {
      assert Xor(r, s) == Zeros(|low|);
      assert Xor(u, v) + Zeros(|low|) == Zeros(|low|);
    } else {
      MeetingRegisters(Clock(r, u[0], low), Clock(s, v[0], low), u[1..], v[1..], low);
      MeetBefore(r, s, u, v, low, |low| - |u|);
    }
  }

  lemma XorNothing(a: Bits, b: Bits)
    requires |a| == |b| && Xor(a, b) == Zeros(|a|)
    ensures a == b
  {
    assert forall i :: 0 <= i < |a| ==> a[i] == b[i] || Xor(a, b)[i];
  }

  lemma {:induction false} SuffixKeepsApart(r: Bits, s: Bits, z: Bits, low: Bits)
    requires |r| == |s| == |low| > 0 && low[|low| - 1]
    requires ClockAll(r, z, low) == ClockAll(s, z, low)
    ensures r == s
    decreases |z|
  {
    if z == [] {
    } else {
      var r', s' := Clock(r, z[0], low), Clock(s, z[0], low);
      SuffixKeepsApart(r', s', z[1..], low);
      assert Xor(r', s') == Zeros(|low|);
      ClockApart(r, s, z[0], z[0], low, Zeros(|low|));
      assert Xor(r, s) == Zeros(|low|);
      XorNothing(r, s);
    }
  }

  lemma {:induction false} MiddleOf(reg: Bits, a: Bits, u: Bits, z: Bits, low: Bits)
    requires |reg| == |low| > 0
    ensures ClockAll(reg, a + u + z, low) == ClockAll(ClockAll(ClockAll(reg, a, low), u, low), z, low)
  {
    ClockAllConcat(reg, a, u, low);
    ClockAllConcat(reg, a + u, z, low);
  }

  lemma SamePrefix(r: Bits, u: Bits, v: Bits)
    requires |u| == |v| <= |r| && Xor(r, r) == Xor(u, v) + Zeros(|r| - |u|)
    ensures u == v
  {
    forall i | 0 <= i < |u| ensures u[i] == v[i] {
      assert Xor(r, r)[i] == Xor(u, v)[i];
    }
  }

  lemma BurstFrom(start: Bits, u: Bits, v: Bits, z: Bits, low: Bits)
    requires |start| == |low| > 0 && low[|low| - 1] && |u| == |v| <= |low|
    requires ClockAll(ClockAll(start, u, low), z, low) == ClockAll(ClockAll(start, v, low), z, low)
    ensures u == v
  {
    SuffixKeepsApart(ClockAll(start, u, low), ClockAll(start, v, low), z, low);
    MeetingRegisters(start, start, u, v, low);
    SamePrefix(start, u, v);
  }

  /** Errors confined to as many consecutive bits as the register is wide change the remainder. */
  lemma BurstChangesRegister(reg: Bits, a: Bits, u: Bits, v: Bits, z: Bits, low: Bits)
    requires |reg| == |low| > 0 && low[|low| - 1] && |u| == |v| <= |low|
    requires ClockAll(reg, a + u + z, low) == ClockAll(reg, a + v + z, low)
    ensures u == v
  {
    MiddleOf(reg, a, u, z, low);
    MiddleOf(reg, a, v, z, low);
    BurstFrom(ClockAll(reg, a, low), u, v, z, low);
  }
}
