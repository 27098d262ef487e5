/** Hexadecimal addresses, compared in lower case. */
module Addresses {

  const ZERO_ADDRESS: string := "0x0000000000000000000000000000000000000000"

  function LowerChar(c: char): char {
    if 'A' <= c <= 'Z' then (c as int + 32) as char else c
  }

  function Lower(s: string): string {
    if s == "" then "" else [LowerChar(s[0])] + Lower(s[1..])
  }

  predicate IsZeroAddress(addr: string) { Lower(addr) == ZERO_ADDRESS }

  /** One letter in either case, or the same character. */
  predicate SameLetter(c: char, d: char) {
    c == d || ('A' <= c <= 'Z' && d as int == c as int + 32) || ('A' <= d <= 'Z' && c as int == d as int + 32)
  }

  lemma LowerHead(s: string)
    requires s != ""
    ensures Lower(s)[0] == LowerChar(s[0]) && Lower(s)[1..] == Lower(s[1..])
  {
  }

  lemma {:induction false} LowerLength(s: string)
    ensures |Lower(s)| == |s|
  {
    if s == "" {
    } else {
      LowerLength(s[1..]);
    }
  }

  /** Two spellings are one address exactly when they differ only in the case of letters. */
  lemma {:induction false} SameAddress(a: string, b: string)
    ensures Lower(a) == Lower(b) <==> |a| == |b| && forall i :: 0 <= i < |a| ==> SameLetter(a[i], b[i])
  {
    LowerLength(a);
    LowerLength(b);
    if a == "" || b == "" {
    } else {
      SameAddress(a[1..], b[1..]);
      LowerHead(a);
      LowerHead(b);
      if Lower(a) == Lower(b) {
        assert Lower(a)[0] == Lower(b)[0] && Lower(a)[1..] == Lower(b)[1..];
        forall i | 0 <= i < |a| ensures SameLetter(a[i], b[i]) {
          if i > 0 { assert SameLetter(a[1..][i - 1], b[1..][i - 1]); }
        }
      }
      if |a| == |b| && forall i :: 0 <= i < |a| ==> SameLetter(a[i], b[i]) {
        assert SameLetter(a[0], b[0]);
        forall i | 0 <= i < |a| - 1 ensures SameLetter(a[1..][i], b[1..][i]) { assert SameLetter(a[i + 1], b[i + 1]); }
      }
    }
  }
}
