/** Octets and ASCII case. */
module Octets {
  type Octet = x: int | 0 <= x < 256

  /** ASCII lower case of one octet. */
  function MkLower(c: Octet): Octet
  {
    if 0x41 <= c <= 0x5A then c + 0x20 else c
  }

  /** Two octets fold to the same one exactly when they are equal or the two cases of one ASCII letter. */
  lemma FoldIff(c: Octet, d: Octet)
    ensures MkLower(c) == MkLower(d) <==>
      c == d || (0x41 <= c <= 0x5A && d == c + 0x20) || (0x41 <= d <= 0x5A && c == d + 0x20)
  {
  }

  /** Equality up to ASCII case: octet by octet the same, or the upper and lower case of one letter. */
  ghost predicate EqFold(a: seq<Octet>, b: seq<Octet>)
  {
    && |a| == |b|
    && forall i :: 0 <= i < |a| ==>
       a[i] == b[i] || (0x41 <= a[i] <= 0x5A && b[i] == a[i] + 0x20) || (0x41 <= b[i] <= 0x5A && a[i] == b[i] + 0x20)
  }

  /** The comparison of dn_find is equality up to case. */
  lemma EqFoldIff(a: seq<Octet>, b: seq<Octet>)
    ensures EqFold(a, b) <==> |a| == |b| && forall i :: 0 <= i < |a| ==> MkLower(a[i]) == MkLower(b[i])
  {
    if |a| == |b| {
      forall i | 0 <= i < |a|
        ensures MkLower(a[i]) == MkLower(b[i]) <==>
          a[i] == b[i] || (0x41 <= a[i] <= 0x5A && b[i] == a[i] + 0x20) || (0x41 <= b[i] <= 0x5A && a[i] == b[i] + 0x20)
      {
        FoldIff(a[i], b[i]);
      }
    }
  }

  lemma EqFoldConcat(a: seq<Octet>, b: seq<Octet>, c: seq<Octet>, d: seq<Octet>)
    requires |a| == |c|
    ensures EqFold(a + b, c + d) <==> EqFold(a, c) && EqFold(b, d)
  {
    if EqFold(a + b, c + d) {
      assert forall i :: 0 <= i < |a| ==> (a + b)[i] == a[i] && (c + d)[i] == c[i];
      assert forall i :: 0 <= i < |b| ==> (a + b)[|a| + i] == b[i];
      assert forall i :: 0 <= i < |d| ==> (c + d)[|a| + i] == d[i];
    }
  }

  lemma EqFoldPrefix(x: seq<Octet>, a: seq<Octet>, b: seq<Octet>)
    requires EqFold(a, b)
    ensures EqFold(x + a, x + b)
  {}

  /** Two length-prefixed labels and what follows them, compared up to ASCII case. */
  lemma EqFoldLabel(n: Octet, a: seq<Octet>, rest: seq<Octet>, n': Octet, a': seq<Octet>, rest': seq<Octet>)
    requires n == |a| < 0x40 && n' == |a'| < 0x40
    ensures EqFold([n] + (a + rest), [n'] + (a' + rest')) <==> n == n' && EqFold(a, a') && EqFold(rest, rest')
  {
    if n == n' {
      EqFoldConcat([n], a + rest, [n'], a' + rest');
      EqFoldConcat(a, rest, a', rest');
    } else {
      assert ([n] + (a + rest))[0] == n && ([n'] + (a' + rest'))[0] == n';
    }
  }
}
