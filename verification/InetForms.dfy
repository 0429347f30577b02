/** inet_pton6 accepts exactly these texts: groups, at most one gap, and perhaps a dotted quad or a colon at the end. */
module InetForms {
  import opened Basics
  import opened Octets
  import opened InetText

  function Pair(v: nat): (r: seq<Octet>)
    requires v <= 0xFFFF
    ensures |r| == NS_INT16SZ
  {
    [v / 256, v % 256]
  }

  /** What the scan leaves: the octets written, and how many there were when the gap was met. */
  datatype Scanned = Scanned(octets: seq<Octet>, gap: Option<nat>)

  /** The end of the text: the last group is written. */
  function AtEnd(out: seq<Octet>, gap: Option<nat>, saw: bool, val: nat): Option<Scanned>
    requires val <= 0xFFFF
  {
    if !saw then Some(Scanned(out, gap))
    else if |out| + NS_INT16SZ > NS_IN6ADDRSZ then None
    else Some(Scanned(out + Pair(val), gap))
  }

  /** A dot: the current token and all after it must be a dotted quad. */
  function AtDot(token: string, out: seq<Octet>, gap: Option<nat>): Option<Scanned>
  {
    if |out| + NS_INADDRSZ > NS_IN6ADDRSZ then None
    else
      match Scan4(token, [], false, 0)
      case Some(quad) => Some(Scanned(out + quad, gap))
      case None => None
  }

  /** The scan of inet_pton6 over the rest `t` of its text; `token` is the text from where the current token began. */
  function Scan6(t: string, token: string, out: seq<Octet>, gap: Option<nat>, saw: bool, val: nat): (r: Option<Scanned>)
    requires |out| <= NS_IN6ADDRSZ && val <= 0xFFFF && (gap.Some? ==> gap.value <= |out|)
    ensures r.Some? ==>
      |r.value.octets| <= NS_IN6ADDRSZ && (r.value.gap.Some? ==> r.value.gap.value <= |r.value.octets|)
    decreases |t|
  {
    if t == [] then AtEnd(out, gap, saw, val)
    else if IsHex(t[0]) then
      var next := val * 16 + HexValue(t[0]);
      if next > 0xFFFF then None else Scan6(t[1..], token, out, gap, true, next)
    else if t[0] == ':' then
      if !saw then if gap.Some? then None else Scan6(t[1..], t[1..], out, Some(|out|), false, val)
      else if |out| + NS_INT16SZ > NS_IN6ADDRSZ then None
      else Scan6(t[1..], t[1..], out + Pair(val), gap, false, 0)
    else if t[0] == '.' then AtDot(token, out, gap)
    else None
  }

  function Zeros(n: nat): seq<Octet> { seq(n, i => 0) }

  /** The shift: the octets after the gap move to the end; in a full address they are overwritten with zeros. */
  function Shifted(octets: seq<Octet>, gap: nat): (r: seq<Octet>)
    requires gap <= |octets| <= NS_IN6ADDRSZ
    ensures |r| == NS_IN6ADDRSZ
  {
    if |octets| == NS_IN6ADDRSZ then octets[..gap] + Zeros(NS_IN6ADDRSZ - gap)
    else octets[..gap] + Zeros(NS_IN6ADDRSZ - |octets|) + octets[gap..]
  }

  function Placed(s: Scanned): Option<seq<Octet>>
    requires |s.octets| <= NS_IN6ADDRSZ && (s.gap.Some? ==> s.gap.value <= |s.octets|)
  {
    match s.gap
    case Some(g) => Some(Shifted(s.octets, g))
    case None => if |s.octets| == NS_IN6ADDRSZ then Some(s.octets) else None
  }

  /** The scan from the beginning of a token. */
  function From(t: string, out: seq<Octet>, gap: Option<nat>): Option<Scanned>
    requires |out| <= NS_IN6ADDRSZ && (gap.Some? ==> gap.value <= |out|)
  {
    Scan6(t, t, out, gap, false, 0)
  }

  /** inet_pton6: a leading colon must be the first of two. */
  function Parse6(t: string): (r: Option<seq<Octet>>)
    ensures r.Some? ==> |r.value| == NS_IN6ADDRSZ
  {
    if t != [] && t[0] == ':' && (|t| == 1 || t[1] != ':') then None
    else
      match From(if t != [] && t[0] == ':' then t[1..] else t, [], None)
      case None => None
      case Some(s) => Placed(s)
  }

  // ----- the texts -----

  /** A group and its colon, or the second colon of a gap. */
  datatype Token = Group(g: string) | Gap

  datatype Last = Nothing | LastGroup(g: string) | Quad(q: string)

  datatype Form = Form(tokens: seq<Token>, last: Last)

  function TokenText(k: Token): string
  {
    match k case Group(g) => g + ":" case Gap => ":"
  }

  function TokensText(ks: seq<Token>): string
  {
    if ks == [] then [] else TokenText(ks[0]) + TokensText(ks[1..])
  }

  function LastText(l: Last): string
  {
    match l case Nothing => "" case LastGroup(g) => g case Quad(q) => q
  }

  /** A form that begins with a gap is written with both of its colons. */
  function Text(f: Form): string
  {
    (if f.tokens != [] && f.tokens[0].Gap? then ":" else "") + (TokensText(f.tokens) + LastText(f.last))
  }

  ghost predicate TokensOk(ks: seq<Token>)
  {
    forall i :: 0 <= i < |ks| && ks[i].Group? ==> IsGroup(ks[i].g)
  }

  ghost predicate LastOk(l: Last)
  {
    match l
    case Nothing => true
    case LastGroup(g) => IsGroup(g)
    case Quad(q) => exists os :: QuadOf(q, os)
  }

  ghost function TokenOctets(k: Token): seq<Octet>
    requires k.Group? ==> IsGroup(k.g)
  {
    match k case Group(g) => Pair(Hexadecimal(0, g)) case Gap => []
  }

  ghost function TokensOctets(ks: seq<Token>): seq<Octet>
    requires TokensOk(ks)
  {
    if ks == [] then []
    else
      assert ks[0].Group? ==> IsGroup(ks[0].g);
      TokenOctets(ks[0]) + TokensOctets(ks[1..])
  }

  ghost function LastOctets(l: Last): seq<Octet>
    requires LastOk(l)
  {
    match l
    case Nothing => []
    case LastGroup(g) => Pair(Hexadecimal(0, g))
    case Quad(q) => var os :| QuadOf(q, os); os
  }

  function Gaps(ks: seq<Token>): nat
  {
    if ks == [] then 0 else (if ks[0].Gap? then 1 else 0) + Gaps(ks[1..])
  }

  /** How many octets come before the gap, `n` having come before the tokens. */
  ghost function GapAt(ks: seq<Token>, n: nat): Option<nat>
    requires TokensOk(ks)
  {
    if ks == [] then None
    else if ks[0].Gap? then Some(n)
    else
      assert IsGroup(ks[0].g);
      GapAt(ks[1..], n + NS_INT16SZ)
  }

  ghost function FormOctets(f: Form): seq<Octet>
    requires TokensOk(f.tokens) && LastOk(f.last)
  {
    TokensOctets(f.tokens) + LastOctets(f.last)
  }

  // ----- scanning the texts -----

  lemma {:induction false} ScanHex(g: string, rest: string, token: string, out: seq<Octet>, gap: Option<nat>, saw: bool,
      val: nat)
    requires AllHex(g) && |out| <= NS_IN6ADDRSZ && val <= 0xFFFF && (gap.Some? ==> gap.value <= |out|)
    ensures Scan6(g + rest, token, out, gap, saw, val) ==
      if Hexadecimal(val, g) <= 0xFFFF then Scan6(rest, token, out, gap, saw || g != [], Hexadecimal(val, g)) else None
    decreases |g|
  {
    if g == [] {
      assert g + rest == rest;
    } else {
      var t := g + rest;
      assert t[0] == g[0] && t[1..] == g[1..] + rest;
      var next := val * 16 + HexValue(g[0]);
      HexadecimalGrows(next, g[1..]);
      if next <= 0xFFFF { ScanHex(g[1..], rest, token, out, gap, true, next); }
    }
  }

  /** The digits of a number of at most three decimal digits, read as hexadecimal ones. */
  function HexBound(d: nat): nat
  {
    if d == 0 then 0 else if d < 10 then 9 else if d < 100 then 16 * 9 + 9 else 16 * (16 * 9 + 9) + 9
  }

  /** A decimal field of at most 255 is small as a hexadecimal number too. */
  lemma {:induction false} FieldIsSmall(h: nat, d: nat, f: string)
    requires AllDigits(f) && h <= HexBound(d) && Decimal(d, f) <= 255
    ensures AllHex(f) && Hexadecimal(h, f) <= 0xFFFF
    decreases |f|
  {
    DecimalGrows(d, f);
    if f != [] {
      var x := HexValue(f[0]);
      DecimalGrows(d * 10 + x, f[1..]);
      FieldIsSmall(h * 16 + x, d * 10 + x, f[1..]);
    }
  }

  /** The first token and the rest, before more text and after the octets `out`. */
  lemma Unrolled(ks: seq<Token>, more: string, out: seq<Octet>)
    requires TokensOk(ks) && ks != []
    ensures TokensOk(ks[1..]) && (ks[0].Group? ==> IsGroup(ks[0].g))
    ensures TokensText(ks) + more == TokenText(ks[0]) + (TokensText(ks[1..]) + more)
    ensures out + TokensOctets(ks) == (out + TokenOctets(ks[0])) + TokensOctets(ks[1..])
    ensures |TokensOctets(ks)| == |TokenOctets(ks[0])| + |TokensOctets(ks[1..])|
    ensures GapAt(ks, |out|) == if ks[0].Gap? then Some(|out|) else GapAt(ks[1..], |out + TokenOctets(ks[0])|)
  {
    Assoc(out, TokenOctets(ks[0]), TokensOctets(ks[1..]));
    Assoc(TokenText(ks[0]), TokensText(ks[1..]), more);
  }

  /** The gap after the tokens `ks`, which follow the octets `n`. */
  ghost function GapAfter(ks: seq<Token>, n: nat, gap: Option<nat>): Option<nat>
    requires TokensOk(ks)
  {
    if gap.Some? then gap else GapAt(ks, n)
  }

  lemma {:induction false} GapInside(ks: seq<Token>, n: nat)
    requires TokensOk(ks)
    ensures GapAt(ks, n).Some? ==> n <= GapAt(ks, n).value <= n + |TokensOctets(ks)|
    ensures GapAt(ks, n).Some? <==> Gaps(ks) > 0
    decreases |ks|
  {
    if ks != [] && ks[0].Group? {
      assert IsGroup(ks[0].g);
      GapInside(ks[1..], n + NS_INT16SZ);
    }
  }

  lemma ScanToken(k: Token, rest: string, out: seq<Octet>, gap: Option<nat>)
    requires (k.Group? ==> IsGroup(k.g)) && |out| + |TokenOctets(k)| <= NS_IN6ADDRSZ
    requires (gap.Some? ==> gap.value <= |out|) && (k.Gap? ==> gap.None?)
    ensures From(TokenText(k) + rest, out, gap) == From(rest, out + TokenOctets(k), if k.Gap? then Some(|out|) else gap)
  {
    var t := TokenText(k) + rest;
    match k
    case Gap =>
      assert t[0] == ':' && t[1..] == rest && out + [] == out;
    case Group(g) =>
      Assoc(g, ":", rest);
      var colon := ":" + rest;
      assert colon[0] == ':' && colon[1..] == rest;
      ScanHex(g, colon, t, out, gap, false, 0);
  }

  /** The tokens `ks` are read one by one. */
  lemma {:induction false} ScanTokens(ks: seq<Token>, rest: string, out: seq<Octet>, gap: Option<nat>)
    requires TokensOk(ks) && |out| + |TokensOctets(ks)| <= NS_IN6ADDRSZ && (gap.Some? ==> gap.value <= |out|)
    requires Gaps(ks) + (if gap.Some? then 1 else 0) <= 1
    ensures
      var octets, gap' := out + TokensOctets(ks), GapAfter(ks, |out|, gap);
      (gap'.Some? ==> gap'.value <= |octets|) && From(TokensText(ks) + rest, out, gap) == From(rest, octets, gap')
    decreases |ks|
  {
    GapInside(ks, |out|);
    if ks == [] {
      assert out + [] == out && [] + rest == rest;
    } else {
      Unrolled(ks, rest, out);
      ScanToken(ks[0], TokensText(ks[1..]) + rest, out, gap);
      ScanTokens(ks[1..], rest, out + TokenOctets(ks[0]), if ks[0].Gap? then Some(|out|) else gap);
    }
  }

  /** The last token, or none, ends the scan. */
  lemma ScanLast(l: Last, out: seq<Octet>, gap: Option<nat>)
    requires LastOk(l) && |out| + |LastOctets(l)| <= NS_IN6ADDRSZ && (gap.Some? ==> gap.value <= |out|)
    ensures From(LastText(l), out, gap) == Some(Scanned(out + LastOctets(l), gap))
  {
    match l
    case Nothing => assert out + [] == out;
    case LastGroup(g) =>
      assert g + [] == g;
      ScanHex(g, [], g, out, gap, false, 0);
    case Quad(q) => ScanQuad(q, LastOctets(l), out, gap);
  }

  lemma ScanQuad(q: string, os: seq<Octet>, out: seq<Octet>, gap: Option<nat>)
    requires QuadOf(q, os) && |out| + |os| <= NS_IN6ADDRSZ && (gap.Some? ==> gap.value <= |out|)
    ensures From(q, out, gap) == Some(Scanned(out + os, gap))
  {
    var f, rest := QuadHead(q, os);
    var dot := "." + rest;
    assert dot[0] == '.';
    ScanHex(f, dot, q, out, gap, false, 0);
  }

  /** The first field of a quad, which the scan takes for a group until it meets the dot. */
  lemma QuadHead(q: string, os: seq<Octet>) returns (f: string, rest: string)
    requires QuadOf(q, os)
    ensures q == f + ("." + rest) && AllHex(f) && Hexadecimal(0, f) <= 0xFFFF
    ensures |os| == NS_INADDRSZ && Scan4(q, [], false, 0) == Some(os)
  {
    QuadIff(q, os);
    var fs :| |fs| == 4 && AllFields(fs) && q == Dotted(fs) && os == FieldOctets(fs);
    f, rest := fs[0], Dotted(fs[1..]);
    FieldIsSmall(0, 0, f);
  }
}
