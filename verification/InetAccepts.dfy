/** What inet_pton6 accepts, exactly, and what it makes of the text forms of RFC 4291 section 2.2. */
module InetAccepts {
  import opened Basics
  import opened Octets
  import opened InetText
  import opened InetForms

  /** Groups and at most one gap, sixteen octets in all without a gap and at most sixteen with one. */
  ghost predicate Fits(f: Form)
  {
    && TokensOk(f.tokens) && LastOk(f.last) && Gaps(f.tokens) <= 1
    && |FormOctets(f)| <= NS_IN6ADDRSZ && (Gaps(f.tokens) == 0 ==> |FormOctets(f)| == NS_IN6ADDRSZ)
  }

  ghost function ScannedForm(f: Form): Scanned
    requires TokensOk(f.tokens) && LastOk(f.last)
  {
    Scanned(FormOctets(f), GapAt(f.tokens, 0))
  }

  /** Only a gap begins with a colon. */
  lemma FirstChar(f: Form)
    requires TokensOk(f.tokens) && LastOk(f.last)
    ensures
      var t := TokensText(f.tokens) + LastText(f.last);
      t != [] && t[0] == ':' <==> f.tokens != [] && f.tokens[0].Gap?
  {
    if f.tokens != [] {
      Unrolled(f.tokens, LastText(f.last), []);
    } else {
      assert TokensText(f.tokens) + LastText(f.last) == LastText(f.last);
      match f.last
      case Quad(q) =>
        var os :| QuadOf(q, os);
        var g, rest := QuadHead(q, os);
        QuadIff(q, os);
      case _ =>
    }
  }

  lemma ParseText(f: Form)
    requires TokensOk(f.tokens) && LastOk(f.last)
    ensures Parse6(Text(f)) ==
      match From(TokensText(f.tokens) + LastText(f.last), [], None)
      case None => None
      case Some(s) => Placed(s)
  {
    var t := TokensText(f.tokens) + LastText(f.last);
    FirstChar(f);
    if f.tokens != [] && f.tokens[0].Gap? {
      assert Text(f)[1..] == t;
    } else {
      assert Text(f) == t;
    }
  }

  /** A text that fits is accepted, as the octets of its tokens around its gap. */
  lemma FormAccepted(f: Form)
    requires Fits(f)
    ensures GapAt(f.tokens, 0).Some? ==> GapAt(f.tokens, 0).value <= |FormOctets(f)|
    ensures Parse6(Text(f)) == Placed(ScannedForm(f)) && Parse6(Text(f)).Some?
  {
    GapInside(f.tokens, 0);
    ScanTokens(f.tokens, LastText(f.last), [], None);
    assert [] + TokensOctets(f.tokens) == TokensOctets(f.tokens);
    ScanLast(f.last, TokensOctets(f.tokens), GapAt(f.tokens, 0));
    ParseText(f);
  }

  /** The longest run of hexadecimal digits at the beginning. */
  lemma {:induction false} HexRun(t: string) returns (g: string, rest: string)
    ensures t == g + rest && AllHex(g) && (rest == [] || !IsHex(rest[0])) && (g == [] ==> rest == t)
    decreases |t|
  {
    if t == [] || !IsHex(t[0]) {
      g, rest := [], t;
    } else {
      g, rest := HexRun(t[1..]);
      g := [t[0]] + g;
      assert t == [t[0]] + t[1..];
    }
  }

  /** `t` is made of the tokens and the last one, and its scan found their octets and their gap. */
  ghost predicate MadeOf(t: string, out: seq<Octet>, gap: Option<nat>, ks: seq<Token>, l: Last)
    requires |out| <= NS_IN6ADDRSZ && (gap.Some? ==> gap.value <= |out|)
  {
    && TokensOk(ks) && LastOk(l) && t == TokensText(ks) + LastText(l) && Gaps(ks) + (if gap.Some? then 1 else 0) <= 1
    && |out| + |TokensOctets(ks)| + |LastOctets(l)| <= NS_IN6ADDRSZ
    && From(t, out, gap) == Some(Scanned(out + TokensOctets(ks) + LastOctets(l), GapAfter(ks, |out|, gap)))
  }

  lemma {:induction false} Tokenized(t: string, out: seq<Octet>, gap: Option<nat>) returns (ks: seq<Token>, l: Last)
    requires |out| <= NS_IN6ADDRSZ && (gap.Some? ==> gap.value <= |out|) && From(t, out, gap).Some?
    ensures MadeOf(t, out, gap, ks, l)
    decreases |t|
  {
    var g, rest := HexRun(t);
    ScanHex(g, rest, t, out, gap, false, 0);
    if rest != [] && rest[0] == ':' {
      var k := if g == [] then Gap else Group(g);
      assert t == TokenText(k) + rest[1..];
      ScanToken(k, rest[1..], out, gap);
      ks, l := Tokenized(rest[1..], out + TokenOctets(k), if k.Gap? then Some(|out|) else gap);
      ConsToken(t, out, gap, k, rest[1..], ks, l);
      ks := [k] + ks;
    } else {
      ks := [];
      l := EndOf(t, g, rest, out, gap);
    }
  }

  lemma ConsToken(t: string, out: seq<Octet>, gap: Option<nat>, k: Token, rest: string, ks: seq<Token>, l: Last)
    requires (k.Group? ==> IsGroup(k.g)) && |out| + |TokenOctets(k)| <= NS_IN6ADDRSZ
      && (gap.Some? ==> gap.value <= |out|)
    requires (k.Gap? ==> gap.None?) && t == TokenText(k) + rest
    requires MadeOf(rest, out + TokenOctets(k), if k.Gap? then Some(|out|) else gap, ks, l)
    ensures MadeOf(t, out, gap, [k] + ks, l)
  {
    var all := [k] + ks;
    assert all[1..] == ks;
    assert TokensOk(all) by {
      forall i | 0 <= i < |all| && all[i].Group? ensures IsGroup(all[i].g) {
        if i > 0 { assert all[i] == ks[i - 1]; }
      }
    }
    Unrolled(all, LastText(l), out);
    ScanToken(k, rest, out, gap);
  }

  /** The end of the text: nothing, a group or a dotted quad. */
  lemma EndOf(t: string, g: string, rest: string, out: seq<Octet>, gap: Option<nat>) returns (l: Last)
    requires |out| <= NS_IN6ADDRSZ && (gap.Some? ==> gap.value <= |out|) && From(t, out, gap).Some?
    requires t == g + rest && AllHex(g) && (rest == [] || (!IsHex(rest[0]) && rest[0] != ':'))
    ensures MadeOf(t, out, gap, [], l)
  {
    ScanHex(g, rest, t, out, gap, false, 0);
    assert out + TokensOctets([]) == out;
    if rest == [] {
      assert t == g;
      l := if g == [] then Nothing else LastGroup(g);
    } else {
      l := Quad(t);
      var os := Scan4(t, [], false, 0).value;
      QuadIff(t, os);
      QuadIff(t, LastOctets(l));
    }
    assert t == TokensText([]) + LastText(l);
    ScanLast(l, out, gap);
  }

  /** inet_pton6 accepts exactly the texts that fit. */
  lemma AcceptsIff(t: string)
    ensures Parse6(t).Some? <==> exists f :: Fits(f) && t == Text(f)
  {
    if Parse6(t).Some? {
      var start := if t != [] && t[0] == ':' then t[1..] else t;
      var ks, l := Tokenized(start, [], None);
      var f := Form(ks, l);
      assert [] + TokensOctets(ks) == TokensOctets(ks);
      FirstChar(f);
      GapInside(ks, 0);
      assert t == Text(f);
      assert Fits(f);
    }
    forall f | Fits(f) && t == Text(f) ensures Parse6(t).Some? { FormAccepted(f); }
  }

  // ----- RFC 4291 -----

  /** The sixteen-bit pieces of an address that the text gives. */
  ghost function Pieces(f: Form): int
  {
    |f.tokens| - Gaps(f.tokens) + match f.last case Nothing => 0 case LastGroup(g) => 1 case Quad(q) => 2
  }

  /**
   The text forms of section 2.2 of RFC 4291: eight pieces of one to four digits, `::` for at least
   one of them, a dotted quad for the last two; a text ends with a piece, a quad or the gap.
   */
  ghost predicate Rfc4291(f: Form)
  {
    && (forall i :: 0 <= i < |f.tokens| && f.tokens[i].Group? ==> 1 <= |f.tokens[i].g| <= 4 && AllHex(f.tokens[i].g))
    && (match f.last
        case Nothing => f.tokens != [] && f.tokens[|f.tokens| - 1].Gap?
        case LastGroup(g) => 1 <= |g| <= 4 && AllHex(g)
        case Quad(q) => exists os :: QuadOf(q, os))
    && (if Gaps(f.tokens) == 0 then Pieces(f) == 8 else Gaps(f.tokens) == 1 && Pieces(f) <= 7)
  }

  lemma {:induction false} TokensSize(ks: seq<Token>)
    requires TokensOk(ks)
    ensures |TokensOctets(ks)| == NS_INT16SZ * (|ks| - Gaps(ks))
    decreases |ks|
  {
    if ks != [] {
      assert ks[0].Group? ==> IsGroup(ks[0].g);
      TokensSize(ks[1..]);
    }
  }

  lemma RfcFits(f: Form)
    requires Rfc4291(f)
    ensures Fits(f) && |FormOctets(f)| == NS_INT16SZ * Pieces(f)
  {
    forall i | 0 <= i < |f.tokens| && f.tokens[i].Group? ensures IsGroup(f.tokens[i].g) {
      FourDigitsFit(f.tokens[i].g);
    }
    TokensSize(f.tokens);
    match f.last
    case Nothing =>
    case LastGroup(g) => FourDigitsFit(g);
    case Quad(q) =>
      var os :| QuadOf(q, os);
      QuadIff(q, os);
      QuadIff(q, LastOctets(f.last));
  }

  /** Every text form of the RFC is accepted, as its groups with zeros in place of the gap. */
  lemma RfcAccepted(f: Form)
    requires Rfc4291(f)
    ensures Fits(f) && (GapAt(f.tokens, 0).Some? ==> GapAt(f.tokens, 0).value <= |FormOctets(f)|)
    ensures
      var octets := FormOctets(f);
      Parse6(Text(f)) == Some(
        match GapAt(f.tokens, 0)
        case None => octets
        case Some(n) => octets[..n] + Zeros(NS_IN6ADDRSZ - |octets|) + octets[n..])
  {
    RfcFits(f);
    FormAccepted(f);
    GapInside(f.tokens, 0);
  }

  // ----- where the code parts from its comment -----

  /**
   The shift gives prefix, zeros and suffix exactly when fewer than sixteen octets are written, or
   those after the gap are zero.
   */
  lemma ShiftIff(octets: seq<Octet>, gap: nat)
    requires gap <= |octets| <= NS_IN6ADDRSZ
    ensures Shifted(octets, gap) == octets[..gap] + Zeros(NS_IN6ADDRSZ - |octets|) + octets[gap..] <==>
      |octets| < NS_IN6ADDRSZ || forall i :: gap <= i < NS_IN6ADDRSZ ==> octets[i] == 0
  {
    var plain := octets[..gap] + Zeros(NS_IN6ADDRSZ - |octets|) + octets[gap..];
    if |octets| == NS_IN6ADDRSZ {
      assert plain == octets;
      forall i | gap <= i < NS_IN6ADDRSZ ensures Shifted(octets, gap)[i] == 0 {}
    }
  }

  lemma FullShift(octets: seq<Octet>, gap: nat)
    requires gap <= |octets| == NS_IN6ADDRSZ
    ensures Shifted(octets, gap) == octets[..gap] + Zeros(NS_IN6ADDRSZ - gap)
    ensures Shifted(octets, gap) == octets <==> forall i :: gap <= i < NS_IN6ADDRSZ ==> octets[i] == 0
  {
    ShiftIff(octets, gap);
    assert octets[..gap] + Zeros(0) + octets[gap..] == octets;
  }

  /** A `::` in a full address is not ignored: the octets after it are lost. */
  lemma FullAddressGap(f: Form)
    requires Fits(f) && Gaps(f.tokens) == 1 && |FormOctets(f)| == NS_IN6ADDRSZ
    ensures GapAt(f.tokens, 0).Some? && GapAt(f.tokens, 0).value <= NS_IN6ADDRSZ
    ensures
      var n, octets := GapAt(f.tokens, 0).value, FormOctets(f);
      && Parse6(Text(f)) == Some(octets[..n] + Zeros(NS_IN6ADDRSZ - n))
      && (Parse6(Text(f)) == Some(octets) <==> forall i :: n <= i < NS_IN6ADDRSZ ==> octets[i] == 0)
  {
    FormAccepted(f);
    GapInside(f.tokens, 0);
    FullShift(FormOctets(f), GapAt(f.tokens, 0).value);
  }

  /** A colon after the last group is passed over. */
  lemma TrailingColon(f: Form)
    requires Fits(f) && f.last.LastGroup?
    ensures Parse6(Text(f) + ":") == Parse6(Text(f)) && Parse6(Text(f)).Some?
  {
    var k := Group(f.last.g);
    var f' := Form(f.tokens + [k], Nothing);
    SnocToken(f.tokens, k, 0);
    assert Text(f') == Text(f) + ":" by {
      assert TokensText(f'.tokens) + "" == TokensText(f'.tokens);
      assert f'.tokens[0] == if f.tokens == [] then k else f.tokens[0];
    }
    assert FormOctets(f') == FormOctets(f);
    FormAccepted(f);
    FormAccepted(f');
  }

  /** A group before the tokens `ks`. */
  lemma GroupFirst(g: string, ks: seq<Token>)
    requires IsGroup(g) && TokensOk(ks)
    ensures
      var all := [Group(g)] + ks;
      && TokensOk(all) && TokensText(all) == g + ":" + TokensText(ks) && Gaps(all) == Gaps(ks)
      && TokensOctets(all) == Pair(Hexadecimal(0, g)) + TokensOctets(ks)
      && forall n: nat :: GapAt(all, n) == GapAt(ks, n + NS_INT16SZ)
  {
    var all := [Group(g)] + ks;
    assert all[1..] == ks;
    forall i | 0 <= i < |all| && all[i].Group? ensures IsGroup(all[i].g) {
      if i > 0 { assert all[i] == ks[i - 1]; }
    }
  }

  ghost function Ones(n: nat, ks: seq<Token>): seq<Token>
  {
    if n == 0 then ks else [Group("1")] + Ones(n - 1, ks)
  }

  ghost function OnesText(n: nat): string
  {
    if n == 0 then "" else "1:" + OnesText(n - 1)
  }

  ghost function OnesOctets(n: nat): seq<Octet>
  {
    if n == 0 then [] else [0, 1] + OnesOctets(n - 1)
  }

  lemma {:induction false} OnesFacts(n: nat, ks: seq<Token>)
    requires TokensOk(ks)
    ensures TokensOk(Ones(n, ks)) && TokensText(Ones(n, ks)) == OnesText(n) + TokensText(ks)
    ensures TokensOctets(Ones(n, ks)) == OnesOctets(n) + TokensOctets(ks) && Gaps(Ones(n, ks)) == Gaps(ks)
    ensures forall m: nat :: GapAt(Ones(n, ks), m) == GapAt(ks, m + n * NS_INT16SZ)
  {
    if n > 0 {
      OnesFacts(n - 1, ks);
      OneIsGroup();
      GroupFirst("1", Ones(n - 1, ks));
    }
  }

  lemma OneIsGroup()
    ensures IsGroup("1") && Pair(Hexadecimal(0, "1")) == [0, 1]
  {
    assert "1"[1..] == "";
    assert Hexadecimal(0, "1") == Hexadecimal(1, "");
  }

  /** Eight groups and a gap. */
  ghost function EightAndGap(): Form
  {
    Form(Ones(4, [Gap] + Ones(3, [])), LastGroup("1"))
  }

  lemma HalfOnes()
    ensures OnesText(3) == "1:1:1:" && OnesText(4) == "1:1:1:1:"
    ensures OnesOctets(3) == [0, 1, 0, 1, 0, 1] && OnesOctets(4) == [0, 1, 0, 1, 0, 1, 0, 1]
  {
  }

  lemma AfterGap()
    ensures TokensOk([Gap] + Ones(3, [])) && TokensText([Gap] + Ones(3, [])) == ":" + OnesText(3)
    ensures TokensOctets([Gap] + Ones(3, [])) == OnesOctets(3) && Gaps([Gap] + Ones(3, [])) == 1
    ensures forall n: nat :: GapAt([Gap] + Ones(3, []), n) == Some(n)
  {
    OnesFacts(3, []);
    var after := [Gap] + Ones(3, []);
    assert after[1..] == Ones(3, []);
    assert OnesText(3) + TokensText([]) == OnesText(3) && OnesOctets(3) + TokensOctets([]) == OnesOctets(3);
    assert [] + OnesOctets(3) == OnesOctets(3);
    forall i | 0 <= i < |after| && after[i].Group? ensures IsGroup(after[i].g) {
      assert after[i] == Ones(3, [])[i - 1];
    }
  }

  lemma EightAndGapFits()
    ensures
      var f := EightAndGap();
      && Fits(f) && Gaps(f.tokens) == 1 && GapAt(f.tokens, 0) == Some(8)
      && FormOctets(f) == OnesOctets(4) + OnesOctets(3) + [0, 1] && Text(f) == OnesText(4) + (":" + OnesText(3)) + "1"
  {
    AfterGap();
    OneIsGroup();
    OnesFacts(4, [Gap] + Ones(3, []));
    HalfOnes();
  }

  /** The text is 1:1:1:1::1:1:1:1, a full address with a gap: the last four of its eight groups are lost. */
  lemma GapLosesGroups()
    ensures Text(EightAndGap()) == "1:1:1:1:" + (":" + "1:1:1:") + "1"
    ensures Parse6(Text(EightAndGap())) == Some([0, 1, 0, 1, 0, 1, 0, 1] + Zeros(8))
  {
    EightAndGapFits();
    HalfOnes();
    FullAddressGap(EightAndGap());
    assert FormOctets(EightAndGap())[..8] == OnesOctets(4);
  }

  /** A colon after the last group of a text is accepted. */
  lemma ColonAfterGroup()
    ensures Parse6("::1" + ":") == Some(Zeros(14) + [0, 1])
  {
    var f := Form([Gap], LastGroup("1"));
    OneIsGroup();
    assert TokensText(f.tokens) == ":" + "" && TokensOctets(f.tokens) == [] + [];
    assert Text(f) == "::1" && FormOctets(f) == [0, 1] && GapAt(f.tokens, 0) == Some(0);
    FormAccepted(f);
    assert Shifted([0, 1], 0) == Zeros(14) + [0, 1];
    TrailingColon(f);
  }

  lemma {:induction false} SnocToken(ks: seq<Token>, k: Token, n: nat)
    requires TokensOk(ks) && k.Group? && IsGroup(k.g)
    ensures TokensOk(ks + [k]) && TokensText(ks + [k]) == TokensText(ks) + (k.g + ":") && Gaps(ks + [k]) == Gaps(ks)
    ensures TokensOctets(ks + [k]) == TokensOctets(ks) + TokenOctets(k) && GapAt(ks + [k], n) == GapAt(ks, n)
    decreases |ks|
  {
    var all := ks + [k];
    assert TokensOk(all) by {
      forall i | 0 <= i < |all| && all[i].Group? ensures IsGroup(all[i].g) {
        if i < |ks| { assert all[i] == ks[i]; }
      }
    }
    if ks == [] {
      assert all == [k] && all[1..] == [];
    } else {
      assert all[1..] == ks[1..] + [k] && all[0] == ks[0];
      SnocToken(ks[1..], k, n + NS_INT16SZ);
      Assoc(TokenText(ks[0]), TokensText(ks[1..]), k.g + ":");
      Assoc(TokenOctets(ks[0]), TokensOctets(ks[1..]), TokenOctets(k));
    }
  }
}
