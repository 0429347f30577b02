/** Digits and whole addresses: what is written out in digits is read back. */
module InetDigits {
  import opened Basics
  import opened Octets
  import opened InetText
  import opened InetForms
  import opened InetAccepts

  const LOWER := "0123456789abcdef"
  const UPPER := "0123456789ABCDEF"

  /** A hexadecimal digit is its place in one of the two lists, and no other character is one. */
  lemma HexIs(c: char)
    ensures IsHex(c) <==> exists i :: 0 <= i < 16 && (LOWER[i] == c || UPPER[i] == c)
    ensures forall i :: 0 <= i < 16 && (LOWER[i] == c || UPPER[i] == c) ==> IsHex(c) && HexValue(c) == i
  {
    if IsHex(c) {
      var i: nat := HexValue(c);
      assert LOWER[i] == c || UPPER[i] == c;
    }
  }

  /** A group of four digits. */
  function GroupText(digits: string, v: nat): string
    requires |digits| == 16 && v <= 0xFFFF
  {
    [digits[v / 4096], digits[v / 256 % 16], digits[v / 16 % 16], digits[v % 16]]
  }

  lemma FourPlaces(v: nat)
    requires v <= 0xFFFF
    ensures v / 4096 < 16 && v == v / 4096 * 4096 + v / 256 % 16 * 256 + v / 16 % 16 * 16 + v % 16
  {
    assert v == v / 16 * 16 + v % 16 && v / 16 == v / 256 * 16 + v / 16 % 16 && v / 256 == v / 4096 * 16 + v / 256 % 16;
  }

  lemma DigitIs(digits: string, i: nat)
    requires (digits == LOWER || digits == UPPER) && i < 16
    ensures IsHex(digits[i]) && HexValue(digits[i]) == i
  {
    HexIs(digits[i]);
  }

  lemma GroupReadsBack(digits: string, v: nat)
    requires (digits == LOWER || digits == UPPER) && v <= 0xFFFF
    ensures IsGroup(GroupText(digits, v)) && Hexadecimal(0, GroupText(digits, v)) == v
  {
    FourPlaces(v);
    DigitIs(digits, v / 4096);
    DigitIs(digits, v / 256 % 16);
    DigitIs(digits, v / 16 % 16);
    DigitIs(digits, v % 16);
    FourDigits(GroupText(digits, v));
  }

  lemma FourDigits(g: string)
    requires |g| == 4 && AllHex(g)
    ensures Hexadecimal(0, g) == HexValue(g[0]) * 4096 + HexValue(g[1]) * 256 + HexValue(g[2]) * 16 + HexValue(g[3])
  {
    var v0 := HexValue(g[0]);
    var v1 := v0 * 16 + HexValue(g[1]);
    var v2 := v1 * 16 + HexValue(g[2]);
    assert Hexadecimal(0, g) == Hexadecimal(v0, g[1..]);
    assert g[1..][1..] == g[2..] && Hexadecimal(v0, g[1..]) == Hexadecimal(v1, g[2..]);
    assert g[2..][1..] == g[3..] && Hexadecimal(v1, g[2..]) == Hexadecimal(v2, g[3..]);
    assert g[3..][1..] == [] && Hexadecimal(v2, g[3..]) == Hexadecimal(v2 * 16 + HexValue(g[3]), []);
  }

  function Word(high: Octet, low: Octet): nat
  {
    var h: int, l: int := high, low;
    h * 256 + l
  }

  /** One group reads back as its two octets. */
  lemma WordReadsBack(digits: string, high: Octet, low: Octet)
    requires digits == LOWER || digits == UPPER
    ensures Word(high, low) <= 0xFFFF && IsGroup(GroupText(digits, Word(high, low)))
    ensures Pair(Hexadecimal(0, GroupText(digits, Word(high, low)))) == [high, low]
  {
    GroupReadsBack(digits, Word(high, low));
  }

  /** The octets two by two as groups, each with its colon. */
  function Groups(digits: string, os: seq<Octet>): seq<Token>
    requires |digits| == 16 && |os| % 2 == 0
  {
    if os == [] then [] else [Group(GroupText(digits, Word(os[0], os[1])))] + Groups(digits, os[2..])
  }

  lemma {:induction false} GroupsReadBack(digits: string, os: seq<Octet>)
    requires (digits == LOWER || digits == UPPER) && |os| % 2 == 0
    ensures TokensOk(Groups(digits, os)) && TokensOctets(Groups(digits, os)) == os && Gaps(Groups(digits, os)) == 0
    decreases |os|
  {
    if os != [] {
      var g := GroupText(digits, Word(os[0], os[1]));
      GroupsReadBack(digits, os[2..]);
      WordReadsBack(digits, os[0], os[1]);
      GroupFirst(g, Groups(digits, os[2..]));
      assert os == [os[0], os[1]] + os[2..];
    }
  }

  /** An address as eight groups of four digits. */
  function FullForm(digits: string, os: seq<Octet>): Form
    requires |digits| == 16 && |os| == 16
  {
    Form(Groups(digits, os[..14]), LastGroup(GroupText(digits, Word(os[14], os[15]))))
  }

  lemma FullFits(digits: string, os: seq<Octet>)
    requires (digits == LOWER || digits == UPPER) && |os| == 16
    ensures Fits(FullForm(digits, os)) && FormOctets(FullForm(digits, os)) == os
      && Gaps(FullForm(digits, os).tokens) == 0
  {
    GroupsReadBack(digits, os[..14]);
    WordReadsBack(digits, os[14], os[15]);
    EightFit(Groups(digits, os[..14]), GroupText(digits, Word(os[14], os[15])));
    LastTwo(os);
  }

  lemma LastTwo(os: seq<Octet>)
    requires |os| == 16
    ensures os[..14] + [os[14], os[15]] == os
  {
  }

  lemma EightFit(ks: seq<Token>, g: string)
    requires TokensOk(ks) && Gaps(ks) == 0 && |TokensOctets(ks)| == 14 && IsGroup(g)
    ensures Fits(Form(ks, LastGroup(g)))
      && FormOctets(Form(ks, LastGroup(g))) == TokensOctets(ks) + Pair(Hexadecimal(0, g))
  {
  }

  /** It is read back as its octets. */
  lemma AddressReadsBack(digits: string, os: seq<Octet>)
    requires (digits == LOWER || digits == UPPER) && |os| == 16
    ensures Parse6(Text(FullForm(digits, os))) == Some(os)
  {
    var f := FullForm(digits, os);
    FullFits(digits, os);
    GapInside(f.tokens, 0);
    FormAccepted(f);
  }

  /** An octet in decimal digits. */
  function DecimalText(v: Octet): string
  {
    if v < 10 then [LOWER[v]] else if v < 100 then [LOWER[v / 10], LOWER[v % 10]]
    else [LOWER[v / 100], LOWER[v / 10 % 10], LOWER[v % 10]]
  }

  lemma DecimalDigit(i: nat)
    requires i < 10
    ensures IsDigit(LOWER[i]) && IsHex(LOWER[i]) && HexValue(LOWER[i]) == i
  {
    DigitIs(LOWER, i);
  }

  lemma DecimalReadsBack(v: Octet)
    ensures IsField(DecimalText(v)) && Decimal(0, DecimalText(v)) == v
  {
    var s := DecimalText(v);
    DecimalDigit(v % 10);
    if v < 10 {
      assert s[1..] == [];
    } else if v < 100 {
      DecimalDigit(v / 10);
      TwoDigits(s, v / 10, v % 10);
    } else {
      DecimalDigit(v / 100);
      DecimalDigit(v / 10 % 10);
      ThreeDigits(s, v / 100, v / 10 % 10, v % 10);
    }
  }

  lemma TwoDigits(s: string, a: nat, b: nat)
    requires a < 10 && b < 10 && s == [LOWER[a], LOWER[b]]
    ensures AllDigits(s) && Decimal(0, s) == a * 10 + b
  {
    DecimalDigit(a);
    DecimalDigit(b);
    assert s[1..][0] == s[1] && s[1..][1..] == [];
    assert Decimal(0, s) == Decimal(a, s[1..]) == Decimal(a * 10 + b, []);
  }

  lemma ThreeDigits(s: string, a: nat, b: nat, c: nat)
    requires a < 10 && b < 10 && c < 10 && s == [LOWER[a], LOWER[b], LOWER[c]]
    ensures AllDigits(s) && Decimal(0, s) == a * 100 + b * 10 + c
  {
    DecimalDigit(a);
    DecimalDigit(b);
    DecimalDigit(c);
    assert s[1..][0] == s[1] && s[1..][1..] == s[2..] && s[2..][0] == s[2] && s[2..][1..] == [];
    assert Decimal(0, s) == Decimal(a, s[1..]) == Decimal(a * 10 + b, s[2..]) == Decimal((a * 10 + b) * 10 + c, []);
  }

  function Quadruple(a: Octet, b: Octet, c: Octet, d: Octet): seq<string>
  {
    [DecimalText(a)] + ([DecimalText(b)] + ([DecimalText(c)] + [DecimalText(d)]))
  }

  /** An IPv4 address written as four decimal numbers between dots is read back as its octets. */
  lemma QuadReadsBack(a: Octet, b: Octet, c: Octet, d: Octet)
    ensures
      var text := DecimalText(a) + ("." + (DecimalText(b) + ("." + (DecimalText(c) + ("." + DecimalText(d))))));
      Scan4(text, [], false, 0) == Some([a, b, c, d])
  {
    DecimalReadsBack(a);
    DecimalReadsBack(b);
    DecimalReadsBack(c);
    DecimalReadsBack(d);
    LastField(DecimalText(d));
    ConsField(DecimalText(c), [DecimalText(d)]);
    ConsField(DecimalText(b), [DecimalText(c)] + [DecimalText(d)]);
    ConsField(DecimalText(a), [DecimalText(b)] + ([DecimalText(c)] + [DecimalText(d)]));
    ScanFields(Quadruple(a, b, c, d), []);
    assert [] + ([a] + ([b] + ([c] + [d]))) == [a, b, c, d];
  }

  lemma LastField(f: string)
    requires IsField(f)
    ensures AllFields([f]) && Dotted([f]) == f && FieldOctets([f]) == [Decimal(0, f)]
  {
    assert [f][1..] == [];
  }
}
