/** The text forms of IPv4 and IPv6 addresses, and the one-pass scans of inet_pton.c as functions. */
module InetText {
  import opened Basics
  import opened Octets

  const NS_INADDRSZ := 4
  const NS_INT16SZ := 2
  const NS_IN6ADDRSZ := 16

  predicate IsDigit(c: char) { '0' <= c <= '9' }

  predicate IsHex(c: char) { IsDigit(c) || 'a' <= c <= 'f' || 'A' <= c <= 'F' }

  function HexValue(c: char): (v: nat)
    requires IsHex(c)
    ensures v < 16
  {
    if IsDigit(c) then c as int - '0' as int
    else if 'a' <= c <= 'f' then c as int - 'a' as int + 10
    else c as int - 'A' as int + 10
  }

  // ----- numbers -----

  ghost predicate AllDigits(s: string)
  {
    forall i :: 0 <= i < |s| ==> IsDigit(s[i])
  }

  ghost predicate AllHex(s: string)
  {
    forall i :: 0 <= i < |s| ==> IsHex(s[i])
  }

  /** The decimal value of the digits `s` read after `v`. */
  ghost function Decimal(v: nat, s: string): nat
    requires AllDigits(s)
    decreases |s|
  {
    if s == [] then v else Decimal(v * 10 + HexValue(s[0]), s[1..])
  }

  /** The value of the hexadecimal digits `s` read after `v`. */
  ghost function Hexadecimal(v: nat, s: string): nat
    requires AllHex(s)
    decreases |s|
  {
    if s == [] then v else Hexadecimal(v * 16 + HexValue(s[0]), s[1..])
  }

  lemma {:induction false} DecimalGrows(v: nat, s: string)
    requires AllDigits(s)
    ensures Decimal(v, s) >= v
    decreases |s|
  {
    if s != [] { DecimalGrows(v * 10 + HexValue(s[0]), s[1..]); }
  }

  lemma {:induction false} HexadecimalGrows(v: nat, s: string)
    requires AllHex(s)
    ensures Hexadecimal(v, s) >= v
    decreases |s|
  {
    if s != [] { HexadecimalGrows(v * 16 + HexValue(s[0]), s[1..]); }
  }

  /** A field of a dotted quad. */
  ghost predicate IsField(f: string)
  {
    f != [] && AllDigits(f) && Decimal(0, f) <= 255
  }

  /** A group of an IPv6 address; one to four hexadecimal digits always are. */
  ghost predicate IsGroup(g: string)
  {
    g != [] && AllHex(g) && Hexadecimal(0, g) <= 0xFFFF
  }

  lemma FourDigitsFit(g: string)
    requires 1 <= |g| <= 4 && AllHex(g)
    ensures IsGroup(g)
  {
    var v0 := HexValue(g[0]);
    assert Hexadecimal(0, g) == Hexadecimal(v0, g[1..]);
    if |g| > 1 {
      var v1 := v0 * 16 + HexValue(g[1]);
      assert g[1..][1..] == g[2..] && Hexadecimal(v0, g[1..]) == Hexadecimal(v1, g[2..]);
      if |g| > 2 {
        var v2 := v1 * 16 + HexValue(g[2]);
        assert g[2..][1..] == g[3..] && Hexadecimal(v1, g[2..]) == Hexadecimal(v2, g[3..]);
        if |g| > 3 {
          assert g[3..][1..] == [] && Hexadecimal(v2, g[3..]) == Hexadecimal(v2 * 16 + HexValue(g[3]), []);
        }
      }
    }
  }

  // ----- dotted quads -----

  /** The fields with a dot between every two of them. */
  ghost function Dotted(fs: seq<string>): string
  {
    if fs == [] then [] else if |fs| == 1 then fs[0] else fs[0] + ("." + Dotted(fs[1..]))
  }

  ghost predicate AllFields(fs: seq<string>)
  {
    forall i :: 0 <= i < |fs| ==> IsField(fs[i])
  }

  ghost function FieldOctets(fs: seq<string>): seq<Octet>
    requires AllFields(fs)
  {
    if fs == [] then []
    else
      assert IsField(fs[0]);
      [Decimal(0, fs[0])] + FieldOctets(fs[1..])
  }

  /** `os` are the octets of the dotted quad `t`. */
  ghost predicate QuadOf(t: string, os: seq<Octet>)
  {
    exists fs: seq<string> :: |fs| == 4 && AllFields(fs) && t == Dotted(fs) && os == FieldOctets(fs)
  }

  /** The scan of inet_pton4 over the rest `t` of its text: the octets `done` are complete, `val` is the current one. */
  function Scan4(t: string, done: seq<Octet>, saw: bool, val: Octet): (r: Option<seq<Octet>>)
    requires |done| <= 3
    ensures r.Some? ==> |r.value| == NS_INADDRSZ
    decreases |t|
  {
    if t == [] then if |done| + (if saw then 1 else 0) < 4 then None else Some(done + [val])
    else if IsDigit(t[0]) then
      var v: int := val;
      var next := v * 10 + HexValue(t[0]);
      if next > 255 then None else Scan4(t[1..], done, true, next)
    else if t[0] == '.' && saw then
      if |done| + 1 == 4 then None else Scan4(t[1..], done + [val], false, 0)
    else None
  }

  lemma {:induction false} ScanDigits(f: string, rest: string, done: seq<Octet>, saw: bool, val: Octet)
    requires AllDigits(f) && |done| <= 3 && Decimal(val, f) <= 255
    ensures Scan4(f + rest, done, saw, val) == Scan4(rest, done, saw || f != [], Decimal(val, f))
    decreases |f|
  {
    if f == [] {
      assert f + rest == rest;
    } else {
      var t, v: int := f + rest, val;
      assert t[0] == f[0] && t[1..] == f[1..] + rest;
      DecimalGrows(v * 10 + HexValue(f[0]), f[1..]);
      ScanDigits(f[1..], rest, done, true, v * 10 + HexValue(f[0]));
    }
  }

  /** Reading the fields `fs` to the end of the text completes the quad. */
  lemma {:induction false} ScanFields(fs: seq<string>, done: seq<Octet>)
    requires fs != [] && |done| + |fs| == 4 && AllFields(fs)
    ensures Scan4(Dotted(fs), done, false, 0) == Some(done + FieldOctets(fs))
    decreases |fs|
  {
    var f := fs[0];
    if |fs| == 1 {
      ScanDigits(f, [], done, false, 0);
      assert f + [] == f;
      assert FieldOctets(fs) == [Decimal(0, f)] + FieldOctets(fs[1..]) == [Decimal(0, f)];
    } else {
      var rest := "." + Dotted(fs[1..]);
      ScanDigits(f, rest, done, false, 0);
      assert rest[0] == '.' && rest[1..] == Dotted(fs[1..]);
      ScanFields(fs[1..], done + [Decimal(0, f)]);
      assert done + [Decimal(0, f)] + FieldOctets(fs[1..]) == done + FieldOctets(fs);
    }
  }

  /** A successful scan read the rest `f` of the current field and then the fields `fs`. */
  lemma {:induction false} ScannedFields(t: string, done: seq<Octet>, saw: bool, val: Octet)
    returns (f: string, fs: seq<string>)
    requires |done| <= 3 && Scan4(t, done, saw, val).Some?
    ensures AllDigits(f) && Decimal(val, f) <= 255 && (saw || f != []) && AllFields(fs) && |done| + 1 + |fs| == 4
    ensures t == f + (if fs == [] then [] else "." + Dotted(fs))
    ensures Scan4(t, done, saw, val).value == done + [Decimal(val, f)] + FieldOctets(fs)
    decreases |t|
  {
    if t == [] {
      f, fs := [], [];
    } else if IsDigit(t[0]) {
      var v: int := val;
      var g;
      g, fs := ScannedFields(t[1..], done, true, v * 10 + HexValue(t[0]));
      f := [t[0]] + g;
      assert f[1..] == g;
      assert t == [t[0]] + t[1..];
    } else {
      var g, gs := ScannedFields(t[1..], done + [val], false, 0);
      f, fs := [], [g] + gs;
      if gs != [] { ConsField(g, gs); } else { assert fs == [g]; }
      assert t == "." + t[1..];
      assert Decimal(val, f) == val;
      OneField(g, gs);
      assert done + [val] + [Decimal(0, g)] + FieldOctets(gs) == done + [val] + FieldOctets(fs);
    }
  }

  lemma OneField(g: string, gs: seq<string>)
    requires IsField(g) && AllFields(gs)
    ensures AllFields([g] + gs) && FieldOctets([g] + gs) == [Decimal(0, g)] + FieldOctets(gs)
  {
    var all := [g] + gs;
    assert all[1..] == gs;
    forall i | 0 <= i < |all| ensures IsField(all[i]) {
      if i > 0 { assert all[i] == gs[i - 1]; }
    }
  }

  /** One field more. */
  lemma ConsField(f: string, fs: seq<string>)
    requires IsField(f) && AllFields(fs) && fs != []
    ensures
      var all := [f] + fs;
      AllFields(all) && Dotted(all) == f + ("." + Dotted(fs)) && FieldOctets(all) == [Decimal(0, f)] + FieldOctets(fs)
  {
    var all := [f] + fs;
    assert all[1..] == fs;
    forall i | 0 <= i < |all| ensures IsField(all[i]) {
      if i > 0 { assert all[i] == fs[i - 1]; }
    }
  }

  lemma QuadScanned(t: string)
    requires Scan4(t, [], false, 0).Some?
    ensures QuadOf(t, Scan4(t, [], false, 0).value)
  {
    var f, fs := ScannedFields(t, [], false, 0);
    ConsField(f, fs);
    assert [] + [Decimal(0, f)] + FieldOctets(fs) == FieldOctets([f] + fs);
  }

  /** inet_pton4 accepts exactly the dotted quads: four decimal fields of at most 255. */
  lemma QuadIff(t: string, os: seq<Octet>)
    ensures Scan4(t, [], false, 0) == Some(os) <==> QuadOf(t, os)
  {
    if QuadOf(t, os) {
      var fs :| |fs| == 4 && AllFields(fs) && t == Dotted(fs) && os == FieldOctets(fs);
      assert [] + FieldOctets(fs) == FieldOctets(fs);
      ScanFields(fs, []);
    }
    if Scan4(t, [], false, 0) == Some(os) { QuadScanned(t); }
  }
}
