/** The loops of ns_name_ntop and ns_name_pton over their buffers, proved against `DnsText`. */
module DnsTextCode {
  import opened Basics
  import opened Octets
  import opened DnsNames
  import opened DnsPacked
  import opened DnsText

  /** The labels from `q` on can be read up to the root or an illegal label, and none is a bit string. */
  ghost predicate Scannable(src: seq<Octet>, q: nat)
    decreases |src| - q
  {
    q < |src| && src[q] != 0x41 && (1 <= src[q] < 0x40 ==> Scannable(src, q + src[q] + 1))
  }

  /** Where the name ends, or None at a label of 64 or more. */
  ghost function NameEnd(src: seq<Octet>, q: nat): (r: Option<nat>)
    requires Scannable(src, q)
    ensures r.Some? ==> q < r.value <= |src| && IsName(src[..r.value], q)
    decreases |src| - q
  {
    if src[q] >= 0x40 then None
    else if src[q] == 0 then Some(q + 1)
    else NameEnd(src, q + src[q] + 1)
  }

  /** One octet of a label written as text at `dn`: the new end of the text, or -1 without room. */
  method EmitChar(c: Octet, dst: array<Octet>, dn: nat, eom: nat) returns (r: int)
    requires dn <= eom <= dst.Length
    modifies dst
    ensures dst[eom..] == old(dst[eom..])
    ensures if dn + |CharText(c)| > eom then r == -1
      else r == dn + |CharText(c)| && dst[..r] == old(dst[..dn]) + CharText(c)
  {
    if Special(c) {
      if dn + 1 >= eom { return -1; }
      dst[dn] := BACKSLASH;
      dst[dn + 1] := c;
      return dn + 2;
    } else if !Printable(c) {
      if dn + 3 >= eom { return -1; }
      dst[dn] := BACKSLASH;
      dst[dn + 1] := 0x30 + c / 100;
      dst[dn + 2] := 0x30 + c % 100 / 10;
      dst[dn + 3] := 0x30 + c % 10;
      return dn + 4;
    } else {
      if dn >= eom { return -1; }
      dst[dn] := c;
      return dn + 1;
    }
  }

  /** The octets of a label written as text. */
  method EmitLabel(l: seq<Octet>, dst: array<Octet>, dn: nat, eom: nat) returns (r: int)
    requires dn <= eom <= dst.Length
    modifies dst
    ensures dst[eom..] == old(dst[eom..])
    ensures if dn + |LabelText(l)| > eom then r == -1
      else r == dn + |LabelText(l)| && dst[..r] == old(dst[..dn]) + LabelText(l)
  {
    r := dn;
    ghost var whole := dst[..dn] + LabelText(l);
    assert l[0..] == l;
    for k := 0 to |l|
      invariant dn <= r <= eom && dst[..r] + LabelText(l[k..]) == whole
      invariant dst[eom..] == old(dst[eom..])
    {
      assert l[k..][1..] == l[k + 1..];
      Assoc(dst[..r], CharText(l[k]), LabelText(l[k + 1..]));
      r := EmitChar(l[k], dst, r, eom);
      if r < 0 { return; }
    }
  }

  /** The text in `out`, then what is still to be written at the label `q`, make the text of the name. */
  ghost predicate Emitting(w: seq<Octet>, q: nat, out: seq<Octet>)
  {
    && IsName(w, 0) && IsName(w, q)
    && if q == 0 then out == [] else out != [] && w[0] != 0 && out + TailText(w, q) == NameText(w, 0)
  }

  /** A label as it is written: after a dot unless it is the first. */
  ghost function Dotted(l: seq<Octet>, first: bool): (t: seq<Octet>)
    ensures |t| >= |l|
  {
    if first then LabelText(l) else [DOT] + LabelText(l)
  }

  lemma TailStep(w: seq<Octet>, q: nat, l: seq<Octet>)
    requires IsName(w, q) && w[q] != 0 && l == LabelAt(w, q)
    ensures TailText(w, q) == [DOT] + LabelText(l) + TailText(w, q + 1 + |l|)
  {
    var rest := TailText(w, q + 1 + |l|);
    assert NameText(w, q) == LabelText(l) + rest;
    Assoc([DOT], LabelText(l), rest);
  }

  lemma EmitFirst(w: seq<Octet>, l: seq<Octet>)
    requires IsName(w, 0) && w[0] != 0 && l == LabelAt(w, 0)
    ensures Emitting(w, 1 + |l|, LabelText(l))
  {
    assert NameText(w, 0) == LabelText(l) + TailText(w, 1 + |l|);
  }

  lemma EmitLater(w: seq<Octet>, q: nat, out: seq<Octet>, l: seq<Octet>)
    requires Emitting(w, q, out) && q > 0 && w[q] != 0 && l == LabelAt(w, q)
    ensures Emitting(w, q + 1 + |l|, out + Dotted(l, false))
  {
    var dotted, rest := Dotted(l, false), TailText(w, q + 1 + |l|);
    TailStep(w, q, l);
    assert dotted + rest == TailText(w, q);
    Assoc(out, dotted, rest);
    assert out + dotted != [];
  }

  lemma EmitStep(w: seq<Octet>, q: nat, out: seq<Octet>, l: seq<Octet>, first: bool)
    requires Emitting(w, q, out) && w[q] != 0 && l == LabelAt(w, q) && (first <==> q == 0)
    ensures Emitting(w, q + 1 + |l|, out + Dotted(l, first)) && |out + Dotted(l, first)| <= |TextOf(w)|
  {
    if first {
      EmitFirst(w, l);
      assert out + Dotted(l, first) == LabelText(l);
    } else {
      EmitLater(w, q, out, l);
    }
    EmitBound(w, q + 1 + |l|, out + Dotted(l, first));
  }

  lemma EmitBound(w: seq<Octet>, q: nat, out: seq<Octet>)
    requires Emitting(w, q, out) && q > 0
    ensures |out| <= |TextOf(w)|
  {
    assert |out + TailText(w, q)| == |out| + |TailText(w, q)|;
  }

  /** One turn of the loop of ns_name_ntop: a dot unless the text is empty, then the label. */
  method EmitDotted(l: seq<Octet>, dst: array<Octet>, dn: nat, dstsiz: nat) returns (r: int)
    requires dn <= dstsiz <= dst.Length
    modifies dst
    ensures dst[dstsiz..] == old(dst[dstsiz..])
    ensures if r < 0 then r == -1 && dn + |Dotted(l, dn == 0)| + 1 > dstsiz
      else r == dn + |Dotted(l, dn == 0)| <= dstsiz && dst[..r] == old(dst[..dn]) + Dotted(l, dn == 0)
  {
    var at := dn;
    if at != 0 {
      if at >= dstsiz { return -1; }
      dst[at] := DOT;
      at := at + 1;
    }
    if at + |l| >= dstsiz { return -1; }
    ghost var before := dst[..at];
    assert before == if dn == 0 then old(dst[..dn]) else old(dst[..dn]) + [DOT];
    r := EmitLabel(l, dst, at, dstsiz);
    Assoc(old(dst[..dn]), [DOT], LabelText(l));
  }

  /** The end of the text: a dot alone for the root, then the NUL. */
  method EmitEnd(dst: array<Octet>, dn: nat, dstsiz: nat) returns (r: int)
    requires dn <= dstsiz <= dst.Length
    modifies dst
    ensures dst[dstsiz..] == old(dst[dstsiz..])
    ensures
      var text := if dn == 0 then [DOT] else old(dst[..dn]);
      if |text| + 1 > dstsiz then r == -1 else r == |text| + 1 && dst[..r] == text + [0]
  {
    var at := dn;
    if at == 0 {
      if at >= dstsiz { return -1; }
      dst[at] := DOT;
      at := at + 1;
    }
    if at >= dstsiz { return -1; }
    dst[at] := 0;
    return at + 1;
  }

  /** The loop of ns_name_ntop stands at the label `cp` and has written `out`. */
  ghost predicate Standing(src: seq<Octet>, cp: nat, out: seq<Octet>)
  {
    && Scannable(src, 0) && Scannable(src, cp) && NameEnd(src, cp) == NameEnd(src, 0) && (out == [] <==> cp == 0)
    && (NameEnd(src, 0).Some? ==> Emitting(src[..NameEnd(src, 0).value], cp, out))
  }

  lemma ScanStep(src: seq<Octet>, cp: nat)
    requires Scannable(src, cp) && 1 <= src[cp] < 0x40
    ensures cp + 1 + src[cp] < |src| && Scannable(src, cp + 1 + src[cp])
    ensures NameEnd(src, cp) == NameEnd(src, cp + 1 + src[cp])
  {}

  lemma LabelPrefix(src: seq<Octet>, w: seq<Octet>, cp: nat, l: seq<Octet>)
    requires w <= src && IsName(w, cp) && 1 <= |l| < 0x40
    requires src[cp] == |l| && cp + 1 + |l| <= |src| && l == src[cp + 1..cp + 1 + |l|]
    ensures w[cp] != 0 && l == LabelAt(w, cp)
  {
    WireCons(w, cp);
  }

  lemma StandingStep(src: seq<Octet>, cp: nat, out: seq<Octet>, l: seq<Octet>, first: bool)
    requires Standing(src, cp, out) && (first <==> cp == 0) && 1 <= |l| < 0x40
    requires src[cp] == |l| && cp + 1 + |l| <= |src| && l == src[cp + 1..cp + 1 + |l|]
    ensures Standing(src, cp + 1 + |l|, out + Dotted(l, first))
    ensures NameEnd(src, 0).Some? ==> |out + Dotted(l, first)| <= |TextOf(src[..NameEnd(src, 0).value])|
  {
    ScanStep(src, cp);
    assert |Dotted(l, first)| > 0;
    if NameEnd(src, 0).Some? {
      var w := src[..NameEnd(src, 0).value];
      LabelPrefix(src, w, cp, l);
      EmitStep(w, cp, out, l, first);
    }
  }

  /**
   ns_name_ntop: the text of the name at `src` and a final NUL, or -1 when a label is illegal or
   `dstsiz` too small. Returns the octets written.
   */
  method Ntop(src: seq<Octet>, dst: array<Octet>, dstsiz: nat) returns (r: int)
    requires Scannable(src, 0) && dstsiz <= dst.Length
    modifies dst
    ensures dst[dstsiz..] == old(dst[dstsiz..])
    ensures
      var end := NameEnd(src, 0);
      if end.Some? && |TextOf(src[..end.value])| + 1 <= dstsiz
      then r == |TextOf(src[..end.value])| + 1 && dst[..r] == TextOf(src[..end.value]) + [0]
      else r == -1
  {
    var dn: nat, cp: nat := 0, 0;
    assert dst[..0] == [];
    while src[cp] != 0
      invariant dn <= dstsiz && dst[dstsiz..] == old(dst[dstsiz..])
      invariant Standing(src, cp, dst[..dn])
      decreases |src| - cp
    {
      if src[cp] >= 0x40 { return -1; }
      var n: nat, first := src[cp], dn == 0;
      ghost var out := dst[..dn];
      ScanStep(src, cp);
      var l := src[cp + 1..cp + 1 + n];
      StandingStep(src, cp, out, l, first);
      var e := EmitDotted(l, dst, dn, dstsiz);
      if e < 0 { return -1; }
      assert dst[..e] == out + Dotted(l, first);
      dn, cp := e, cp + 1 + n;
    }
    if NameEnd(src, 0).Some? { EmitDone(src[..NameEnd(src, 0).value], cp, dst[..dn]); }
    r := EmitEnd(dst, dn, dstsiz);
  }

  lemma EmitDone(w: seq<Octet>, q: nat, out: seq<Octet>)
    requires Emitting(w, q, out) && w[q] == 0
    ensures TextOf(w) == if out == [] then [DOT] else out
  {
    assert out + [] == out;
  }

  /** The scan of ns_name_pton stands at `i`, perhaps just after a backslash, and will end in `goal`. */
  ghost predicate Scanning(t: seq<Octet>, i: nat, escaped: bool, done: seq<Octet>, lab: seq<Octet>, goal: Parsed)
  {
    && i <= |t|
    && if escaped then i >= 1 && t[i - 1] == BACKSLASH && Parse(t, i - 1, done, lab) == goal
       else Parse(t, i, done, lab) == goal
  }

  /**
   The finished labels stand at the start of the buffer; the octets of the last one follow the place
   of its length.
   */
  ghost predicate Built(b: seq<Octet>, dstsiz: nat, done: seq<Octet>, lab: seq<Octet>)
  {
    && |done| <= dstsiz <= |b| && b[..|done|] == done
    && (lab != [] ==> |done| + 1 + |lab| <= dstsiz && b[|done| + 1..|done| + 1 + |lab|] == lab)
  }

  /** What ns_name_pton returns and leaves in the buffer. */
  ghost predicate Answers(b: seq<Octet>, dstsiz: nat, goal: Parsed, r: int)
  {
    if goal.Parsed? && |goal.wire| <= dstsiz
    then r == (if goal.qualified then 1 else 0) && |goal.wire| <= |b| && b[..|goal.wire|] == goal.wire
    else r == -1
  }

  /** One octet of a label stored at `bp`, the end of the last label. */
  method PutOctet(c: Octet, dst: array<Octet>, bp: nat, dstsiz: nat, ghost done: seq<Octet>, ghost lab: seq<Octet>)
    returns (ok: bool)
    requires Built(dst[..], dstsiz, done, lab) && bp == |done| + 1 + |lab|
    modifies dst
    ensures ok <==> bp < dstsiz
    ensures ok ==> Built(dst[..], dstsiz, done, lab + [c])
  {
    if bp >= dstsiz { return false; }
    ghost var before := dst[..];
    dst[bp] := c;
    assert dst[..|done|] == before[..|done|];
    assert lab != [] ==> dst[|done| + 1..bp] == before[|done| + 1..bp];
    return true;
  }

  /** The length of the last label stored in its place, at `at`: -1 when it is too big or there is no room. */
  method CloseLabel(dst: array<Octet>, at: nat, bp: nat, dstsiz: nat, ghost done: seq<Octet>, ghost lab: seq<Octet>)
    returns (c: int)
    requires Built(dst[..], dstsiz, done, lab) && at == |done| && bp == |done| + 1 + |lab|
    modifies dst
    ensures if Finished(done, lab).None? || at >= dstsiz then c == -1
      else c == |lab| && bp <= dstsiz && dst[..bp] == Finished(done, lab).value
  {
    c := bp - at - 1;
    if c % 256 >= 0x40 { return -1; }
    if at >= dstsiz { return -1; }
    ghost var before := dst[..];
    dst[at] := c % 256;
    assert dst[..at] == before[..at];
    assert lab != [] ==> dst[at + 1..bp] == before[at + 1..bp];
    assert dst[..bp] == done + [|lab| % 256] + lab;
  }

  /**
   The end of the name: the last label closed, the root added after a label that is not empty, and
   the limit checked.
   */
  method EndName(dst: array<Octet>, at: nat, bp: nat, dstsiz: nat, qualified: bool, ghost done: seq<Octet>,
      ghost lab: seq<Octet>)
    returns (r: int)
    requires Built(dst[..], dstsiz, done, lab) && at == |done| && bp == |done| + 1 + |lab|
    modifies dst
    ensures Answers(dst[..], dstsiz, ParseEnd(done, lab, qualified), r)
  {
    var c := CloseLabel(dst, at, bp, dstsiz, done, lab);
    if c < 0 { return -1; }
    var end := bp;
    if c != 0 {
      if end >= dstsiz { return -1; }
      ghost var before := dst[..];
      dst[end] := 0;
      assert dst[..end] == before[..end];
      end := end + 1;
    }
    assert dst[..][..end] == dst[..end];
    if end > MAX_CD_NAME { return -1; }
    return if qualified then 1 else 0;
  }

  /** A decimal escape whose first digit `c` stands just before `i`: its value, or -1. */
  method ReadEscape(t: seq<Octet>, i: nat, c: Octet, ghost done: seq<Octet>, ghost lab: seq<Octet>) returns (n: int)
    requires 2 <= i <= |t| && t[i - 2] == BACKSLASH && t[i - 1] == c && IsDigit(c)
    ensures n < 0 ==> Parse(t, i - 2, done, lab) == Bad
    ensures n >= 0 ==> n < 256 && i + 2 <= |t| && Parse(t, i - 2, done, lab) == Parse(t, i + 2, done, lab + [n])
  {
    if i >= |t| || !IsDigit(t[i]) { return -1; }
    if i + 1 >= |t| || !IsDigit(t[i + 1]) { return -1; }
    n := Decimal(c, t[i], t[i + 1]);
    if n > 255 { return -1; }
  }

  lemma TooLong(t: seq<Octet>, i: nat, done: seq<Octet>, lab: seq<Octet>, dstsiz: nat)
    requires i <= |t| && lab != []
    ensures var goal := Parse(t, i, done, lab); goal.Parsed? && |done| + |lab| >= dstsiz ==> |goal.wire| > dstsiz
  {
    if Parse(t, i, done, lab).Parsed? { ParseGrows(t, i, done, lab); }
  }

  /**
   A dot that does not end the text: the label before it is closed and a new one begins; false where
   the name is refused.
   */
  method NextLabel(t: seq<Octet>, i: nat, dst: array<Octet>, at: nat, bp: nat, dstsiz: nat, ghost done: seq<Octet>,
                   ghost lab: seq<Octet>, ghost goal: Parsed) returns (ok: bool)
    requires 1 <= i < |t| && t[i - 1] == DOT && Parse(t, i - 1, done, lab) == goal
    requires Built(dst[..], dstsiz, done, lab) && at == |done| && bp == |done| + 1 + |lab|
    modifies dst
    ensures !ok ==> !goal.Parsed?
    ensures ok ==> Finished(done, lab).Some? && |Finished(done, lab).value| == bp
    ensures ok ==> Built(dst[..], dstsiz, Finished(done, lab).value, [])
    ensures ok ==> Scanning(t, i, false, Finished(done, lab).value, [], goal)
  {
    var c := CloseLabel(dst, at, bp, dstsiz, done, lab);
    return c > 0 && t[i] != DOT;
  }

  /**
   ns_name_pton: the wire form of the text `src`, 1 when it is fully qualified, 0 when it is
   not, -1 when it is malformed or too long for the limits or for `dstsiz`.
   */
  method Pton(src: seq<Octet>, dst: array<Octet>, dstsiz: nat) returns (r: int)
    requires 0 !in src && dstsiz <= dst.Length && Parse(src, 0, [], []) != Unsupported
    modifies dst
    ensures Answers(dst[..], dstsiz, Parse(src, 0, [], []), r)
  {
    ghost var goal, done: seq<Octet>, lab: seq<Octet> := Parse(src, 0, [], []), [], [];
    var escaped := false;
    var at: nat, bp: nat, i: nat := 0, 1, 0;
    while i < |src|
      invariant Scanning(src, i, escaped, done, lab, goal)
      invariant Built(dst[..], dstsiz, done, lab) && at == |done| && bp == |done| + 1 + |lab|
      decreases |src| - i
    {
      var c := src[i];
      i := i + 1;
      if escaped {
        if IsDigit(c) {
          var n := ReadEscape(src, i, c, done, lab);
          if n < 0 { return -1; }
          c, i := n, i + 2;
        } else if c == 0x5B && at + 1 == bp && i < |src| && src[i] == 0x78 {
          assert false;
        }
        escaped := false;
      } else if c == BACKSLASH {
        escaped := true;
        continue;
      } else if c == DOT {
        if i == |src| {
          r := EndName(dst, at, bp, dstsiz, true, done, lab);
          return;
        }
        var ok := NextLabel(src, i, dst, at, bp, dstsiz, done, lab, goal);
        if !ok { return -1; }
        done, lab := Finished(done, lab).value, [];
        at, bp := bp, bp + 1;
        continue;
      }
      TooLong(src, i, done, lab + [c], dstsiz);
      var ok := PutOctet(c, dst, bp, dstsiz, done, lab);
      if !ok { return -1; }
      lab, bp := lab + [c], bp + 1;
    }
    r := EndName(dst, at, bp, dstsiz, false, done, lab);
  }
}
