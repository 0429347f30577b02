/** ns_name_ntop and ns_name_pton: names as text, with the escapes of section 5.1 of RFC 1035. */
module DnsText {
  import opened Basics
  import opened Octets
  import opened DnsNames
  import opened DnsPacked

  const DOT: Octet := 0x2E
  const BACKSLASH: Octet := 0x5C

  /** A character that must be quoted in a zone file. */
  predicate Special(c: Octet)
  {
    c == 0x22 || c == DOT || c == 0x3B || c == BACKSLASH || c == 0x40 || c == 0x24
  }

  predicate Printable(c: Octet)
  {
    0x20 < c < 0x7F
  }

  predicate IsDigit(c: Octet)
  {
    0x30 <= c <= 0x39
  }

  /** One octet of a label as text. */
  function CharText(c: Octet): (t: seq<Octet>)
    ensures 1 <= |t| <= 4
  {
    if Special(c) then [BACKSLASH, c]
    else if !Printable(c) then [BACKSLASH, 0x30 + c / 100, 0x30 + c % 100 / 10, 0x30 + c % 10]
    else [c]
  }

  function LabelText(l: seq<Octet>): (t: seq<Octet>)
    ensures |t| >= |l|
  {
    if l == [] then [] else CharText(l[0]) + LabelText(l[1..])
  }

  /** The octets of the label at `q`. */
  ghost function LabelAt(w: seq<Octet>, q: nat): (l: seq<Octet>)
    requires IsName(w, q) && w[q] != 0
    ensures |l| == w[q] && q + 1 + |l| < |w| && IsName(w, q + 1 + |l|)
  {
    WireCons(w, q);
    w[q + 1..q + 1 + w[q]]
  }

  /** The labels of `w` from `q` on, with dots between them. */
  ghost function NameText(w: seq<Octet>, q: nat): (t: seq<Octet>)
    requires IsName(w, q) && w[q] != 0
    decreases |w| - q, 0
  {
    LabelText(LabelAt(w, q)) + TailText(w, q + 1 + |LabelAt(w, q)|)
  }

  /** What follows a label: nothing before the root, or else a dot and the next label. */
  ghost function TailText(w: seq<Octet>, q: nat): (t: seq<Octet>)
    requires IsName(w, q)
    decreases |w| - q, 1
  {
    if w[q] == 0 then [] else [DOT] + NameText(w, q)
  }

  /** The text of a name: the root is a single dot, every other name has no final dot. */
  ghost function TextOf(w: seq<Octet>): (t: seq<Octet>)
    requires IsName(w, 0)
  {
    if w[0] == 0 then [DOT] else NameText(w, 0)
  }

  /** What ns_name_pton makes of a text: `Unsupported` is a bit-string label, which this model leaves out. */
  datatype Parsed = Bad | Unsupported | Parsed(wire: seq<Octet>, qualified: bool)

  /** A finished label: the original tests its length only modulo 256. */
  function Finished(done: seq<Octet>, lab: seq<Octet>): Option<seq<Octet>>
  {
    if |lab| % 256 >= 0x40 then None else Some(done + [|lab| % 256] + lab)
  }

  /** The end of the text, after the finished labels `done` and the octets `lab` of the last one. */
  function ParseEnd(done: seq<Octet>, lab: seq<Octet>, qualified: bool): (r: Parsed)
    ensures r.Parsed? ==> |done| + 1 + |lab| <= |r.wire| && (lab != [] ==> |done| + 2 + |lab| <= |r.wire|)
  {
    match Finished(done, lab)
    case None => Bad
    case Some(d) =>
      var wire := if lab != [] then d + [0] else d;
      if |wire| > MAX_CD_NAME then Bad else Parsed(wire, qualified)
  }

  /** The scan of ns_name_pton from `i` on; an escape is read as one step. */
  function Parse(t: seq<Octet>, i: nat, done: seq<Octet>, lab: seq<Octet>): Parsed
    requires i <= |t|
    decreases |t| - i
  {
    if i == |t| then ParseEnd(done, lab, false)
    else if t[i] == BACKSLASH then
      if i + 1 == |t| then ParseEnd(done, lab, false)
      else if IsDigit(t[i + 1]) then
        if i + 3 >= |t| || !IsDigit(t[i + 2]) || !IsDigit(t[i + 3]) then Bad
        else
          var n := Decimal(t[i + 1], t[i + 2], t[i + 3]);
          if n > 255 then Bad else Parse(t, i + 4, done, lab + [n])
      else if t[i + 1] == 0x5B && lab == [] && i + 2 < |t| && t[i + 2] == 0x78 then Unsupported
      else Parse(t, i + 2, done, lab + [t[i + 1]])
    else if t[i] == DOT then
      if i + 1 == |t| then ParseEnd(done, lab, true)
      else if Finished(done, lab).None? || lab == [] || t[i + 1] == DOT then Bad
      else Parse(t, i + 1, Finished(done, lab).value, [])
    else Parse(t, i + 1, done, lab + [t[i]])
  }

  /** The value of three decimal digits. */
  function Decimal(a: Octet, b: Octet, c: Octet): nat
    requires IsDigit(a) && IsDigit(b) && IsDigit(c)
  {
    var x: int, y: int, z: int := a, b, c;
    (x - 0x30) * 100 + (y - 0x30) * 10 + (z - 0x30)
  }

  lemma {:induction false} ParseGrows(t: seq<Octet>, i: nat, done: seq<Octet>, lab: seq<Octet>)
    requires i <= |t| && Parse(t, i, done, lab).Parsed?
    ensures
      var w := Parse(t, i, done, lab).wire;
      |done| + 1 + |lab| <= |w| <= MAX_CD_NAME && (lab != [] ==> |done| + 2 + |lab| <= |w|)
    decreases |t| - i
  {
    if i < |t| {
      if t[i] == BACKSLASH {
        if i + 1 < |t| {
          if IsDigit(t[i + 1]) {
            ParseGrows(t, i + 4, done, lab + [Decimal(t[i + 1], t[i + 2], t[i + 3])]);
          } else {
            ParseGrows(t, i + 2, done, lab + [t[i + 1]]);
          }
        }
      } else if t[i] == DOT {
        if i + 1 < |t| { ParseGrows(t, i + 1, Finished(done, lab).value, []); }
      } else {
        ParseGrows(t, i + 1, done, lab + [t[i]]);
      }
    }
  }

  /** Complete labels from `q` to the end of `d`. */
  ghost predicate Labels(d: seq<Octet>, q: nat)
    decreases |d| - q
  {
    q == |d| || (q < |d| && 1 <= d[q] < 0x40 && q + d[q] + 1 <= |d| && Labels(d, q + d[q] + 1))
  }

  lemma {:induction false} LabelsMore(d: seq<Octet>, q: nat, lab: seq<Octet>)
    requires Labels(d, q) && 1 <= |lab| < 0x40 && q <= |d|
    ensures Labels(d + [|lab|] + lab, q)
    decreases |d| - q
  {
    var d' := d + [|lab|] + lab;
    if q < |d| {
      LabelsMore(d, q + d[q] + 1, lab);
      assert d'[q] == d[q];
    } else {
      assert d'[q] == |lab|;
    }
  }

  lemma {:induction false} LabelsName(d: seq<Octet>, q: nat)
    requires Labels(d, q) && q <= |d|
    ensures IsName(d + [0], q)
    decreases |d| - q
  {
    if q < |d| {
      LabelsName(d, q + d[q] + 1);
      assert (d + [0])[q] == d[q];
    }
  }

  /** The whole name is short, so the last label's length is not 256 to 319. */
  lemma ShortLabel(done: seq<Octet>, lab: seq<Octet>, qualified: bool)
    requires ParseEnd(done, lab, qualified).Parsed? && lab != []
    ensures |lab| < 0x40 && ParseEnd(done, lab, qualified).wire == done + [|lab|] + lab + [0]
  {
    assert |lab| <= MAX_CD_NAME;
  }

  lemma EndLimits(done: seq<Octet>, lab: seq<Octet>, qualified: bool)
    requires Labels(done, 0) && ParseEnd(done, lab, qualified).Parsed?
    ensures IsName(ParseEnd(done, lab, qualified).wire, 0)
  {
    if lab == [] {
      LabelsName(done, 0);
      assert ParseEnd(done, lab, qualified).wire == done + [0];
    } else {
      ShortLabel(done, lab, qualified);
      LabelsMore(done, 0, lab);
      LabelsName(done + [|lab|] + lab, 0);
    }
  }

  /**
   The limits of section 2.3.4 of RFC 1035: whatever is accepted is a name of labels of 1 to 63
   octets and at most 255 in all. Labels of 256 to 319 octets pass the test of their length and
   are caught only by that of the whole name.
   */
  lemma {:induction false} ParseLimits(t: seq<Octet>, i: nat, done: seq<Octet>, lab: seq<Octet>)
    requires i <= |t| && Labels(done, 0) && Parse(t, i, done, lab).Parsed?
    ensures
      var w := Parse(t, i, done, lab).wire;
      IsName(w, 0) && |w| <= MAX_CD_NAME
    decreases |t| - i
  {
    ParseGrows(t, i, done, lab);
    if i == |t| {
      EndLimits(done, lab, false);
    } else if t[i] == BACKSLASH {
      if i + 1 == |t| {
        EndLimits(done, lab, false);
      } else if IsDigit(t[i + 1]) {
        ParseLimits(t, i + 4, done, lab + [Decimal(t[i + 1], t[i + 2], t[i + 3])]);
      } else {
        ParseLimits(t, i + 2, done, lab + [t[i + 1]]);
      }
    } else if t[i] == DOT {
      if i + 1 == |t| {
        EndLimits(done, lab, true);
      } else {
        LabelsMore(done, 0, lab);
        ParseLimits(t, i + 1, Finished(done, lab).value, []);
      }
    } else {
      ParseLimits(t, i + 1, done, lab + [t[i]]);
    }
  }

  /** The text `x` stands at `i` of `t`. */
  ghost predicate Here(t: seq<Octet>, i: nat, x: seq<Octet>)
  {
    i + |x| <= |t| && forall k :: 0 <= k < |x| ==> x[k] == t[i + k]
  }

  lemma HereSplit(t: seq<Octet>, i: nat, x: seq<Octet>, y: seq<Octet>)
    requires Here(t, i, x + y)
    ensures Here(t, i, x) && Here(t, i + |x|, y)
  {
    assert forall k :: 0 <= k < |x| ==> x[k] == (x + y)[k];
    assert forall k :: 0 <= k < |y| ==> y[k] == (x + y)[|x| + k];
  }

  /** The text of one octet is read back as that octet, wherever it stands in a label. */
  lemma CharParses(t: seq<Octet>, i: nat, c: Octet, done: seq<Octet>, lab: seq<Octet>)
    requires Here(t, i, CharText(c))
    ensures Parse(t, i, done, lab) == Parse(t, i + |CharText(c)|, done, lab + [c])
  {
    var x := CharText(c);
    assert x[0] == t[i];
    if Special(c) {
      assert x[1] == t[i + 1];
    } else if !Printable(c) {
      assert x[1] == t[i + 1] && x[2] == t[i + 2] && x[3] == t[i + 3];
      assert Decimal(x[1], x[2], x[3]) == c;
    }
  }

  lemma {:induction false} LabelParses(t: seq<Octet>, i: nat, l: seq<Octet>, done: seq<Octet>, lab: seq<Octet>)
    requires Here(t, i, LabelText(l))
    ensures Parse(t, i, done, lab) == Parse(t, i + |LabelText(l)|, done, lab + l)
    decreases |l|
  {
    if l == [] {
      assert lab + [] == lab;
    } else {
      HereSplit(t, i, CharText(l[0]), LabelText(l[1..]));
      CharParses(t, i, l[0], done, lab);
      LabelParses(t, i + |CharText(l[0])|, l[1..], done, lab + [l[0]]);
      assert lab + [l[0]] + l[1..] == lab + l;
    }
  }

  /**
   A label of 256 to 319 octets passes the test of its length, yet no text that begins with one is
   accepted: the name is too long in the end.
   */
  lemma LongLabelCaughtLate(l: seq<Octet>, more: seq<Octet>)
    requires 256 <= |l| < 256 + 0x40
    ensures Finished([], l) == Some([|l| % 256] + l)
    ensures !Parse(LabelText(l) + more, 0, [], []).Parsed? && Parse(LabelText(l), 0, [], []) == Bad
  {
    assert [] + l == l && [] + [|l| % 256] == [|l| % 256];
    LabelParses(LabelText(l), 0, l, [], []);
    var t := LabelText(l) + more;
    LabelParses(t, 0, l, [], []);
    if Parse(t, 0, [], []).Parsed? { ParseGrows(t, |LabelText(l)|, [], l); }
  }

  lemma NotDot(l: seq<Octet>)
    requires l != []
    ensures LabelText(l)[0] != DOT
  {}

  lemma WirePrefix(w: seq<Octet>, q: nat)
    requires IsName(w, q) && w[q] != 0
    ensures Finished(w[..q], LabelAt(w, q)) == Some(w[..q + 1 + |LabelAt(w, q)|])
  {
    assert w[..q + 1 + w[q]] == w[..q] + [w[q]] + w[q + 1..q + 1 + w[q]];
  }

  lemma LastLabelParses(t: seq<Octet>, i: nat, w: seq<Octet>, q: nat)
    requires IsName(w, q) && |w| <= MAX_CD_NAME && w[q] != 0 && w[q + 1 + |LabelAt(w, q)|] == 0 && i == |t|
    ensures Parse(t, i, w[..q], LabelAt(w, q)) == Parsed(w, false)
  {
    WirePrefix(w, q);
    assert w[..q + 1 + |LabelAt(w, q)|] + [0] == w;
  }

  lemma FirstLabelParses(t: seq<Octet>, i: nat, w: seq<Octet>, q: nat)
    requires IsName(w, q) && |w| <= MAX_CD_NAME && w[q] != 0 && Here(t, i, NameText(w, q))
    ensures
      var l := LabelAt(w, q);
      var j := i + |LabelText(l)|;
      Here(t, j, TailText(w, q + 1 + |l|)) && Parse(t, i, w[..q], []) == Parse(t, j, w[..q], l)
  {
    var l := LabelAt(w, q);
    assert [] + l == l;
    HereSplit(t, i, LabelText(l), TailText(w, q + 1 + |l|));
    LabelParses(t, i, l, w[..q], []);
  }

  /** The text of a name from the label at `q` on is read back as the name. */
  lemma {:induction false} NameParses(t: seq<Octet>, i: nat, w: seq<Octet>, q: nat)
    requires IsName(w, q) && |w| <= MAX_CD_NAME && w[q] != 0
    requires Here(t, i, NameText(w, q)) && i + |NameText(w, q)| == |t|
    ensures Parse(t, i, w[..q], []) == Parsed(w, false)
    decreases |w| - q
  {
    var l := LabelAt(w, q);
    var next, j := q + 1 + |l|, i + |LabelText(l)|;
    if w[next] == 0 {
      FirstLabelParses(t, i, w, q);
      LastLabelParses(t, j, w, q);
    } else {
      LabelAndDotParse(t, i, w, q);
      NameParses(t, j + 1, w, next);
    }
  }

  lemma LabelAndDotParse(t: seq<Octet>, i: nat, w: seq<Octet>, q: nat)
    requires IsName(w, q) && |w| <= MAX_CD_NAME && w[q] != 0 && w[q + 1 + |LabelAt(w, q)|] != 0
    requires Here(t, i, NameText(w, q)) && i + |NameText(w, q)| == |t|
    ensures
      var l := LabelAt(w, q);
      var next, j := q + 1 + |l|, i + |LabelText(l)|;
      && Here(t, j + 1, NameText(w, next)) && j + 1 + |NameText(w, next)| == |t|
      && Parse(t, i, w[..q], []) == Parse(t, j + 1, w[..next], [])
  {
    var l := LabelAt(w, q);
    var next, j := q + 1 + |l|, i + |LabelText(l)|;
    FirstLabelParses(t, i, w, q);
    HereSplit(t, j, [DOT], NameText(w, next));
    DotParses(t, j, w, q);
  }

  lemma DotParses(t: seq<Octet>, j: nat, w: seq<Octet>, q: nat)
    requires IsName(w, q) && w[q] != 0 && w[q + 1 + |LabelAt(w, q)|] != 0
    requires Here(t, j, [DOT]) && Here(t, j + 1, NameText(w, q + 1 + |LabelAt(w, q)|))
    ensures Parse(t, j, w[..q], LabelAt(w, q)) == Parse(t, j + 1, w[..q + 1 + |LabelAt(w, q)|], [])
  {
    WirePrefix(w, q);
    var l := LabelAt(w, q);
    var next := q + 1 + |l|;
    NotDot(LabelAt(w, next));
    assert [DOT][0] == t[j];
    assert NameText(w, next) == LabelText(LabelAt(w, next)) + TailText(w, next + 1 + |LabelAt(w, next)|);
    assert NameText(w, next)[0] == LabelText(LabelAt(w, next))[0] == t[j + 1];
  }

  /**
   The text of any name is read back as exactly that name, through the quoting of special
   characters and the decimal escapes: fully qualified for the root only.
   */
  lemma TextRoundTrip(w: seq<Octet>)
    requires IsName(w, 0) && |w| <= MAX_CD_NAME
    ensures Parse(TextOf(w), 0, [], []) == Parsed(w, w == [0])
  {
    if w[0] == 0 {
      assert w == [0];
    } else {
      assert w[..0] == [];
      NameParses(TextOf(w), 0, w, 0);
    }
  }

  /** Distinct names have distinct texts. */
  lemma TextInjective(w: seq<Octet>, v: seq<Octet>)
    requires IsName(w, 0) && |w| <= MAX_CD_NAME && IsName(v, 0) && |v| <= MAX_CD_NAME && TextOf(w) == TextOf(v)
    ensures w == v
  {
    TextRoundTrip(w);
    TextRoundTrip(v);
  }
}
