/** Every way to spell a name as text, and that ns_name_pton accepts exactly these. */
module DnsSpelling {
  import opened Basics
  import opened Octets
  import opened DnsNames
  import opened DnsPacked
  import opened DnsText

  /** One octet of a label as it may be written: as it is, after a backslash, or as three digits after one. */
  datatype Quoted = Plain(c: Octet) | Escaped(c: Octet) | Numbered(c: Octet)

  ghost predicate QuotedOk(x: Quoted)
  {
    match x
    case Plain(c) => c != 0x2E && c != 0x5C
    case Escaped(c) => !(0x30 <= c <= 0x39)
    case Numbered(_) => true
  }

  function QuotedText(x: Quoted): (t: seq<Octet>)
    ensures t != []
  {
    match x
    case Plain(c) => [c]
    case Escaped(c) => [0x5C, c]
    case Numbered(c) => [0x5C, 0x30 + c / 100, 0x30 + c / 10 % 10, 0x30 + c % 10]
  }

  function Spell(l: seq<Quoted>): (t: seq<Octet>)
    ensures l == [] <==> t == []
  {
    if l == [] then [] else QuotedText(l[0]) + Spell(l[1..])
  }

  function Octs(l: seq<Quoted>): (o: seq<Octet>)
    ensures |o| == |l|
  {
    if l == [] then [] else [l[0].c] + Octs(l[1..])
  }

  /** How a text ends: with its last label, with a dot, or with a backslash that quotes nothing. */
  datatype End = Bare | FinalDot | Hanging

  function EndText(e: End): seq<Octet>
  {
    match e case Bare => [] case FinalDot => [0x2E] case Hanging => [0x5C]
  }

  /** The labels with dots between them, and the end. */
  function Text(ls: seq<seq<Quoted>>, e: End): seq<Octet>
    requires ls != []
  {
    Spell(ls[0]) + if |ls| == 1 then EndText(e) else [0x2E] + Text(ls[1..], e)
  }

  /** A label begins a bit string when it is spelled so. */
  ghost predicate IsBitString(l: seq<Quoted>)
  {
    |l| > 1 && l[0] == Escaped(0x5B) && l[1] == Plain(0x78)
  }

  /** The octets of one label behind its length; an empty one is nothing. */
  function LabelWire(o: seq<Octet>): seq<Octet>
  {
    if o == [] then [] else [|o| % 256] + o
  }

  function WireOf(ls: seq<seq<Quoted>>): seq<Octet>
  {
    if ls == [] then [0] else LabelWire(Octs(ls[0])) + WireOf(ls[1..])
  }

  /** Labels that may be written: of 1 to 63 octets, only the last perhaps empty, before a hanging backslash. */
  ghost predicate Writable(ls: seq<seq<Quoted>>, e: End)
  {
    && ls != [] && (forall k :: 0 <= k < |ls| ==> LabelOk(ls[k])) && (forall k :: 0 <= k < |ls| - 1 ==> ls[k] != [])
    && (ls[|ls| - 1] == [] ==> e == Hanging)
  }

  /** The same as one fact. */
  ghost predicate LabelsOk(ls: seq<seq<Quoted>>, e: End)
  {
    var ok := Writable(ls, e);
    ok
  }

  ghost predicate LabelOk(l: seq<Quoted>)
  {
    |l| < 0x40 && !IsBitString(l) && forall x :: x in l ==> QuotedOk(x)
  }

  /** A name as it may be written: labels, or for the root no label at all. */
  ghost predicate SpellingOk(ls: seq<seq<Quoted>>, e: End)
  {
    (ls == [[]] || LabelsOk(ls, e)) && |WireOf(ls)| <= 255
  }

  // ----- the scan of what is left of a text -----

  /** `Parse` on the text that is left, so that it has no positions. */
  ghost function Scan(s: seq<Octet>, done: seq<Octet>, lab: seq<Octet>): Parsed
    decreases |s|
  {
    if s == [] then ParseEnd(done, lab, false)
    else if s[0] == BACKSLASH then
      if |s| == 1 then ParseEnd(done, lab, false)
      else if IsDigit(s[1]) then
        if |s| < 4 || !IsDigit(s[2]) || !IsDigit(s[3]) || Decimal(s[1], s[2], s[3]) > 255 then Bad
        else Scan(s[4..], done, lab + [Decimal(s[1], s[2], s[3])])
      else if s[1] == 0x5B && lab == [] && |s| > 2 && s[2] == 0x78 then Unsupported
      else Scan(s[2..], done, lab + [s[1]])
    else if s[0] == DOT then
      if |s| == 1 then ParseEnd(done, lab, true)
      else if Finished(done, lab).None? || lab == [] || s[1] == DOT then Bad
      else Scan(s[1..], Finished(done, lab).value, [])
    else Scan(s[1..], done, lab + [s[0]])
  }

  lemma {:induction false} ScanIs(t: seq<Octet>, i: nat, done: seq<Octet>, lab: seq<Octet>)
    requires i <= |t|
    ensures Parse(t, i, done, lab) == Scan(t[i..], done, lab)
    decreases |t| - i
  {
    if i < |t| {
      var s := t[i..];
      if t[i] == BACKSLASH {
        if i + 1 < |t| {
          if IsDigit(t[i + 1]) {
            if i + 3 < |t| && IsDigit(t[i + 2]) && IsDigit(t[i + 3]) && Decimal(t[i + 1], t[i + 2], t[i + 3]) <= 255 {
              assert s[4..] == t[i + 4..];
              ScanIs(t, i + 4, done, lab + [Decimal(t[i + 1], t[i + 2], t[i + 3])]);
            }
          } else {
            assert s[2..] == t[i + 2..];
            ScanIs(t, i + 2, done, lab + [t[i + 1]]);
          }
        }
      } else {
        assert s[1..] == t[i + 1..];
        if t[i] == DOT {
          if Finished(done, lab).Some? { ScanIs(t, i + 1, Finished(done, lab).value, []); }
        } else {
          ScanIs(t, i + 1, done, lab + [t[i]]);
        }
      }
    }
  }

  // ----- what is so written is accepted -----

  lemma ThreeDigits(c: Octet)
    ensures IsDigit(0x30 + c / 100) && IsDigit(0x30 + c / 10 % 10) && IsDigit(0x30 + c % 10)
    ensures Decimal(0x30 + c / 100, 0x30 + c / 10 % 10, 0x30 + c % 10) == c
  {
  }

  lemma QuotedScans(x: Quoted, rest: seq<Octet>, done: seq<Octet>, lab: seq<Octet>)
    requires QuotedOk(x) && (lab == [] && x == Escaped(0x5B) && rest != [] ==> rest[0] != 0x78)
    ensures Scan(QuotedText(x) + rest, done, lab) == Scan(rest, done, lab + [x.c])
  {
    var s := QuotedText(x) + rest;
    match x
    case Plain(c) => assert s[1..] == rest;
    case Escaped(c) => assert s[2..] == rest;
    case Numbered(c) =>
      ThreeDigits(c);
      assert s[4..] == rest;
  }

  /** What follows a label: nothing, a dot or a backslash. */
  ghost predicate Stops(more: seq<Octet>)
  {
    more != [] ==> more[0] == 0x2E || more[0] == 0x5C
  }

  /** The octet after an escaped bracket that begins a label does not make it a bit string. */
  lemma NoBitString(l: seq<Quoted>, more: seq<Octet>)
    requires l != [] && Stops(more) && !IsBitString(l) && l[0] == Escaped(0x5B)
    ensures var rest := Spell(l[1..]) + more; rest != [] ==> rest[0] != 0x78
  {
    if |l| > 1 {
      assert l[1..] != [] && l[1..][0] == l[1];
    } else {
      assert l[1..] == [];
    }
  }

  lemma {:induction false} LabelScans(l: seq<Quoted>, more: seq<Octet>, done: seq<Octet>, lab: seq<Octet>)
    requires Stops(more) && (forall x :: x in l ==> QuotedOk(x)) && (lab == [] ==> !IsBitString(l))
    ensures Scan(Spell(l) + more, done, lab) == Scan(more, done, lab + Octs(l))
    decreases |l|
  {
    if l == [] {
      assert lab + [] == lab && [] + more == more;
    } else {
      var x, rest := l[0], Spell(l[1..]) + more;
      Assoc(QuotedText(x), Spell(l[1..]), more);
      if lab == [] && x == Escaped(0x5B) { NoBitString(l, more); }
      QuotedScans(x, rest, done, lab);
      LabelScans(l[1..], more, done, lab + [x.c]);
      Assoc(lab, [x.c], Octs(l[1..]));
    }
  }

  lemma EndIs(done: seq<Octet>, lab: seq<Octet>, qualified: bool)
    requires |lab| < 0x40 && |done + LabelWire(lab) + [0]| <= 255
    ensures ParseEnd(done, lab, qualified) == Parsed(done + LabelWire(lab) + [0], qualified)
  {
    if lab == [] {
      assert done + LabelWire(lab) == done && done + [|lab| % 256] + lab == done + [0];
    } else {
      assert done + LabelWire(lab) == done + [|lab| % 256] + lab;
    }
  }

  /** The end of a text, after the octets `lab` of the last label. */
  lemma EndScans(e: End, done: seq<Octet>, lab: seq<Octet>)
    requires |lab| < 0x40 && |done + LabelWire(lab) + [0]| <= 255
    ensures Scan(EndText(e), done, lab) == Parsed(done + LabelWire(lab) + [0], e == FinalDot)
  {
    EndIs(done, lab, e == FinalDot);
  }

  /** A dot between two labels closes the first. */
  lemma DotScans(rest: seq<Octet>, done: seq<Octet>, lab: seq<Octet>)
    requires rest != [] && rest[0] != 0x2E && 1 <= |lab| < 0x40
    ensures Scan([0x2E] + rest, done, lab) == Scan(rest, done + LabelWire(lab), [])
  {
    assert ([0x2E] + rest)[1..] == rest;
    assert done + LabelWire(lab) == done + [|lab| % 256] + lab;
  }

  lemma WireStep(done: seq<Octet>, ls: seq<seq<Quoted>>)
    requires ls != []
    ensures done + LabelWire(Octs(ls[0])) + WireOf(ls[1..]) == done + WireOf(ls)
  {
  }

  /** What comes after the first label. */
  function After(ls: seq<seq<Quoted>>, e: End): seq<Octet>
    requires ls != []
  {
    if |ls| == 1 then EndText(e) else [0x2E] + Text(ls[1..], e)
  }

  /** The text of labels that may be written begins with no dot. */
  lemma NoDotFirst(ls: seq<seq<Quoted>>, e: End)
    requires LabelsOk(ls, e)
    ensures Text(ls, e) != [] && Text(ls, e)[0] != 0x2E
  {
    assert Text(ls, e) == Spell(ls[0]) + After(ls, e);
    if ls[0] != [] { assert ls[0][0] in ls[0]; }
  }

  lemma LabelsTail(ls: seq<seq<Quoted>>, e: End)
    requires LabelsOk(ls, e) && |ls| > 1
    ensures LabelsOk(ls[1..], e) && ls[0] != [] && LabelOk(ls[0]) && LabelOk(ls[1..][0])
  {
    forall k | 0 <= k < |ls[1..]| ensures LabelOk(ls[1..][k]) && (k < |ls[1..]| - 1 ==> ls[1..][k] != []) {
      assert ls[1..][k] == ls[k + 1];
    }
  }

  /** The first label is read up to what comes after it. */
  lemma FirstScans(ls: seq<seq<Quoted>>, e: End, done: seq<Octet>)
    requires ls != [] && LabelOk(ls[0])
    ensures Scan(Text(ls, e), done, []) == Scan(After(ls, e), done, Octs(ls[0]))
  {
    LabelScans(ls[0], After(ls, e), done, []);
    assert [] + Octs(ls[0]) == Octs(ls[0]);
  }

  /** And so is the dot after it. */
  lemma StepScans(ls: seq<seq<Quoted>>, e: End, done: seq<Octet>)
    requires LabelsOk(ls, e) && |ls| > 1
    ensures Scan(Text(ls, e), done, []) == Scan(Text(ls[1..], e), done + LabelWire(Octs(ls[0])), [])
  {
    LabelsTail(ls, e);
    FirstScans(ls, e, done);
    NoDotFirst(ls[1..], e);
    DotScans(Text(ls[1..], e), done, Octs(ls[0]));
  }

  lemma {:induction false} NameScans(ls: seq<seq<Quoted>>, e: End, done: seq<Octet>)
    requires ls != [] && LabelOk(ls[0]) && (|ls| > 1 ==> LabelsOk(ls, e)) && |done + WireOf(ls)| <= 255
    ensures Scan(Text(ls, e), done, []) == Parsed(done + WireOf(ls), e == FinalDot)
    decreases |ls|
  {
    WireStep(done, ls);
    if |ls| == 1 {
      assert WireOf(ls[1..]) == [0];
      FirstScans(ls, e, done);
      EndScans(e, done, Octs(ls[0]));
    } else {
      LabelsTail(ls, e);
      StepScans(ls, e, done);
      NameScans(ls[1..], e, done + LabelWire(Octs(ls[0])));
    }
  }

  // ----- and nothing else is -----

  /** The text `s` spells the rest of the label `lab`, and more labels. */
  ghost predicate Spells(s: seq<Octet>, done: seq<Octet>, lab: seq<Octet>, ls: seq<seq<Quoted>>, e: End)
  {
    && ls != [] && s == Text(ls, e) && |lab| + |ls[0]| < 0x40
    && (lab == [] ==> !IsBitString(ls[0])) && (forall x :: x in ls[0] ==> QuotedOk(x))
    && (|ls| > 1 ==> lab + Octs(ls[0]) != [] && LabelsOk(ls[1..], e))
    && Scan(s, done, lab) == Parsed(done + LabelWire(lab + Octs(ls[0])) + WireOf(ls[1..]), e == FinalDot)
  }

  /** The same as one fact. */
  ghost predicate Spelled(s: seq<Octet>, done: seq<Octet>, lab: seq<Octet>, ls: seq<seq<Quoted>>, e: End)
  {
    var spelled := Spells(s, done, lab, ls, e);
    spelled
  }

  lemma SpelledEnd(done: seq<Octet>, lab: seq<Octet>, e: End)
    requires Scan(EndText(e), done, lab).Parsed?
    ensures Spelled(EndText(e), done, lab, [[]], e)
  {
    var ls: seq<seq<Quoted>> := [[]];
    assert Scan(EndText(e), done, lab) == ParseEnd(done, lab, e == FinalDot);
    assert lab + Octs(ls[0]) == lab && ls[1..] == [];
    assert Text(ls, e) == [] + EndText(e) == EndText(e);
    assert |lab| < 0x40;
    assert done + LabelWire(lab) + WireOf(ls[1..]) == done + LabelWire(lab) + [0];
    EndScans(e, done, lab);
  }

  lemma TextMore(x: Quoted, ls: seq<seq<Quoted>>, e: End)
    requires ls != []
    ensures
      var l, all := [x] + ls[0], [[x] + ls[0]] + ls[1..];
      && all[0] == l && all[1..] == ls[1..] && |all| == |ls| && l[1..] == ls[0]
      && Text(all, e) == QuotedText(x) + Text(ls, e) && Octs(l) == [x.c] + Octs(ls[0])
  {
    var l, all := [x] + ls[0], [[x] + ls[0]] + ls[1..];
    assert l[1..] == ls[0] && all[1..] == ls[1..] && all[0] == l;
    Assoc(QuotedText(x), Spell(ls[0]), After(ls, e));
  }

  lemma XComesFirst(ls: seq<seq<Quoted>>, e: End)
    requires ls != [] && ls[0] != [] && ls[0][0] == Plain(0x78)
    ensures Text(ls, e) != [] && Text(ls, e)[0] == 0x78
  {
    assert Text(ls, e) == Spell(ls[0]) + After(ls, e);
  }

  /** One octet more in front of the current label. */
  lemma SpelledMore(x: Quoted, rest: seq<Octet>, done: seq<Octet>, lab: seq<Octet>, ls: seq<seq<Quoted>>, e: End)
    requires QuotedOk(x) && (lab == [] && x == Escaped(0x5B) && rest != [] ==> rest[0] != 0x78)
    requires Spelled(rest, done, lab + [x.c], ls, e)
    ensures Spelled(QuotedText(x) + rest, done, lab, [[x] + ls[0]] + ls[1..], e)
  {
    TextMore(x, ls, e);
    Assoc(lab, [x.c], Octs(ls[0]));
    QuotedScans(x, rest, done, lab);
    if IsBitString([x] + ls[0]) { XComesFirst(ls, e); }
  }

  /** The first octet of what is left, as it is written there. */
  lemma QuotedFirst(s: seq<Octet>, done: seq<Octet>, lab: seq<Octet>) returns (x: Quoted, rest: seq<Octet>)
    requires s != [] && s[0] != 0x2E && (s[0] == 0x5C ==> |s| > 1) && Scan(s, done, lab).Parsed?
    ensures QuotedOk(x) && s == QuotedText(x) + rest && |rest| < |s|
    ensures lab == [] && x == Escaped(0x5B) && rest != [] ==> rest[0] != 0x78
  {
    if s[0] != 0x5C {
      x, rest := Plain(s[0]), s[1..];
    } else if IsDigit(s[1]) {
      x, rest := Numbered(Decimal(s[1], s[2], s[3])), s[4..];
      DigitsOf(s[1], s[2], s[3]);
    } else {
      x, rest := Escaped(s[1]), s[2..];
    }
  }

  lemma DigitsOf(a: Octet, b: Octet, c: Octet)
    requires IsDigit(a) && IsDigit(b) && IsDigit(c) && Decimal(a, b, c) <= 255
    ensures
      var n := Decimal(a, b, c);
      a == 0x30 + n / 100 && b == 0x30 + n / 10 % 10 && c == 0x30 + n % 10
  {
  }

  lemma ScanGrows(s: seq<Octet>, done: seq<Octet>, lab: seq<Octet>)
    requires Scan(s, done, lab).Parsed?
    ensures |done| + 1 + |lab| <= 255
  {
    ScanIs(s, 0, done, lab);
    assert s[0..] == s;
    ParseGrows(s, 0, done, lab);
  }

  lemma DotPasses(rest: seq<Octet>, done: seq<Octet>, lab: seq<Octet>)
    requires rest != [] && Scan([0x2E] + rest, done, lab).Parsed?
    ensures rest[0] != 0x2E && lab != [] && Finished(done, lab).Some?
      && Scan(rest, Finished(done, lab).value, []).Parsed?
  {
    var s := [0x2E] + rest;
    assert s[1..] == rest && s[1] == rest[0];
  }

  /** What is finished at a dot is the label behind its length. */
  lemma FinishedIs(rest: seq<Octet>, done: seq<Octet>, lab: seq<Octet>)
    requires lab != [] && Finished(done, lab).Some? && Scan(rest, Finished(done, lab).value, []).Parsed?
    ensures Finished(done, lab).value == done + LabelWire(lab) && |lab| < 0x40
  {
    ScanGrows(rest, Finished(done, lab).value, []);
    assert done + LabelWire(lab) == done + [|lab| % 256] + lab;
  }

  /** One label more in front of labels that may be written. */
  lemma LabelsCons(ls: seq<seq<Quoted>>, e: End)
    requires |ls| > 1 && LabelOk(ls[0]) && ls[0] != [] && LabelsOk(ls[1..], e)
    ensures LabelsOk(ls, e)
  {
    forall k | 0 <= k < |ls| ensures LabelOk(ls[k]) && (k < |ls| - 1 ==> ls[k] != []) {
      if k > 0 { assert ls[k] == ls[1..][k - 1]; }
    }
    assert ls[|ls| - 1] == ls[1..][|ls[1..]| - 1];
  }

  /** The labels after a dot that is not the last. */
  lemma AfterDot(rest: seq<Octet>, done: seq<Octet>, ls: seq<seq<Quoted>>, e: End)
    requires rest != [] && rest[0] != 0x2E && Spelled(rest, done, [], ls, e)
    ensures LabelsOk(ls, e)
  {
    assert [] + Octs(ls[0]) == Octs(ls[0]);
    if |ls| > 1 {
      LabelsCons(ls, e);
    } else if ls[0] == [] {
      assert rest == [] + EndText(e) == EndText(e);
    }
  }

  /** A dot in front: the label before it is finished, and not empty. */
  lemma SpelledDot(rest: seq<Octet>, done: seq<Octet>, lab: seq<Octet>, ls: seq<seq<Quoted>>, e: End)
    requires rest != [] && rest[0] != 0x2E && 1 <= |lab| < 0x40 && Spelled(rest, done + LabelWire(lab), [], ls, e)
    ensures Spelled([0x2E] + rest, done, lab, [[]] + ls, e)
  {
    var all := [[]] + ls;
    assert all[1..] == ls;
    assert Text(all, e) == [] + ([0x2E] + Text(ls, e)) == [0x2E] + Text(ls, e);
    AfterDot(rest, done + LabelWire(lab), ls, e);
    DotScans(rest, done, lab);
    assert lab + [] == lab && [] + Octs(ls[0]) == Octs(ls[0]);
    WireStep(done + LabelWire(lab), ls);
  }

  lemma {:induction false} Spellable(s: seq<Octet>, done: seq<Octet>, lab: seq<Octet>)
    returns (ls: seq<seq<Quoted>>, e: End)
    requires Scan(s, done, lab).Parsed?
    ensures Spelled(s, done, lab, ls, e)
    decreases |s|
  {
    ls := [[]];
    if s == [] || s == [0x5C] || s == [0x2E] {
      e := if s == [] then Bare else if s == [0x5C] then Hanging else FinalDot;
      SpelledEnd(done, lab, e);
    } else if s[0] == 0x2E {
      var rest := s[1..];
      assert s == [0x2E] + rest;
      DotPasses(rest, done, lab);
      FinishedIs(rest, done, lab);
      ls, e := Spellable(rest, done + LabelWire(lab), []);
      SpelledDot(rest, done, lab, ls, e);
      ls := [[]] + ls;
    } else {
      assert |s| == 1 ==> s == [s[0]];
      var x, rest := QuotedFirst(s, done, lab);
      QuotedScans(x, rest, done, lab);
      ls, e := Spellable(rest, done, lab + [x.c]);
      SpelledMore(x, rest, done, lab, ls, e);
      ls := [[x] + ls[0]] + ls[1..];
    }
  }

  /** A whole text that is accepted is written as labels may be. */
  lemma SpelledWhole(t: seq<Octet>, ls: seq<seq<Quoted>>, e: End)
    requires Spelled(t, [], [], ls, e)
    ensures SpellingOk(ls, e) && t == Text(ls, e) && Scan(t, [], []) == Parsed(WireOf(ls), e == FinalDot)
  {
    assert [] + Octs(ls[0]) == Octs(ls[0]);
    WireStep([], ls);
    assert [] + LabelWire(Octs(ls[0])) == LabelWire(Octs(ls[0])) && [] + WireOf(ls) == WireOf(ls);
    ScanIs(t, 0, [], []);
    assert t[0..] == t;
    ParseGrows(t, 0, [], []);
    if |ls| > 1 { LabelsCons(ls, e); } else if ls[0] == [] { assert ls == [[]]; }
  }

  /**
   The texts that ns_name_pton accepts, and as what: labels of 1 to 63 octets with dots between them, in
   all at most 255 octets of wire form, each octet as it is, after a backslash or as three digits after
   one, but no bit string. A final dot makes the name fully qualified; a backslash that quotes nothing may
   end the text, and a dot may come before it. The empty name is the root.
   */
  lemma ParsesIff(t: seq<Octet>, w: seq<Octet>, qualified: bool)
    ensures Parse(t, 0, [], []) == Parsed(w, qualified) <==>
      exists ls, e :: SpellingOk(ls, e) && t == Text(ls, e) && w == WireOf(ls) && qualified == (e == FinalDot)
  {
    ScanIs(t, 0, [], []);
    assert t[0..] == t;
    if Parse(t, 0, [], []) == Parsed(w, qualified) {
      var ls, e := Spellable(t, [], []);
      SpelledWhole(t, ls, e);
    }
    forall ls, e | SpellingOk(ls, e) && t == Text(ls, e) && w == WireOf(ls) && qualified == (e == FinalDot)
      ensures Parse(t, 0, [], []) == Parsed(w, qualified)
    {
      assert [] + WireOf(ls) == WireOf(ls);
      assert LabelOk(ls[0]);
      NameScans(ls, e, []);
    }
  }

  // ----- how ns_name_ntop spells -----

  /**
   The spelling ns_name_ntop chooses: the quote, the dot, the semicolon, the backslash, the at sign and the
   dollar sign after a backslash, other printable octets as they are, and the rest as digits.
   */
  function Chosen(c: Octet): Quoted
  {
    if c in {0x22, 0x2E, 0x3B, 0x5C, 0x40, 0x24} then Escaped(c)
    else if 0x21 <= c <= 0x7E then Plain(c) else Numbered(c)
  }

  function ChosenLabel(o: seq<Octet>): (l: seq<Quoted>)
    ensures |l| == |o|
  {
    if o == [] then [] else [Chosen(o[0])] + ChosenLabel(o[1..])
  }

  lemma ChosenIs(c: Octet)
    ensures CharText(c) == QuotedText(Chosen(c))
  {
  }

  lemma {:induction false} LabelTextIs(o: seq<Octet>)
    ensures LabelText(o) == Spell(ChosenLabel(o))
    decreases |o|
  {
    if o != [] {
      ChosenIs(o[0]);
      LabelTextIs(o[1..]);
      assert ChosenLabel(o)[1..] == ChosenLabel(o[1..]);
    }
  }

  /** The labels of a name from `q` on, spelled so. */
  ghost function ChosenLabels(w: seq<Octet>, q: nat): (ls: seq<seq<Quoted>>)
    requires IsName(w, q)
    decreases |w| - q
  {
    if w[q] == 0 then [] else [ChosenLabel(LabelAt(w, q))] + ChosenLabels(w, q + 1 + |LabelAt(w, q)|)
  }

  lemma TextCons(l: seq<Quoted>, rest: seq<seq<Quoted>>)
    ensures Text([l] + rest, Bare) == Spell(l) + if rest == [] then [] else [0x2E] + Text(rest, Bare)
  {
    assert ([l] + rest)[1..] == rest;
  }

  /** The first label and the rest. */
  lemma ChosenStep(w: seq<Octet>, q: nat)
    requires IsName(w, q) && w[q] != 0
    ensures
      var o, ls := LabelAt(w, q), ChosenLabels(w, q + 1 + |LabelAt(w, q)|);
      && ChosenLabels(w, q) != [] && (ls == [] <==> w[q + 1 + |o|] == 0)
      && Text(ChosenLabels(w, q), Bare) == LabelText(o) + if ls == [] then [] else [0x2E] + Text(ls, Bare)
  {
    LabelTextIs(LabelAt(w, q));
    TextCons(ChosenLabel(LabelAt(w, q)), ChosenLabels(w, q + 1 + |LabelAt(w, q)|));
  }

  lemma {:induction false} NameTextIs(w: seq<Octet>, q: nat)
    requires IsName(w, q) && w[q] != 0
    ensures ChosenLabels(w, q) != [] && NameText(w, q) == Text(ChosenLabels(w, q), Bare)
    decreases |w| - q
  {
    ChosenStep(w, q);
    var next := q + 1 + |LabelAt(w, q)|;
    if w[next] != 0 { NameTextIs(w, next); }
  }

  /** The text of a name other than the root is its labels spelled so, with dots between them and none at the end. */
  lemma TextIs(w: seq<Octet>)
    requires IsName(w, 0)
    ensures w[0] == 0 ==> TextOf(w) == [0x2E]
    ensures w[0] != 0 ==> ChosenLabels(w, 0) != [] && TextOf(w) == Text(ChosenLabels(w, 0), Bare)
  {
    if w[0] != 0 { NameTextIs(w, 0); }
  }
}
