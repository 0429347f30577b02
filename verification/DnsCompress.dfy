/** ns_name_compress and ns_name_uncompress: text to message and back. */
module DnsCompress {
  import opened Basics
  import opened Octets
  import opened DnsNames
  import opened DnsPacked
  import opened DnsFind
  import opened DnsPack
  import opened DnsUnpack
  import opened DnsText
  import opened DnsTextCode
  import opened DnsSession

  /** Equality up to case keeps the length octets, so it keeps the shape of a name. */
  lemma {:induction false} FoldName(x: seq<Octet>, w: seq<Octet>, q: nat)
    requires IsName(w, q) && EqFold(x, w)
    ensures IsName(x, q)
    decreases |w| - q
  {
    assert MkLower(x[q]) == MkLower(w[q]);
    if w[q] != 0 { FoldName(x, w, q + w[q] + 1); }
  }

  lemma CharFold(a: Octet, b: Octet)
    requires MkLower(a) == MkLower(b)
    ensures EqFold(CharText(a), CharText(b))
  {}

  lemma {:induction false} LabelFold(a: seq<Octet>, b: seq<Octet>)
    requires EqFold(a, b)
    ensures EqFold(LabelText(a), LabelText(b))
    decreases |a|
  {
    if a != [] {
      assert EqFold(a[1..], b[1..]);
      CharFold(a[0], b[0]);
      LabelFold(a[1..], b[1..]);
      EqFoldConcat(CharText(a[0]), LabelText(a[1..]), CharText(b[0]), LabelText(b[1..]));
    }
  }

  lemma LabelsFold(x: seq<Octet>, w: seq<Octet>, q: nat)
    requires IsName(w, q) && IsName(x, q) && EqFold(x, w) && w[q] != 0
    ensures x[q] == w[q] && EqFold(LabelAt(x, q), LabelAt(w, q))
      && EqFold(LabelText(LabelAt(x, q)), LabelText(LabelAt(w, q)))
  {
    WireCons(w, q);
    assert MkLower(x[q]) == MkLower(w[q]);
    LabelFold(LabelAt(x, q), LabelAt(w, q));
  }

  lemma {:induction false} NameFold(x: seq<Octet>, w: seq<Octet>, q: nat)
    requires IsName(w, q) && IsName(x, q) && EqFold(x, w) && w[q] != 0 && x[q] != 0
    ensures EqFold(NameText(x, q), NameText(w, q))
    decreases |w| - q
  {
    LabelsFold(x, w, q);
    var next := q + 1 + |LabelAt(w, q)|;
    assert MkLower(x[next]) == MkLower(w[next]);
    if w[next] != 0 {
      NameFold(x, w, next);
      EqFoldPrefix([DOT], NameText(x, next), NameText(w, next));
    }
    EqFoldConcat(LabelText(LabelAt(x, q)), TailText(x, next), LabelText(LabelAt(w, q)), TailText(w, next));
  }

  /** Names equal up to case have texts equal up to case. */
  lemma TextFold(x: seq<Octet>, w: seq<Octet>)
    requires IsName(w, 0) && EqFold(x, w)
    ensures IsName(x, 0) && EqFold(TextOf(x), TextOf(w))
  {
    FoldName(x, w, 0);
    assert MkLower(x[0]) == MkLower(w[0]);
    if w[0] != 0 { NameFold(x, w, 0); }
  }

  /** A buffer that begins with a name is read as that name, whatever follows. */
  lemma {:induction false} PrefixLegal(b: seq<Octet>, w: seq<Octet>, q: nat)
    requires IsName(w, q) && |w| <= MAX_CD_NAME && w <= b
    ensures Readable(b, q) && LegalEnd(b, q) == Some(|w|)
    ensures Scannable(b, q) && NameEnd(b, q) == Some(|w|)
    decreases |w| - q
  {
    assert b[q] == w[q];
    if w[q] != 0 { PrefixLegal(b, w, q + w[q] + 1); }
  }

  /** ns_name_compress: the name written as text is packed into the message; -1 when it is no name or does not fit. */
  method Compress(src: seq<Octet>, buf: array<Octet>, dst: nat, dstsiz: nat, dnptrs: DnPtrs?, last: int,
      ghost table: seq<nat>)
    returns (r: int)
    requires 0 !in src && Parse(src, 0, [], []) != Unsupported
    requires dst + dstsiz <= buf.Length && TableFor(buf[..dst], table)
    requires if dnptrs == null then table == [] else Holds(dnptrs.slots, table) && last <= |dnptrs.slots|
    modifies buf, dnptrs
    ensures SameOutside(old(buf[..]), buf[..], dst, dst + dstsiz)
    ensures
      match Parse(src, 0, [], [])
      case Parsed(w, qualified) =>
        var m := old(buf[..dst]);
        && IsName(w, 0)
        && if Fits(m, table, w, dstsiz)
           then r == |Compressed(m, table, w)| <= dstsiz && buf[..][dst..dst + r] == Compressed(m, table, w)
             && (dnptrs != null ==> Holds(dnptrs.slots, Extended(m, table, w, dst, last)))
           else r == -1 && (dnptrs != null ==> Holds(dnptrs.slots, table))
      case _ => r == -1
    ensures Parse(src, 0, [], []) == Bad ==>
      buf[..] == old(buf[..]) && (dnptrs != null ==> dnptrs.slots == old(dnptrs.slots))
  {
    var tmp := new Octet[MAX_CD_NAME];
    ghost var goal := Parse(src, 0, [], []);
    var n := Pton(src, tmp, MAX_CD_NAME);
    if goal.Parsed? { ParseLimits(src, 0, [], []); }
    if n == -1 { return -1; }
    PrefixLegal(tmp[..], goal.wire, 0);
    assert tmp[..][..|goal.wire|] == goal.wire;
    r := Pack(tmp[..], buf, dst, dstsiz, dnptrs, last, table);
  }

  /** ns_name_uncompress: the text of the name at `src`, and the octets it takes there. */
  method Uncompress(msg: seq<Octet>, src: nat, dst: array<Octet>, dstsiz: nat) returns (r: int)
    requires dstsiz <= dst.Length
    requires src < |msg| && Passes(msg, src, MAX_CD_NAME, 0) ==>
      Denotes(msg, src, |msg|) && IsName(Wire(msg, src, |msg|), 0)
    modifies dst
    ensures
      if src < |msg| && Passes(msg, src, MAX_CD_NAME, 0) && |TextOf(Wire(msg, src, |msg|))| + 1 <= dstsiz
      then
        var text := TextOf(Wire(msg, src, |msg|)) + [0];
        r == OwnLength(msg, src) && dst[..|text|] == text
      else r == -1
  {
    var tmp := new Octet[MAX_CD_NAME];
    var n := Unpack(msg, src, tmp, MAX_CD_NAME);
    if n == -1 { return -1; }
    ghost var w := Wire(msg, src, |msg|);
    assert tmp[..][..|w|] == w;
    PrefixLegal(tmp[..], w, 0);
    var k := Ntop(tmp[..], dst, dstsiz);
    if k == -1 { return -1; }
    return n;
  }

  /**
   From text to message and back: a name compressed into a message in any run reads back, from
   the message or any continuation of it, as a text equal up to case to the canonical text of
   the name, which itself is read as that name again.
   */
  lemma EndToEnd(events: seq<Event>, end: Session, more: seq<Octet>, n: Placed, text: seq<Octet>)
    requires Run(Session([], [], true, []), events, end) && n in end.names
    requires Parse(text, 0, [], []).Parsed? && n.name == Parse(text, 0, [], []).wire
    ensures
      var whole := end.m + more;
      && IsName(n.name, 0) && |n.name| <= MAX_CD_NAME && Denotes(whole, n.start, |whole|)
      && IsName(Wire(whole, n.start, |whole|), 0)
      && EqFold(TextOf(Wire(whole, n.start, |whole|)), TextOf(n.name))
      && Parse(TextOf(n.name), 0, [], []) == Parsed(n.name, n.name == [0])
  {
    ParseLimits(text, 0, [], []);
    RoundTrip(events, end, more, n);
    TextFold(Wire(end.m + more, n.start, |end.m + more|), n.name);
    TextRoundTrip(n.name);
  }
}
