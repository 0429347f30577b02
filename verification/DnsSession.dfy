/**
 A whole message written with ns_name_pack: names sharing one table, other octets between them,
 failed packs and roll-backs. Every name packed can be unpacked again.
 */
module DnsSession {
  import opened Basics
  import opened Octets
  import opened DnsNames
  import opened DnsPacked
  import opened DnsFind
  import opened DnsPack
  import opened DnsUnpack

  /** The message `m` once `w` has been packed at its end. */
  ghost function After(m: seq<Octet>, table: seq<nat>, w: seq<Octet>): seq<Octet>
    requires IsName(w, 0)
  {
    m + Compressed(m, table, w)
  }

  /** At `p`, in a run that began at `base`, the message `a` ends in a packed form of `w[q..]`. */
  ghost predicate ReadsBack(a: seq<Octet>, base: nat, p: nat, w: seq<Octet>, q: nat)
  {
    && base <= p && q <= |w| && Packed(a, base, p) && EqFold(Name(a, base, p), w[q..])
    && p + OwnLength(a, p) == |a|
  }

  lemma NameStep(a: seq<Octet>, base: nat, p: nat, n: nat)
    requires base <= p && At(a, p) == Label(n) && a[p] < 0x40 && Packed(a, base, p + n)
    ensures Packed(a, base, p) && Name(a, base, p) == a[p..p + n] + Name(a, base, p + n)
    ensures OwnLength(a, p) == n + OwnLength(a, p + n)
  {}

  lemma ReadsBackLabel(a: seq<Octet>, base: nat, p: nat, w: seq<Octet>, q: nat, n: nat)
    requires base <= p && IsName(w, q) && w[q] != 0 && n == w[q] + 1
    requires At(a, p) == Label(n) && q + n <= |w| && a[p..p + n] == w[q..q + n] && a[p] == w[q]
    requires ReadsBack(a, base, p + n, w, q + n)
    ensures ReadsBack(a, base, p, w, q)
  {
    NameStep(a, base, p, n);
    EqFoldPrefix(w[q..q + n], Name(a, base, p + n), w[q + n..]);
    assert w[q..] == w[q..q + n] + w[q + n..];
  }

  lemma ReadsBackPointer(a: seq<Octet>, base: nat, p: nat, w: seq<Octet>, q: nat, l: nat)
    requires base <= p && base <= |a| && At(a, p) == Pointer(l) && Matches(a[..base], l, w, q) && |a| == p + 2
    ensures ReadsBack(a, base, p, w, q)
  {}

  lemma ReadsBackRoot(a: seq<Octet>, base: nat, p: nat, w: seq<Octet>, q: nat)
    requires base <= p && At(a, p).Root? && IsName(w, q) && w[q] == 0 && |a| == p + 1
    ensures ReadsBack(a, base, p, w, q)
  {
    assert w[q..] == [0];
  }

  /** From the label at `q` of `w`, walking labels reaches position `e`. */
  ghost predicate Reaches(w: seq<Octet>, q: nat, e: nat)
    decreases |w| - q
  {
    q < |w| && (q == e || (q < e && w[q] != 0 && Reaches(w, q + w[q] + 1, e)))
  }

  lemma {:induction false} StopReached(m: seq<Octet>, table: seq<nat>, w: seq<Octet>, q: nat)
    requires IsName(w, q)
    ensures Reaches(w, q, Stop(m, table, w, q))
    decreases |w| - q
  {
    if w[q] != 0 && FindFrom(m, table, 0, w, q).None? { StopReached(m, table, w, q + w[q] + 1); }
  }

  /** The octets of `w` from `q` to `e` stand in `a` at the same distance from `base`. */
  ghost predicate Same(a: seq<Octet>, base: nat, w: seq<Octet>, q: nat, e: nat)
  {
    q <= e < |w| && base + e < |a| && forall i :: q <= i < e ==> w[i] == a[base + i]
  }

  /** Labels copied from `w` read back as `w` does, when what follows them reads back. */
  lemma {:induction false} CopiedReadsBack(a: seq<Octet>, base: nat, w: seq<Octet>, q: nat, e: nat)
    requires IsName(w, q) && Reaches(w, q, e) && Same(a, base, w, q, e)
    requires ReadsBack(a, base, base + e, w, e)
    ensures ReadsBack(a, base, base + q, w, q)
    decreases |w| - q
  {
    if q < e {
      var n := w[q] + 1;
      LabelCopied(a, base, w, q, n, e);
      CopiedReadsBack(a, base, w, q + n, e);
      ReadsBackLabel(a, base, base + q, w, q, n);
    }
  }

  lemma LabelCopied(a: seq<Octet>, base: nat, w: seq<Octet>, q: nat, n: nat, e: nat)
    requires IsName(w, q) && w[q] != 0 && n == w[q] + 1 && Reaches(w, q, e) && q < e && Same(a, base, w, q, e)
    ensures q + n <= e && IsName(w, q + n) && Reaches(w, q + n, e) && Same(a, base, w, q + n, e)
    ensures At(a, base + q) == Label(n) && a[base + q..base + q + n] == w[q..q + n] && a[base + q] == w[q]
  {
    WireCons(w, q);
  }

  lemma AppendParts(m: seq<Octet>, w: seq<Octet>, e: nat, t: seq<Octet>)
    requires e < |w| && 1 <= |t| <= 2
    ensures
      var a := m + (w[..e] + t);
      a[..|m|] == m && Same(a, |m|, w, 0, e) && a[|m| + e] == t[0] && a[|m| + e + (|t| - 1)] == t[|t| - 1]
  {}

  /** The octets after the message `m`: `w` copied up to `e`, then the root or a pointer. */
  ghost predicate LaidOut(a: seq<Octet>, m: seq<Octet>, table: seq<nat>, w: seq<Octet>, e: nat)
  {
    && IsName(w, e) && |m| <= |a| && a[..|m|] == m && Same(a, |m|, w, 0, e)
    && if w[e] == 0 then |a| == |m| + e + 1 && a[|m| + e] == 0
       else
         match FindFrom(m, table, 0, w, e)
         case None => false
         case Some(l) =>
           l < MAX_OFFSET && |a| == |m| + e + 2 && a[|m| + e] == 0xC0 + l / 256 && a[|m| + e + 1] == l % 256
  }

  lemma AfterLaidOut(m: seq<Octet>, table: seq<nat>, w: seq<Octet>)
    requires IsName(w, 0)
    ensures LaidOut(After(m, table, w), m, table, w, Stop(m, table, w, 0))
  {
    var e := Stop(m, table, w, 0);
    if w[e] == 0 {
      AppendParts(m, w, e, [0]);
    } else {
      AppendParts(m, w, e, PointerTo(FindFrom(m, table, 0, w, e).value));
    }
  }

  lemma TailReadsBack(a: seq<Octet>, m: seq<Octet>, table: seq<nat>, w: seq<Octet>, e: nat)
    requires LaidOut(a, m, table, w, e)
    ensures ReadsBack(a, |m|, |m| + e, w, e)
  {
    if w[e] == 0 {
      ReadsBackRoot(a, |m|, |m| + e, w, e);
    } else {
      var l := FindFrom(m, table, 0, w, e).value;
      assert Matches(a[..|m|], l, w, e);
      assert At(a, |m| + e) == Pointer(l);
      ReadsBackPointer(a, |m|, |m| + e, w, e, l);
    }
  }

  /** What is packed reads back as the name, up to case, and takes exactly the octets written. */
  lemma PackedOutput(m: seq<Octet>, table: seq<nat>, w: seq<Octet>)
    requires IsName(w, 0)
    ensures ReadsBack(After(m, table, w), |m|, |m|, w, 0)
  {
    AfterLaidOut(m, table, w);
    StopReached(m, table, w, 0);
    LaidOutReadsBack(After(m, table, w), m, table, w, Stop(m, table, w, 0));
  }

  lemma LaidOutReadsBack(a: seq<Octet>, m: seq<Octet>, table: seq<nat>, w: seq<Octet>, e: nat)
    requires IsName(w, 0) && Reaches(w, 0, e) && LaidOut(a, m, table, w, e)
    ensures ReadsBack(a, |m|, |m|, w, 0)
  {
    TailReadsBack(a, m, table, w, e);
    CopiedReadsBack(a, |m|, w, 0, e);
  }

  // ----- how far a name is compressed -----

  /** The suffix of `w` at `q` stands in the message where a pointer can lead. */
  ghost predicate Reusable(m: seq<Octet>, table: seq<nat>, w: seq<Octet>, q: nat)
  {
    exists p: nat :: Pointable(m, table, p) && Matches(m, p, w, q)
  }

  lemma {:induction false} NoneBefore(m: seq<Octet>, table: seq<nat>, w: seq<Octet>, from: nat, q: nat)
    requires IsName(w, from) && Reaches(w, from, q) && from <= q < Stop(m, table, w, from)
    ensures !Reusable(m, table, w, q)
    decreases |w| - from
  {
    FindIff(m, table, w, from);
    if q != from { NoneBefore(m, table, w, from + w[from] + 1, q); }
  }

  /**
   The labels of a name are written up to the first whose suffix can be pointed to, `e`, and then a
   pointer to such a place; without one, the whole name is. It fits when its octets do, after the root
   with one to spare.
   */
  lemma ShortestForm(m: seq<Octet>, table: seq<nat>, w: seq<Octet>, room: int) returns (e: nat, p: nat)
    requires IsName(w, 0)
    ensures e < |w| && Reaches(w, 0, e) && (w[e] == 0 || Reusable(m, table, w, e))
    ensures forall q: nat :: q < e && Reaches(w, 0, q) ==> !Reusable(m, table, w, q)
    ensures
      var c := Compressed(m, table, w);
      if w[e] == 0 then c == w && (Fits(m, table, w, room) <==> |w| + 1 <= room)
      else
        && Pointable(m, table, p) && Matches(m, p, w, e) && c == w[..e] + [0xC0 + p / 256, p % 256]
        && (Fits(m, table, w, room) <==> e + 2 <= room)
  {
    e, p := Stop(m, table, w, 0), 0;
    StopReached(m, table, w, 0);
    forall q: nat | q < e && Reaches(w, 0, q) ensures !Reusable(m, table, w, q) { NoneBefore(m, table, w, 0, q); }
    FindIff(m, table, w, e);
    if w[e] == 0 {
      NameEnds(w, e);
      assert w == w[..e] + [0];
    } else {
      p := FindFrom(m, table, 0, w, e).value;
      var k := FindFirst(m, table, 0, w, e);
      assert Pointable(m, table, p);
    }
  }

  lemma NameEnds(w: seq<Octet>, e: nat)
    requires IsName(w, e) && w[e] == 0
    ensures e + 1 == |w|
  {
  }

  /** A name joins the table exactly when not even its first label could be pointed to, and there is room for it. */
  lemma TableGrows(m: seq<Octet>, table: seq<nat>, w: seq<Octet>, dst: nat, last: int)
    requires IsName(w, 0)
    ensures Extended(m, table, w, dst, last) ==
      if w[0] != 0 && !Reusable(m, table, w, 0) && |table| + 2 < last && dst < 0x4000 then table + [dst] else table
  {
    FindIff(m, table, w, 0);
  }

  /** A name packed into the message: where it starts, how many octets it took, and its uncompressed form. */
  datatype Placed = Placed(start: nat, size: nat, name: seq<Octet>)

  /** A message being written; `usable` is false once the table has been rolled back to nothing. */
  datatype Session = Session(m: seq<Octet>, table: seq<nat>, usable: bool, names: seq<Placed>)

  /** What the writer of the message does next; `last` is where the table's array ends for this call. */
  datatype Event = PackName(src: seq<Octet>, room: nat, last: int) | Append(octets: seq<Octet>)
    | Patch(at: nat, octet: Octet) | Rollback(to: nat)

  /** No name occupies the octet at `o`. */
  ghost predicate FreeAt(names: seq<Placed>, o: int)
  {
    forall n :: n in names ==> o < n.start || n.start + n.size <= o
  }

  /** The table without its first entry at or after `to` and all that follow. */
  ghost function Cut(table: seq<nat>, to: nat): seq<nat>
  {
    if table == [] || table[0] >= to then [] else [table[0]] + Cut(table[1..], to)
  }

  /** A roll-back leaves the entries up to the first that is not before `to`, and no more. */
  lemma {:induction false} CutIs(table: seq<nat>, to: nat)
    ensures Cut(table, to) <= table && (forall i :: 0 <= i < |Cut(table, to)| ==> table[i] < to)
    ensures |Cut(table, to)| < |table| ==> table[|Cut(table, to)|] >= to
    decreases |table|
  {
    if table != [] && table[0] < to {
      CutIs(table[1..], to);
      assert table == [table[0]] + table[1..];
    }
  }

  /** The names that end at or before `to`. */
  ghost function Kept(names: seq<Placed>, to: nat): seq<Placed>
  {
    if names == [] then []
    else (if names[0].start + names[0].size <= to then [names[0]] else []) + Kept(names[1..], to)
  }

  /**
   An event the writer may take: names it packs are readable, no name is overwritten, and a
   roll-back does not cut one in two.
   */
  ghost predicate Allowed(s: Session, e: Event)
  {
    match e
    case PackName(src, room, last) => Readable(src, 0)
    case Append(octets) => true
    case Patch(at, octet) => at < |s.m| && FreeAt(s.names, at)
    case Rollback(to) => to <= |s.m| && forall n :: n in s.names ==> n.start >= to || n.start + n.size <= to
  }

  /** The state after an event. */
  ghost function Next(s: Session, e: Event): Session
    requires Allowed(s, e)
  {
    match e
    case PackName(src, room, last) =>
      var end := LegalEnd(src, 0);
      if end.None? || !Fits(s.m, s.table, src[..end.value], room) then s
      else
        var w := src[..end.value];
        Session(After(s.m, s.table, w), if s.usable then Extended(s.m, s.table, w, |s.m|, last) else s.table, s.usable,
                s.names + [Placed(|s.m|, |Compressed(s.m, s.table, w)|, w)])
    case Append(octets) => s.(m := s.m + octets)
    case Patch(at, octet) => s.(m := s.m[at := octet])
    case Rollback(to) => Session(s.m[..to], Cut(s.table, to), s.usable && to > 0, Kept(s.names, to))
  }

  /** The name stands in the message, packed, equal up to case, in exactly its octets. */
  ghost predicate Stands(m: seq<Octet>, n: Placed)
  {
    && n.start + n.size <= |m| && |n.name| <= MAX_CD_NAME
    && ReadsBack(m[..n.start + n.size], n.start, n.start, n.name, 0)
  }

  ghost predicate Listed(names: seq<Placed>, start: nat)
  {
    exists k :: 0 <= k < |names| && names[k].start == start
  }

  /** The messages agree on every octet that a name occupies. */
  ghost predicate Agree(m: seq<Octet>, m2: seq<Octet>, names: seq<Placed>)
  {
    |m2| == |m| && forall o :: 0 <= o < |m| ==> m2[o] == m[o] || FreeAt(names, o)
  }

  /** The name stands in the message, whatever the octets are that no name occupies. */
  ghost predicate Sturdy(m: seq<Octet>, names: seq<Placed>, n: Placed)
  {
    forall m2 :: Agree(m, m2, names) ==> Stands(m2, n)
  }

  ghost predicate Inv(s: Session)
  {
    && (forall n :: n in s.names ==> Sturdy(s.m, s.names, n))
    && (forall i :: 0 <= i < |s.table| ==> Listed(s.names, s.table[i]))
    && (!s.usable ==> s.table == [])
  }

  /** A session that only ever did allowed events. */
  ghost predicate Run(s: Session, events: seq<Event>, end: Session)
    decreases |events|
  {
    if events == [] then s == end
    else Allowed(s, events[0]) && Run(Next(s, events[0]), events[1..], end)
  }

  lemma StandsExtend(m: seq<Octet>, m2: seq<Octet>, n: Placed)
    requires Stands(m, n) && n.start + n.size <= |m2|
    requires m[..n.start + n.size] == m2[..n.start + n.size]
    ensures Stands(m2, n)
  {}

  lemma InvStands(s: Session, n: Placed)
    requires Inv(s) && n in s.names
    ensures Stands(s.m, n)
  {
    assert Agree(s.m, s.m, s.names);
  }

  lemma InvTable(s: Session)
    requires Inv(s)
    ensures TableFor(s.m, s.table)
  {
    forall i | 0 <= i < |s.table| ensures s.table[i] < |s.m| && Packed(s.m, s.table[i], s.table[i]) {
      var k :| 0 <= k < |s.names| && s.names[k].start == s.table[i];
      InvStands(s, s.names[k]);
      StandsWhole(s.m, s.names[k]);
    }
  }

  /** The name in the whole message. */
  lemma StandsWhole(m: seq<Octet>, n: Placed)
    requires Stands(m, n)
    ensures n.start < |m| && Packed(m, n.start, n.start) && EqFold(Name(m, n.start, n.start), n.name)
    ensures n.start + OwnLength(m, n.start) == n.start + n.size
  {
    var part := m[..n.start + n.size];
    assert n.name[0..] == n.name;
    PackedExtend(part, m, n.start, n.start);
    OwnLengthExtend(part, m, n.start, n.start);
  }

  lemma PackedStands(m: seq<Octet>, table: seq<nat>, w: seq<Octet>)
    requires IsName(w, 0) && |w| <= MAX_CD_NAME
    ensures Stands(After(m, table, w), Placed(|m|, |Compressed(m, table, w)|, w))
  {
    var a := After(m, table, w);
    PackedOutput(m, table, w);
    assert a[..|m| + |Compressed(m, table, w)|] == a;
  }

  // ----- the search sees only octets that names occupy -----

  lemma FoldBoth(a: seq<Octet>, b: seq<Octet>, c: seq<Octet>)
    requires EqFold(a, b)
    ensures EqFold(a, c) <==> EqFold(b, c)
  {
    if EqFold(a, c) { assert forall i :: 0 <= i < |b| ==> MkLower(a[i]) == MkLower(b[i]) == MkLower(c[i]); }
    if EqFold(b, c) { assert forall i :: 0 <= i < |b| ==> MkLower(a[i]) == MkLower(b[i]) == MkLower(c[i]); }
  }

  /** The own octets of the name at `p` are the same in both messages. */
  ghost predicate SameRun(m: seq<Octet>, x: seq<Octet>, p: nat)
  {
    |x| == |m| && p + OwnLength(m, p) <= |m| && forall o :: p <= o < p + OwnLength(m, p) ==> x[o] == m[o]
  }

  /** Both messages hold a name at `p` of the run begun at `start`, with the same own octets and equal up to case. */
  ghost predicate AreTwins(m: seq<Octet>, x: seq<Octet>, start: nat, p: nat)
  {
    && start <= p < |m| && Packed(m, start, p) && Packed(x, start, p) && EqFold(Name(m, start, p), Name(x, start, p))
    && SameRun(m, x, p)
  }

  /** The same as one fact. */
  ghost predicate Twins(m: seq<Octet>, x: seq<Octet>, start: nat, p: nat)
  {
    var twins := AreTwins(m, x, start, p);
    twins
  }

  lemma TwinsNext(m: seq<Octet>, x: seq<Octet>, start: nat, p: nat)
    requires Twins(m, x, start, p) && 1 <= m[p] < 0x40
    ensures x[p] == m[p] && Twins(m, x, start, p + m[p] + 1)
  {
    var n := m[p] + 1;
    assert x[p] == m[p];
    PackedLabel(m, start, p);
    PackedLabel(x, start, p);
    EqFoldConcat(m[p..p + n], Name(m, start, p + n), x[p..p + n], Name(x, start, p + n));
  }

  lemma MatchSame(m: seq<Octet>, x: seq<Octet>, start: nat, p: nat, w: seq<Octet>, q: nat)
    requires Twins(m, x, start, p) && x[p] == m[p] && 1 <= m[p] < 0x40
    ensures Matches(m, p, w, q) <==> Matches(x, p, w, q)
  {
    PackedSuffix(m, start, p, p);
    PackedSuffix(x, start, p, p);
    if q <= |w| { FoldBoth(Name(m, p, p), Name(x, p, p), w[q..]); }
  }

  lemma {:induction false} FindInRunSame(m: seq<Octet>, x: seq<Octet>, start: nat, p: nat, w: seq<Octet>, q: nat)
    requires Twins(m, x, start, p)
    ensures FindInRun(m, p, w, q) == FindInRun(x, p, w, q)
    decreases |m| - p
  {
    assert x[p] == m[p];
    if 1 <= m[p] < 0x40 && p < MAX_OFFSET {
      MatchSame(m, x, start, p, w, q);
      TwinsNext(m, x, start, p);
      FindInRunSame(m, x, start, p + m[p] + 1, w, q);
    }
  }

  lemma StandTwins(s: Session, x: seq<Octet>, n: Placed)
    requires Inv(s) && Agree(s.m, x, s.names) && n in s.names
    ensures Twins(s.m, x, n.start, n.start)
  {
    InvStands(s, n);
    assert Stands(x, n);
    StandsWhole(s.m, n);
    StandsWhole(x, n);
    FoldBoth(Name(s.m, n.start, n.start), n.name, Name(x, n.start, n.start));
    forall o | n.start <= o < n.start + n.size ensures x[o] == s.m[o] { assert !FreeAt(s.names, o); }
  }

  lemma EntriesTwins(s: Session, x: seq<Octet>)
    requires Inv(s) && Agree(s.m, x, s.names)
    ensures forall i :: 0 <= i < |s.table| ==> Twins(s.m, x, s.table[i], s.table[i])
  {
    forall i | 0 <= i < |s.table| ensures Twins(s.m, x, s.table[i], s.table[i]) {
      var k :| 0 <= k < |s.names| && s.names[k].start == s.table[i];
      StandTwins(s, x, s.names[k]);
    }
  }

  lemma {:induction false} FindFromSame(m: seq<Octet>, x: seq<Octet>, table: seq<nat>, i: nat, w: seq<Octet>, q: nat)
    requires forall k :: 0 <= k < |table| ==> Twins(m, x, table[k], table[k])
    ensures FindFrom(m, table, i, w, q) == FindFrom(x, table, i, w, q)
    decreases |table| - i
  {
    if i < |table| {
      FindInRunSame(m, x, table[i], table[i], w, q);
      FindFromSame(m, x, table, i + 1, w, q);
    }
  }

  lemma {:induction false} StopSame(m: seq<Octet>, x: seq<Octet>, table: seq<nat>, w: seq<Octet>, q: nat)
    requires (forall k :: 0 <= k < |table| ==> Twins(m, x, table[k], table[k])) && IsName(w, q)
    ensures Stop(m, table, w, q) == Stop(x, table, w, q)
    decreases |w| - q
  {
    FindFromSame(m, x, table, 0, w, q);
    if w[q] != 0 && FindFrom(m, table, 0, w, q).None? { StopSame(m, x, table, w, q + w[q] + 1); }
  }

  /** The octets written for a name depend only on octets that names occupy. */
  lemma CompressedSame(s: Session, x: seq<Octet>, w: seq<Octet>)
    requires Inv(s) && Agree(s.m, x, s.names) && IsName(w, 0)
    ensures Compressed(x, s.table, w) == Compressed(s.m, s.table, w)
  {
    EntriesTwins(s, x);
    StopSame(s.m, x, s.table, w, 0);
    FindFromSame(s.m, x, s.table, 0, w, Stop(s.m, s.table, w, 0));
  }

  /** The new name stands, and the others do, whatever the octets are that none of them occupies. */
  lemma PackSturdy(s: Session, w: seq<Octet>, n: Placed)
    requires Inv(s) && IsName(w, 0) && |w| <= MAX_CD_NAME
    requires
      var n' := Placed(|s.m|, |Compressed(s.m, s.table, w)|, w);
      n in s.names + [n']
    ensures
      var n' := Placed(|s.m|, |Compressed(s.m, s.table, w)|, w);
      Sturdy(After(s.m, s.table, w), s.names + [n'], n)
  {
    var c := Compressed(s.m, s.table, w);
    var n', m' := Placed(|s.m|, |c|, w), s.m + c;
    var names' := s.names + [n'];
    forall m2 | Agree(m', m2, names') ensures Stands(m2, n) {
      var x := m2[..|s.m|];
      AgreeParts(s.m, c, m2, s.names, n');
      if n == n' {
        CompressedSame(s, x, w);
        PackedStands(x, s.table, w);
        assert After(x, s.table, w) == m2;
      } else {
        assert Stands(x, n);
        assert x[..n.start + n.size] == m2[..n.start + n.size];
        StandsExtend(x, m2, n);
      }
    }
  }

  lemma AgreeParts(m: seq<Octet>, c: seq<Octet>, m2: seq<Octet>, names: seq<Placed>, n': Placed)
    requires n'.start == |m| && n'.size == |c| && Agree(m + c, m2, names + [n'])
    ensures Agree(m, m2[..|m|], names) && m2 == m2[..|m|] + c
  {
    var all := names + [n'];
    assert n' in all;
    forall o | 0 <= o < |m| ensures m2[o] == m[o] || FreeAt(names, o) {
      assert (m + c)[o] == m[o];
      if FreeAt(all, o) {
        forall n | n in names ensures o < n.start || n.start + n.size <= o { assert n in all; }
      }
    }
    forall o | |m| <= o < |m| + |c| ensures m2[o] == c[o - |m|] {
      assert !FreeAt(all, o);
      assert (m + c)[o] == c[o - |m|];
    }
  }

  lemma PackKeeps(s: Session, src: seq<Octet>, room: nat, last: int)
    requires Inv(s) && Readable(src, 0)
    ensures Inv(Next(s, PackName(src, room, last)))
  {
    var end := LegalEnd(src, 0);
    if end.Some? && Fits(s.m, s.table, src[..end.value], room) {
      var w := src[..end.value];
      var n' := Placed(|s.m|, |Compressed(s.m, s.table, w)|, w);
      forall n | n in s.names + [n'] ensures Sturdy(After(s.m, s.table, w), s.names + [n'], n) { PackSturdy(s, w, n); }
      ListedMore(s.names, n', s.table);
      assert Listed(s.names + [n'], |s.m|) by { assert (s.names + [n'])[|s.names|].start == |s.m|; }
    }
  }

  lemma ListedMore(names: seq<Placed>, n: Placed, table: seq<nat>)
    requires forall i :: 0 <= i < |table| ==> Listed(names, table[i])
    ensures forall i :: 0 <= i < |table| ==> Listed(names + [n], table[i])
  {
    forall i | 0 <= i < |table| ensures Listed(names + [n], table[i]) {
      var k :| 0 <= k < |names| && names[k].start == table[i];
      assert (names + [n])[k].start == table[i];
    }
  }

  lemma {:induction false} CutEntries(table: seq<nat>, to: nat)
    ensures forall i :: 0 <= i < |Cut(table, to)| ==> Cut(table, to)[i] < to && Cut(table, to)[i] in table
  {
    if table != [] && table[0] < to { CutEntries(table[1..], to); }
  }

  lemma {:induction false} KeptNames(names: seq<Placed>, to: nat)
    ensures forall n :: n in Kept(names, to) <==> n in names && n.start + n.size <= to
  {
    if names != [] { KeptNames(names[1..], to); }
  }

  lemma RollbackKeeps(s: Session, to: nat)
    requires Inv(s) && Allowed(s, Rollback(to))
    ensures Inv(Next(s, Rollback(to)))
  {
    var s' := Next(s, Rollback(to));
    KeptNames(s.names, to);
    CutEntries(s.table, to);
    forall n | n in s'.names ensures Sturdy(s'.m, s'.names, n) { RollbackSturdy(s, to, n); }
    forall i | 0 <= i < |s'.table| ensures Listed(s'.names, s'.table[i]) {
      var j :| 0 <= j < |s.table| && s.table[j] == s'.table[i];
      var k :| 0 <= k < |s.names| && s.names[k].start == s.table[j];
      InvStands(s, s.names[k]);
      assert s.names[k] in s'.names;
      var k' :| 0 <= k' < |s'.names| && s'.names[k'] == s.names[k];
    }
    assert to == 0 ==> s'.table == [];
  }

  lemma RollbackSturdy(s: Session, to: nat, n: Placed)
    requires Inv(s) && Allowed(s, Rollback(to)) && n in Kept(s.names, to)
    ensures Sturdy(s.m[..to], Kept(s.names, to), n)
  {
    KeptNames(s.names, to);
    forall m2 | Agree(s.m[..to], m2, Kept(s.names, to)) ensures Stands(m2, n) {
      var whole := m2 + s.m[to..];
      forall o | 0 <= o < |s.m| ensures whole[o] == s.m[o] || FreeAt(s.names, o) {
        if o < to && FreeAt(Kept(s.names, to), o) {
          forall k | k in s.names ensures o < k.start || k.start + k.size <= o {}
        }
      }
      assert Agree(s.m, whole, s.names);
      assert whole[..n.start + n.size] == m2[..n.start + n.size];
      StandsExtend(whole, m2, n);
    }
  }

  lemma AppendSturdy(s: Session, octets: seq<Octet>, n: Placed)
    requires Inv(s) && n in s.names
    ensures Sturdy(s.m + octets, s.names, n)
  {
    forall m2 | Agree(s.m + octets, m2, s.names) ensures Stands(m2, n) {
      var x := m2[..|s.m|];
      assert Agree(s.m, x, s.names) by {
        forall o | 0 <= o < |s.m| ensures x[o] == s.m[o] || FreeAt(s.names, o) { assert (s.m + octets)[o] == s.m[o]; }
      }
      assert x[..n.start + n.size] == m2[..n.start + n.size];
      StandsExtend(x, m2, n);
    }
  }

  lemma PatchSturdy(s: Session, at: nat, octet: Octet, n: Placed)
    requires Inv(s) && n in s.names && at < |s.m| && FreeAt(s.names, at)
    ensures Sturdy(s.m[at := octet], s.names, n)
  {
    forall m2 | Agree(s.m[at := octet], m2, s.names) ensures Stands(m2, n) {
      assert Agree(s.m, m2, s.names);
    }
  }

  lemma StepKeeps(s: Session, e: Event)
    requires Inv(s) && Allowed(s, e)
    ensures Inv(Next(s, e))
  {
    match e
    case PackName(src, room, last) => PackKeeps(s, src, room, last);
    case Rollback(to) => RollbackKeeps(s, to);
    case Append(octets) =>
      forall n | n in s.names
        ensures Sturdy(s.m + octets, s.names, n)
      {
        AppendSturdy(s, octets, n);
      }
    case Patch(at, octet) =>
      forall n | n in s.names
        ensures Sturdy(s.m[at := octet], s.names, n)
      {
        PatchSturdy(s, at, octet, n);
      }
  }

  lemma {:induction false} RunKeeps(s: Session, events: seq<Event>, end: Session)
    requires Inv(s) && Run(s, events, end)
    ensures Inv(end)
    decreases |events|
  {
    if events != [] {
      StepKeeps(s, events[0]);
      RunKeeps(Next(s, events[0]), events[1..], end);
    }
  }

  lemma {:induction false} OwnLengthExtend(m: seq<Octet>, m2: seq<Octet>, start: nat, p: nat)
    requires start <= p && m <= m2 && Packed(m, start, p)
    ensures OwnLength(m2, p) == OwnLength(m, p)
    decreases |m| - p
  {
    AtExtend(m, m2, p);
    if At(m, p).Label? { OwnLengthExtend(m, m2, start, p + At(m, p).size); }
  }

  /** A name that stands in the message is unpacked from any message that continues it. */
  lemma StandsUnpacks(m: seq<Octet>, more: seq<Octet>, n: Placed)
    requires Stands(m, n)
    ensures
      var whole := m + more;
      && Passes(whole, n.start, MAX_CD_NAME, 0) && Denotes(whole, n.start, |whole|)
      && EqFold(Wire(whole, n.start, |whole|), n.name) && OwnLength(whole, n.start) == n.size
  {
    var whole, end := m + more, n.start + n.size;
    assert whole[..end] == m[..end];
    assert n.name[0..] == n.name;
    PackedDenotes(m[..end], n.start, n.start);
    NestedUnpacks(whole, end, n.start, MAX_CD_NAME);
    OwnLengthExtend(m[..end], whole, n.start, n.start);
  }

  /**
   The compression round trip: after any run of packs, failed packs, other octets appended or
   patched where no name is, and roll-backs, ns_name_unpack at the start of every name still in the message succeeds,
   consumes exactly the octets ns_name_pack returned, and yields that name up to ASCII case,
   whatever the writer appends afterwards.
   */
  lemma RoundTrip(events: seq<Event>, end: Session, more: seq<Octet>, n: Placed)
    requires Run(Session([], [], true, []), events, end) && n in end.names
    ensures
      var whole := end.m + more;
      && Passes(whole, n.start, MAX_CD_NAME, 0) && Denotes(whole, n.start, |whole|)
      && EqFold(Wire(whole, n.start, |whole|), n.name) && OwnLength(whole, n.start) == n.size
  {
    RunKeeps(Session([], [], true, []), events, end);
    InvStands(end, n);
    StandsUnpacks(end.m, more, n);
  }

  /** ns_name_pack takes the message from one state of the session to the next. */
  method PackNext(ghost s: Session, src: seq<Octet>, buf: array<Octet>, dst: nat, room: nat, dnptrs: DnPtrs?, last: int)
    returns (r: int, ghost s': Session)
    requires Inv(s) && Readable(src, 0) && dst + room <= buf.Length && buf[..dst] == s.m
    requires s.usable == (dnptrs != null)
    requires dnptrs != null ==> Holds(dnptrs.slots, s.table) && last <= |dnptrs.slots|
    modifies buf, dnptrs
    ensures s' == Next(s, PackName(src, room, last)) && |s'.m| <= buf.Length && buf[..][..|s'.m|] == s'.m
    ensures dnptrs != null ==> Holds(dnptrs.slots, s'.table)
    ensures r == (if s'.names == s.names then -1 else |s'.m| - |s.m|)
    ensures r >= 0 ==> s'.names == s.names + [Placed(dst, r, src[..LegalEnd(src, 0).value])]
  {
    InvTable(s);
    ghost var was := buf[..];
    r := Pack(src, buf, dst, room, dnptrs, last, s.table);
    s' := Next(s, PackName(src, room, last));
    PrefixKept(was, buf[..], dst, dst + room);
    if r >= 0 { PrefixGrown(buf[..], dst, r); }
  }

  lemma PrefixKept(was: seq<Octet>, now: seq<Octet>, lo: nat, hi: nat)
    requires SameOutside(was, now, lo, hi)
    ensures now[..lo] == was[..lo]
  {}

  lemma PrefixGrown(b: seq<Octet>, lo: nat, n: nat)
    requires lo + n <= |b|
    ensures b[..lo + n] == b[..lo] + b[lo..lo + n]
  {}

  lemma {:induction false} CutAt(table: seq<nat>, to: nat, i: nat)
    requires i < |table| && table[i] >= to && forall j :: 0 <= j < i ==> table[j] < to
    ensures Cut(table, to) == table[..i]
  {
    if i > 0 { CutAt(table[1..], to, i - 1); }
  }

  lemma {:induction false} CutNothing(table: seq<nat>, to: nat)
    requires forall j :: 0 <= j < |table| ==> table[j] < to
    ensures Cut(table, to) == table
  {
    if table != [] { CutNothing(table[1..], to); }
  }

  /** ns_name_rollback: no entry at or after `src` is left; the message itself goes when `src` is its start. */
  method RollbackTable(dnptrs: DnPtrs, src: nat, last: int, ghost table: seq<nat>)
    requires Holds(dnptrs.slots, table) && |table| + 1 < last <= |dnptrs.slots|
    modifies dnptrs
    ensures |dnptrs.slots| == |old(dnptrs.slots)|
    ensures if src == 0 then dnptrs.slots[0] < 0 else Holds(dnptrs.slots, Cut(table, src))
  {
    var i := 0;
    while i < last && dnptrs.slots[i] >= 0
      invariant 0 <= i <= |table| + 1 && dnptrs.slots == old(dnptrs.slots) && (i > 0 ==> src > 0)
      invariant forall j :: 0 <= j < i - 1 ==> table[j] < src
      decreases last - i
    {
      if 0 < i <= |table| { HoldsAt(dnptrs.slots, table, i - 1); }
      if dnptrs.slots[i] >= src {
        ghost var slots := dnptrs.slots;
        dnptrs.slots := dnptrs.slots[i := -1];
        if i > 0 {
          CutAt(table, src, i - 1);
          assert dnptrs.slots[1..|table[..i - 1]| + 1] == slots[1..|table| + 1][..i - 1];
        }
        return;
      }
      i := i + 1;
    }
    if 0 < i <= |table| { HoldsAt(dnptrs.slots, table, i - 1); }
    CutNothing(table, src);
  }
}
