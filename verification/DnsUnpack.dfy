/** ns_name_unpack and ns_name_skip: the walks over a message that must refine `DnsNames.Denotes`. */
module DnsUnpack {
  import opened Basics
  import opened Octets
  import opened DnsNames

  /**
   ns_name_unpack gets through from `p` with `room` octets of output left and `checked` octets
   of the message counted so far.
   */
  predicate Passes(m: seq<Octet>, p: nat, room: nat, checked: nat)
    decreases room + (if checked < |m| then |m| - checked else 0)
  {
    room > 0 &&
    match At(m, p)
    case Root => true
    case Label(n) => n < room && Passes(m, p + n, room - n, checked + n)
    case Pointer(t) => checked + 2 < |m| && Passes(m, t, room, checked + 2)
    case Malformed => false
  }

  /** mempcpy: the octets `from` stored at `at`. */
  method CopyOctets(from: seq<Octet>, dst: array<Octet>, at: nat)
    requires at + |from| <= dst.Length
    modifies dst
    ensures dst[..] == old(dst[..at]) + from + old(dst[at + |from|..])
  {
    forall i | 0 <= i < |from| { dst[at + i] := from[i]; }
  }

  /** What gets through is a name the message denotes, and it fits the output. */
  lemma {:induction false} PassesDenotes(m: seq<Octet>, p: nat, room: nat, checked: nat, hops: nat)
    requires Passes(m, p, room, checked) && |m| - checked <= hops
    ensures Denotes(m, p, hops) && |Wire(m, p, hops)| <= room
    decreases room + (if checked < |m| then |m| - checked else 0)
  {
    match At(m, p)
    case Root =>
    case Label(n) => PassesDenotes(m, p + n, room - n, checked + n, hops);
    case Pointer(t) => PassesDenotes(m, t, room, checked + 2, hops - 1);
  }

  /**
   Where the loop of ns_name_unpack stands: `ok` says whether the whole name gets through, and
   if so the octets `done` are its wire form up to position `p`.
   */
  ghost predicate Progress(m: seq<Octet>, src: nat, ok: bool, done: seq<Octet>, p: nat, left: nat, checked: nat,
      hops: nat)
  {
    && p < |m| && left > 0 && (Passes(m, p, left, checked) <==> ok)
    && (ok ==> Denotes(m, src, |m|) && Denotes(m, p, hops) && Wire(m, src, |m|) == done + Wire(m, p, hops))
  }

  lemma ProgressLabel(m: seq<Octet>, src: nat, ok: bool, done: seq<Octet>, p: nat, left: nat, checked: nat, hops: nat,
      n: nat)
    requires Progress(m, src, ok, done, p, left, checked, hops) && At(m, p) == Label(n)
    ensures if n < left then Progress(m, src, ok, done + m[p..p + n], p + n, left - n, checked + n, hops) else !ok
  {
    if ok {
      assert Wire(m, p, hops) == m[p..p + n] + Wire(m, p + n, hops);
      assert done + (m[p..p + n] + Wire(m, p + n, hops)) == done + m[p..p + n] + Wire(m, p + n, hops);
    }
  }

  lemma ProgressPointer(m: seq<Octet>, src: nat, ok: bool, done: seq<Octet>, p: nat, left: nat, checked: nat, hops: nat,
      t: nat)
    requires Progress(m, src, ok, done, p, left, checked, hops) && At(m, p) == Pointer(t)
    ensures
      if checked + 2 < |m| then Progress(m, src, ok, done, t, left, checked + 2, if hops > 0 then hops - 1 else 0)
      else !ok
  {}

  /** The octet of the root is stored without a test, so an output size of 0 counts as 1. */
  function Room(dstsiz: nat): (room: nat)
    ensures room > 0
  {
    if dstsiz == 0 then 1 else dstsiz
  }

  /** The label case of ns_name_unpack: copies the label at `p` and returns its size, or 0 where it gives up. */
  method TakeLabel(msg: seq<Octet>, p: nat, dst: array<Octet>, at: nat, dstsiz: nat) returns (size: nat)
    requires p < |msg| && (at == 0 || at < dstsiz) && dstsiz <= dst.Length && 1 <= msg[p] < 0x80
    modifies dst
    ensures dst[dstsiz..] == old(dst[dstsiz..])
    ensures
      var piece := At(msg, p);
      if piece.Label? && at + piece.size < dstsiz
      then size == piece.size && dst[..at + size] == old(dst[..at]) + msg[p..p + size]
      else size == 0
  {
    var srcp, dstp, n := p + 1, at, msg[p];
    if n >= 0x40 {
      if n != 0x41 { return 0; }
      if dstp + 1 >= dstsiz { return 0; }
      dst[dstp] := 0x41;
      dstp := dstp + 1;
      if srcp >= |msg| { return 0; }
      n := msg[srcp] / 8;
      srcp := srcp + 1;
    }
    if dstp + n + 1 >= dstsiz || srcp + n >= |msg| { return 0; }
    CopyOctets(msg[srcp - 1..srcp + n], dst, dstp);
    size := srcp + n - p;
  }

  /** The pointer case of ns_name_unpack: where the pointer at `p` leads, or -1 where it gives up. */
  method TakePointer(msg: seq<Octet>, p: nat, checked: nat) returns (target: int)
    requires p < |msg| && msg[p] >= 0xC0
    ensures
      var piece := At(msg, p);
      if piece.Pointer? && checked + 2 < |msg| then target == piece.target else target == -1
  {
    if p + 1 >= |msg| { return -1; }
    var n: int := msg[p];
    target := n % 0x40 * 256 + msg[p + 1];
    if target >= |msg| || checked + 2 >= |msg| { return -1; }
  }

  /** What `len` holds while the walk stands at `p`: unset in the first run, final after it. */
  ghost predicate Measured(m: seq<Octet>, src: nat, p: nat, len: int)
  {
    if len < 0 then p >= src && OwnLength(m, src) == p - src + OwnLength(m, p)
    else len == OwnLength(m, src)
  }

  /** The loop of ns_name_unpack; `ok` says whether the name at `src` gets through. */
  method UnpackLabels(msg: seq<Octet>, src: nat, dst: array<Octet>, dstsiz: nat, ghost ok: bool) returns (r: int)
    requires Progress(msg, src, ok, [], src, Room(dstsiz), 0, |msg|) && dstsiz <= dst.Length && dst.Length > 0
    modifies dst
    ensures dst[Room(dstsiz)..] == old(dst[Room(dstsiz)..])
    ensures r == if ok then OwnLength(msg, src) else -1
    ensures ok ==> var w := Wire(msg, src, |msg|); |w| <= Room(dstsiz) && dst[..|w|] == w
  {
    ghost var done: seq<Octet>, left: nat, hops: nat := [], Room(dstsiz), |msg|;
    var len := -1;
    var checked: nat, dstp: nat, srcp: nat := 0, 0, src;
    while msg[srcp] != 0
      invariant dst[Room(dstsiz)..] == old(dst[Room(dstsiz)..])
      invariant Progress(msg, src, ok, done, srcp, left, checked, hops)
      invariant dstp == |done| == Room(dstsiz) - left && dst[..dstp] == done
      invariant Measured(msg, src, srcp, len)
      decreases left + (if checked < |msg| then |msg| - checked else 0)
    {
      var n := msg[srcp];
      if n < 0x80 {
        var e := TakeLabel(msg, srcp, dst, dstp, dstsiz);
        if e == 0 { return -1; }
        ProgressLabel(msg, src, ok, done, srcp, left, checked, hops, e);
        done := done + msg[srcp..srcp + e];
        srcp, left, checked, dstp := srcp + e, left - e, checked + e, dstp + e;
      } else if n >= 0xC0 {
        var target := TakePointer(msg, srcp, checked);
        if target < 0 { return -1; }
        if len < 0 { len := srcp + 2 - src; }
        ProgressPointer(msg, src, ok, done, srcp, left, checked, hops, target);
        srcp, checked, hops := target, checked + 2, if hops > 0 then hops - 1 else 0;
      } else {
        return -1;
      }
    }
    dst[dstp] := 0;
    assert dst[..dstp + 1] == done + [0];
    if len < 0 { len := srcp + 1 - src; }
    return len;
  }

  /**
   ns_name_unpack over the message `msg`, whose end is `eom`. Returns the number of octets the
   name takes at `src`, or -1. A bit-string label whose count octet lies past the message is
   read by the original and then always refused; here it is refused at once.
   */
  method Unpack(msg: seq<Octet>, src: int, dst: array<Octet>, dstsiz: nat) returns (r: int)
    requires dstsiz <= dst.Length && dst.Length > 0
    modifies dst
    ensures dst[Room(dstsiz)..] == old(dst[Room(dstsiz)..])
    ensures r == if 0 <= src < |msg| && Passes(msg, src, Room(dstsiz), 0) then OwnLength(msg, src) else -1
    ensures r >= 0 ==> Denotes(msg, src, |msg|)
    ensures r >= 0 ==> var w := Wire(msg, src, |msg|); |w| <= Room(dstsiz) && dst[..|w|] == w
  {
    if src < 0 || src >= |msg| { return -1; }
    ghost var ok := Passes(msg, src, Room(dstsiz), 0);
    if ok {
      PassesDenotes(msg, src, Room(dstsiz), 0, |msg|);
      assert Wire(msg, src, |msg|) == [] + Wire(msg, src, |msg|);
    }
    r := UnpackLabels(msg, src, dst, dstsiz, ok);
  }

  /** It fits, and the octets visited up to its last pointer stay below the length of the message. */
  ghost predicate WithinCount(m: seq<Octet>, p: nat, room: nat, checked: nat, hops: nat)
    requires Denotes(m, p, hops)
  {
    |Wire(m, p, hops)| <= room && (Walked(m, p, hops) == 0 || checked + Walked(m, p, hops) < |m|)
  }

  lemma LabelWithin(m: seq<Octet>, p: nat, room: nat, checked: nat, hops: nat)
    requires Denotes(m, p, hops) && At(m, p).Label?
    ensures
      var n := At(m, p).size;
      WithinCount(m, p, room, checked, hops) <==> n < room && WithinCount(m, p + n, room - n, checked + n, hops)
  {
    var n := At(m, p).size;
    assert Wire(m, p, hops) == m[p..p + n] + Wire(m, p + n, hops);
  }

  lemma PointerWithin(m: seq<Octet>, p: nat, room: nat, checked: nat, hops: nat)
    requires Denotes(m, p, hops) && At(m, p).Pointer?
    ensures hops > 0 && Denotes(m, At(m, p).target, hops - 1)
    ensures
      WithinCount(m, p, room, checked, hops) <==>
      checked + 2 < |m| && WithinCount(m, At(m, p).target, room, checked + 2, hops - 1)
  {
  }

  lemma PassesStep(m: seq<Octet>, p: nat, room: nat, checked: nat)
    ensures
      match At(m, p)
      case Root => Passes(m, p, room, checked) <==> room > 0
      case Label(n) => Passes(m, p, room, checked) <==> n < room && Passes(m, p + n, room - n, checked + n)
      case Pointer(t) => Passes(m, p, room, checked) <==>
        room > 0 && checked + 2 < |m| && Passes(m, t, room, checked + 2)
      case Malformed => !Passes(m, p, room, checked)
  {
  }

  /** Exactly when a denoted name is unpacked. */
  lemma {:induction false} PassesExactly(m: seq<Octet>, p: nat, room: nat, checked: nat, hops: nat)
    requires Denotes(m, p, hops)
    ensures Passes(m, p, room, checked) <==> WithinCount(m, p, room, checked, hops)
    decreases hops, |m| - p
  {
    PassesStep(m, p, room, checked);
    match At(m, p) {
      case Root =>
        assert Wire(m, p, hops) == [0] && Walked(m, p, hops) == 0;
      case Label(n) =>
        LabelWithin(m, p, room, checked, hops);
        if n < room { PassesExactly(m, p + n, room - n, checked + n, hops); }
      case Pointer(t) =>
        PointerWithin(m, p, room, checked, hops);
        PassesExactly(m, t, room, checked + 2, hops - 1);
        WireNotEmpty(m, t, hops - 1);
    }
  }

  lemma WireNotEmpty(m: seq<Octet>, p: nat, hops: nat)
    requires Denotes(m, p, hops)
    ensures |Wire(m, p, hops)| > 0
  {
  }

  /** A name whose pointers make the visited octets as many as the message holds is refused. */
  lemma WalkedTooFar(m: seq<Octet>, p: nat, room: nat, hops: nat)
    requires Denotes(m, p, hops) && Walked(m, p, hops) != 0 && Walked(m, p, hops) >= |m|
    ensures !Passes(m, p, room, 0)
  {
    PassesExactly(m, p, room, 0, hops);
  }

  /** ns_name_unpack succeeds exactly on the denoted names that fit and pass the count of octets. */
  lemma UnpackIffDenoted(m: seq<Octet>, p: nat, room: nat)
    ensures Passes(m, p, room, 0) <==>
      exists hops: nat :: Denotes(m, p, hops) && |Wire(m, p, hops)| <= room
        && (Walked(m, p, hops) == 0 || Walked(m, p, hops) < |m|)
  {
    if Passes(m, p, room, 0) {
      PassesDenotes(m, p, room, 0, |m|);
      PassesExactly(m, p, room, 0, |m|);
    }
    forall hops: nat | Denotes(m, p, hops) && |Wire(m, p, hops)| <= room
        && (Walked(m, p, hops) == 0 || Walked(m, p, hops) < |m|)
      ensures Passes(m, p, room, 0)
    {
      PassesExactly(m, p, room, 0, hops);
    }
  }

  /** A name whose pointers run in a cycle is always refused. */
  lemma CycleRefused(m: seq<Octet>, p: nat, into: nat, k: nat, room: nat)
    requires Follow(m, p, into).Some?
    requires k > 0 && Follow(m, Follow(m, p, into).value, k) == Follow(m, p, into)
    ensures !Passes(m, p, room, 0)
  {
    if Passes(m, p, room, 0) {
      PassesDenotes(m, p, room, 0, |m|);
      CycleDenotesNothing(m, p, into, k, |m|);
    }
  }

  /**
   The loop counter never refuses a nested name: the octets counted so far lie in the part of
   the message above `k`, so a pointer's target is always still uncounted.
   */
  lemma {:induction false} NestedPasses(m: seq<Octet>, k: nat, start: nat, p: nat, room: nat, checked: nat, hops: nat)
    requires start <= p && k <= |m| && Nested(m[..k], start, p)
    requires checked <= |m| - k + (p - start)
    requires Denotes(m, p, hops) && |Wire(m, p, hops)| <= room
    ensures Passes(m, p, room, checked)
    decreases k, k - p
  {
    AtExtend(m[..k], m, p);
    match At(m[..k], p)
    case Root =>
    case Label(n) => NestedPasses(m, k, start, p + n, room - n, checked + n, hops);
    case Pointer(t) =>
      assert m[..k][..start] == m[..start];
      NestedPasses(m, start, t, t, room, checked + 2, hops - 1);
  }

  /** Every nested name that fits is unpacked, whatever octets follow it in the message. */
  lemma NestedUnpacks(m: seq<Octet>, end: nat, p: nat, room: nat)
    requires end <= |m| && Nested(m[..end], p, p)
    requires Denotes(m[..end], p, end) ==> |Wire(m[..end], p, end)| <= room
    ensures Passes(m, p, room, 0) && Denotes(m, p, |m|) && Denotes(m[..end], p, end)
    ensures Wire(m, p, |m|) == Wire(m[..end], p, end)
  {
    NestedDenotes(m[..end], p, p);
    DenotesExtend(m[..end], m, p, end);
    DenotesMonotone(m, p, end, |m|);
    NestedExtend(m[..end], m, p, p);
    assert m[..|m|] == m;
    NestedPasses(m, |m|, p, p, room, 0, |m|);
  }

  const OVERLAPPING: seq<Octet> := [0, 0, 0, 4, 1, 7, 0xC0, 3, 0xC0, 0]

  lemma OverlappingName()
    ensures Denotes(OVERLAPPING, 4, 2) && Wire(OVERLAPPING, 4, 2) == [1, 7] + ([4, 1, 7, 0xC0, 3] + [0])
    ensures Walked(OVERLAPPING, 4, 2) == 11 && At(OVERLAPPING, 6) == Pointer(3) && At(OVERLAPPING, 8) == Pointer(0)
  {
    var m := OVERLAPPING;
    assert At(m, 4) == Label(2) && At(m, 6) == Pointer(3) && At(m, 3) == Label(5);
    assert At(m, 8) == Pointer(0) && At(m, 0) == Root;
    assert m[4..4 + 2] == [1, 7] && m[3..3 + 5] == [4, 1, 7, 0xC0, 3];
    assert Denotes(m, 0, 0) && Wire(m, 0, 0) == [0] && Walked(m, 0, 0) == 0;
    assert Denotes(m, 8, 1) && Wire(m, 8, 1) == [0] && Walked(m, 8, 1) == 2;
    assert Denotes(m, 3, 1) && Wire(m, 3, 1) == m[3..3 + 5] + [0] && Walked(m, 3, 1) == 7;
    assert Denotes(m, 6, 2) && Wire(m, 6, 2) == Wire(m, 3, 1) && Walked(m, 6, 2) == 9;
  }

  /**
   Pointers that merely lead before the start of their own run are not enough: the two runs of
   this message overlap, so the counter reaches its length although the name at 4 is denoted.
   */
  lemma BackwardPointersNotEnough()
    ensures Denotes(OVERLAPPING, 4, 2) && |Wire(OVERLAPPING, 4, 2)| == 8
    ensures At(OVERLAPPING, 6) == Pointer(3) && At(OVERLAPPING, 8) == Pointer(0)
    ensures !Passes(OVERLAPPING, 4, 255, 0)
  {
    OverlappingName();
    WalkedTooFar(OVERLAPPING, 4, 255, 2);
  }

  /** Where ns_name_skip ends when it starts at `cp`, or None on an illegal label or an overrun. */
  function SkipTo(m: seq<Octet>, cp: nat): Option<nat>
    decreases |m| - cp
  {
    if cp > |m| then None
    else if cp == |m| then Some(cp)
    else if m[cp] == 0 then Some(cp + 1)
    else if m[cp] < 0x40 then SkipTo(m, cp + m[cp] + 1)
    else if m[cp] >= 0xC0 && cp + 2 <= |m| then Some(cp + 2)
    else None
  }

  /** ns_name_skip: advances `ptr` over the name there; `ptr` is returned unchanged on failure. */
  method Skip(msg: seq<Octet>, ptr: nat) returns (r: int, ptr': nat)
    ensures
      match SkipTo(msg, ptr)
      case None => r == -1 && ptr' == ptr
      case Some(after) => r == 0 && ptr' == after
  {
    var cp := ptr;
    while cp < |msg|
      invariant SkipTo(msg, ptr) == SkipTo(msg, cp)
      decreases |msg| - cp
    {
      var n := msg[cp];
      cp := cp + 1;
      if n == 0 { break; }
      if n < 0x40 {
        cp := cp + n;
      } else if n >= 0xC0 {
        cp := cp + 1;
        break;
      } else {
        return -1, ptr;
      }
    }
    if cp > |msg| { return -1, ptr; }
    return 0, cp;
  }

  /** No bit-string label stands in the name's own octets at `p`. */
  ghost predicate PlainRun(m: seq<Octet>, p: nat)
    decreases |m| - p
  {
    p < |m| && m[p] != 0x41 && (At(m, p).Label? ==> PlainRun(m, p + At(m, p).size))
  }

  /**
   Over a name that ns_name_unpack accepts, ns_name_skip advances by the length unpack returns, or
   fails if and only if a bit-string label stands in the name's own octets.
   */
  lemma {:induction false} SkipAgrees(m: seq<Octet>, p: nat, room: nat, checked: nat)
    requires Passes(m, p, room, checked)
    ensures SkipTo(m, p) == if PlainRun(m, p) then Some(p + OwnLength(m, p)) else None
    decreases |m| - p
  {
    if At(m, p).Label? && m[p] != 0x41 {
      var n := At(m, p).size;
      SkipAgrees(m, p + n, room - n, checked + n);
    }
  }
}
