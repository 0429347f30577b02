/** ns_name_pack: writing names with compression pointers to names already in the message. */
module DnsPack {
  import opened Basics
  import opened Octets
  import opened DnsNames
  import opened DnsPacked
  import opened DnsFind

  /** The legality scan of ns_name_pack stays inside `src` and meets no bit-string label. */
  ghost predicate Readable(src: seq<Octet>, q: nat)
    decreases |src| - q
  {
    && q < |src| && src[q] != 0x41
    && (1 <= src[q] < 0x40 && q + src[q] + 1 <= MAX_CD_NAME ==> Readable(src, q + src[q] + 1))
  }

  /** Length of the name that starts at 0 of `src`, scanned from `q`, or None when it is not legal. */
  ghost function LegalEnd(src: seq<Octet>, q: nat): (r: Option<nat>)
    requires Readable(src, q)
    ensures r.Some? ==> q < r.value <= |src| && r.value <= MAX_CD_NAME && IsName(src[..r.value], q)
    decreases |src| - q
  {
    if src[q] >= 0x40 || q + src[q] + 1 > MAX_CD_NAME then None
    else if src[q] == 0 then Some(q + 1)
    else LegalEnd(src, q + src[q] + 1)
  }

  lemma {:induction false} LegalPrefix(src: seq<Octet>, q: nat, n: nat)
    requires Readable(src, q) && n <= |src| && n <= 255 && IsName(src[..n], q)
    ensures LegalEnd(src, q) == Some(n)
    decreases |src| - q
  {
    if src[q] != 0 { LegalPrefix(src, q + src[q] + 1, n); }
  }

  /** A name of at most 255 octets is found to be legal, and its length with it; nothing else is. */
  lemma LegalIff(src: seq<Octet>, n: nat)
    requires Readable(src, 0)
    ensures LegalEnd(src, 0) == Some(n) <==> n <= |src| && n <= 255 && IsName(src[..n], 0)
  {
    if n <= |src| && n <= 255 && IsName(src[..n], 0) { LegalPrefix(src, 0, n); }
  }

  /** The first loop of ns_name_pack: the length of the name at `src`, or -1 when it is not legal. */
  method LegalLength(src: seq<Octet>) returns (l: int)
    requires Readable(src, 0)
    ensures l == match LegalEnd(src, 0) case Some(e) => e case None => -1
  {
    var srcp: nat := 0;
    l := 0;
    while true
      invariant l == srcp && Readable(src, srcp) && LegalEnd(src, 0) == LegalEnd(src, srcp)
      decreases |src| - srcp
    {
      var n := src[srcp];
      if n >= 0x40 { return -1; }
      l := l + n + 1;
      if l > MAX_CD_NAME { return -1; }
      srcp := srcp + n + 1;
      if n == 0 { return; }
    }
  }

  /** The two octets of a pointer to `l`. */
  function PointerTo(l: nat): seq<Octet>
    requires l < MAX_OFFSET
  {
    [0xC0 + l / 256, l % 256]
  }

  /** Where copying the labels of `w` from `q` on stops: at a suffix found in the table, or at the root. */
  ghost function Stop(m: seq<Octet>, table: seq<nat>, w: seq<Octet>, q: nat): (e: nat)
    requires IsName(w, q)
    ensures q <= e < |w| && IsName(w, e)
    ensures w[e] == 0 || FindFrom(m, table, 0, w, e).Some?
    decreases |w| - q
  {
    if w[q] == 0 || FindFrom(m, table, 0, w, q).Some? then q else Stop(m, table, w, q + w[q] + 1)
  }

  /** The octets written for `w` after the message `m`: labels copied up to the stop, then a pointer or the root. */
  ghost function Compressed(m: seq<Octet>, table: seq<nat>, w: seq<Octet>): seq<Octet>
    requires IsName(w, 0)
  {
    var e := Stop(m, table, w, 0);
    w[..e] + if w[e] == 0 then [0] else PointerTo(FindFrom(m, table, 0, w, e).value)
  }

  lemma StopStep(m: seq<Octet>, table: seq<nat>, w: seq<Octet>, q: nat, n: nat)
    requires IsName(w, q) && w[q] != 0 && n == w[q] + 1 && FindFrom(m, table, 0, w, q).None?
    ensures IsName(w, q + n) && Stop(m, table, w, q + n) == Stop(m, table, w, q)
  {}

  /** Whether those octets can be written in `room`; the original keeps one spare octet after a root. */
  ghost predicate Fits(m: seq<Octet>, table: seq<nat>, w: seq<Octet>, room: int)
    requires IsName(w, 0)
  {
    Stop(m, table, w, 0) + 1 < room
  }

  /** The array of pointers `dnptrs` points to, as offsets into the message; NULL is negative. */
  class DnPtrs {
    var slots: seq<int>
  }

  /** The slots hold the message, then the table, then NULL. */
  ghost predicate Holds(slots: seq<int>, table: seq<nat>)
  {
    |table| + 1 < |slots| && slots[0] == 0 && slots[1..|table| + 1] == table && slots[|table| + 1] < 0
  }

  /** The octets `b` with `x` stored at `at`. */
  ghost function Splice(b: seq<Octet>, at: nat, x: seq<Octet>): seq<Octet>
    requires at + |x| <= |b|
  {
    b[..at] + x + b[at + |x|..]
  }

  lemma SpliceMore(b: seq<Octet>, at: nat, x: seq<Octet>, y: seq<Octet>)
    requires at + |x| + |y| <= |b|
    ensures Splice(Splice(b, at, x), at + |x|, y) == Splice(b, at, x + y)
  {}

  /** Two buffers that agree outside `lo..hi`. */
  ghost predicate SameOutside(a: seq<Octet>, b: seq<Octet>, lo: nat, hi: nat)
  {
    |a| == |b| && lo <= hi <= |a| && a[..lo] == b[..lo] && a[hi..] == b[hi..]
  }

  lemma SpliceOutside(b: seq<Octet>, at: nat, x: seq<Octet>, hi: nat)
    requires at + |x| <= hi <= |b|
    ensures SameOutside(b, Splice(b, at, x), at, hi) && Splice(b, at, x)[at..at + |x|] == x
  {}

  /** memcpy into the message buffer. */
  method Put(buf: array<Octet>, at: nat, octets: seq<Octet>)
    requires at + |octets| <= buf.Length
    modifies buf
    ensures buf[..] == Splice(old(buf[..]), at, octets)
  {
    forall i | 0 <= i < |octets| { buf[at + i] := octets[i]; }
  }

  /**
   The table once `w` has been packed at `dst`: extended by it when its first label was not found
   and there is room.
   */
  ghost function Extended(m: seq<Octet>, table: seq<nat>, w: seq<Octet>, dst: nat, last: int): seq<nat>
    requires IsName(w, 0)
  {
    if Stop(m, table, w, 0) > 0 && |table| + 1 < last - 1 && dst < MAX_OFFSET then table + [dst] else table
  }

  lemma HoldsAt(slots: seq<int>, table: seq<nat>, i: nat)
    requires Holds(slots, table) && i < |table|
    ensures slots[i + 1] == table[i]
  {
    assert slots[i + 1] == slots[1..|table| + 1][i];
  }

  /** The slots from 1 up to the NULL that ends them. */
  method ReadTable(slots: seq<int>, ghost table: seq<nat>) returns (r: seq<nat>)
    requires Holds(slots, table)
    ensures r == table
  {
    r := [];
    while true
      invariant |r| <= |table| && r == table[..|r|]
      decreases |table| - |r|
    {
      if |r| < |table| { HoldsAt(slots, table, |r|); }
      if slots[|r| + 1] < 0 { return; }
      r := r + [slots[|r| + 1]];
    }
  }

  /** The first `q` octets of `w` stand in the buffer from `dst` on; nothing else has changed since `was`. */
  ghost predicate Copied(buf: seq<Octet>, was: seq<Octet>, dst: nat, w: seq<Octet>, q: nat)
  {
    q <= |w| && dst + q <= |was| && buf == Splice(was, dst, w[..q])
  }

  /** The next label of `w` is copied. */
  method CopyLabel(buf: array<Octet>, ghost was: seq<Octet>, dst: nat, w: seq<Octet>, q: nat, n: nat)
    requires Copied(buf[..], was, dst, w, q) && q + n <= |w| && dst + q + n <= buf.Length
    modifies buf
    ensures Copied(buf[..], was, dst, w, q + n)
  {
    Put(buf, dst + q, w[q..q + n]);
    SpliceMore(was, dst, w[..q], w[q..q + n]);
    assert w[..q] + w[q..q + n] == w[..q + n];
  }

  /** The name ends with `tail`, a pointer or the root. */
  method Finish(buf: array<Octet>, ghost was: seq<Octet>, dst: nat, w: seq<Octet>, q: nat, tail: seq<Octet>,
      ghost hi: nat)
    requires Copied(buf[..], was, dst, w, q) && dst + q + |tail| <= hi <= buf.Length
    modifies buf
    ensures SameOutside(was, buf[..], dst, hi) && buf[..][dst..dst + q + |tail|] == w[..q] + tail
  {
    Put(buf, dst + q, tail);
    SpliceMore(was, dst, w[..q], tail);
    SpliceOutside(was, dst, w[..q] + tail, hi);
  }

  /** Copying the labels of `w` stands at `q` and will stop at `stop`. */
  ghost predicate Ahead(msg: seq<Octet>, table: seq<nat>, w: seq<Octet>, q: nat, stop: nat)
  {
    TableFor(msg, table) && IsName(w, q) && q <= stop && stop == Stop(msg, table, w, q)
  }

  /**
   One turn of the second loop of ns_name_pack, at a label of `w`: a pointer when the suffix is
   found, which ends the name, or else the label is copied. `r` is -1 where there is no room.
   */
  method PackLabel(w: seq<Octet>, msg: seq<Octet>, table: seq<nat>, buf: array<Octet>, ghost was: seq<Octet>, dst: nat,
                   dstsiz: nat, q: nat, ghost stop: nat) returns (done: bool, r: int)
    requires Ahead(msg, table, w, q, stop) && w[q] != 0 && dst + dstsiz <= buf.Length
    requires Copied(buf[..], was, dst, w, q) && (q == 0 || q < dstsiz)
    modifies buf
    ensures !done ==> q < r < dstsiz && Ahead(msg, table, w, r, stop) && Copied(buf[..], was, dst, w, r)
    ensures done ==> SameOutside(was, buf[..], dst, dst + dstsiz)
    ensures done ==> if stop + 1 < dstsiz then r == q + 2 else r == -1
    ensures done && r >= 0 ==> stop == q && r <= dstsiz && FindFrom(msg, table, 0, w, q).Some?
    ensures done && r >= 0 ==> buf[..][dst..dst + r] == w[..q] + PointerTo(FindFrom(msg, table, 0, w, q).value)
  {
    SpliceOutside(was, dst, w[..q], dst + dstsiz);
    var l := DnFind(msg, table, w, q);
    if l >= 0 {
      if q + 1 >= dstsiz { return true, -1; }
      Finish(buf, was, dst, w, q, PointerTo(l), dst + dstsiz);
      return true, q + 2;
    }
    var n := w[q] + 1;
    StopStep(msg, table, w, q, n);
    if q + n >= dstsiz { return true, -1; }
    CopyLabel(buf, was, dst, w, q, n);
    return false, q + n;
  }

  /**
   The second loop of ns_name_pack: copies the labels of `w` to `dst` until a suffix is found.
   `msg` and `table` are the message and its names as they were. `begun` says that the first
   label was not found, so that `dst` may be saved in the table.
   */
  method PackLabels(w: seq<Octet>, msg: seq<Octet>, table: seq<nat>, buf: array<Octet>, dst: nat, dstsiz: nat)
    returns (r: int, begun: bool)
    requires IsName(w, 0) && TableFor(msg, table) && dst + dstsiz <= buf.Length
    modifies buf
    ensures SameOutside(old(buf[..]), buf[..], dst, dst + dstsiz)
    ensures
      if Fits(msg, table, w, dstsiz)
      then r == |Compressed(msg, table, w)| <= dstsiz && buf[..][dst..dst + r] == Compressed(msg, table, w)
      else r == -1
    ensures r >= 0 ==> begun == (Stop(msg, table, w, 0) > 0)
  {
    var srcp: nat := 0;
    ghost var was, stop := buf[..], Stop(msg, table, w, 0);
    while w[srcp] != 0
      invariant Ahead(msg, table, w, srcp, stop) && Copied(buf[..], was, dst, w, srcp) && (srcp == 0 || srcp < dstsiz)
      decreases |w| - srcp
    {
      var done;
      done, r := PackLabel(w, msg, table, buf, was, dst, dstsiz, srcp, stop);
      if done { return r, srcp > 0; }
      srcp := r;
    }
    SpliceOutside(was, dst, w[..srcp], dst + dstsiz);
    if srcp + 1 >= dstsiz { return -1, false; }
    Finish(buf, was, dst, w, srcp, [0], dst + dstsiz);
    return srcp + 1, srcp > 0;
  }

  /**
   ns_name_pack: writes the name at `src` to `dst` of the message buffer in at most `dstsiz`
   octets and returns how many it took, or -1. With a table, a suffix already in the message is
   replaced by a pointer, and a name whose first label was not found is added to the table when
   its position is below 0x4000 and the array, which ends at `last`, has room. (The original
   adds it before copying and takes it out again on failure.) `dnptrs` is null where the
   original is called with no table or with an empty one; `last` is negative for a null
   `lastdnptr`.
   */
  method Pack(src: seq<Octet>, buf: array<Octet>, dst: nat, dstsiz: nat, dnptrs: DnPtrs?, last: int,
      ghost table: seq<nat>)
    returns (r: int)
    requires Readable(src, 0) && dst + dstsiz <= buf.Length && TableFor(buf[..dst], table)
    requires if dnptrs == null then table == [] else Holds(dnptrs.slots, table) && last <= |dnptrs.slots|
    modifies buf, dnptrs
    ensures SameOutside(old(buf[..]), buf[..], dst, dst + dstsiz)
    ensures
      var m := old(buf[..dst]);
      var end := LegalEnd(src, 0);
      if end.Some? && Fits(m, table, src[..end.value], dstsiz)
      then
        && r == |Compressed(m, table, src[..end.value])| <= dstsiz
        && buf[..][dst..dst + r] == Compressed(m, table, src[..end.value])
        && (dnptrs != null ==> Holds(dnptrs.slots, Extended(m, table, src[..end.value], dst, last)))
      else r == -1 && (dnptrs != null ==> Holds(dnptrs.slots, table))
  {
    var l := LegalLength(src);
    if l < 0 { return -1; }
    var w, names := src[..l], [];
    if dnptrs != null { names := ReadTable(dnptrs.slots, table); }
    var begun;
    r, begun := PackLabels(w, buf[..dst], names, buf, dst, dstsiz);
    if dnptrs != null {
      if r >= 0 && begun && |names| + 1 < last - 1 && dst < MAX_OFFSET {
        dnptrs.slots := dnptrs.slots[|names| + 1 := dst][|names| + 2 := -1];
        HoldsMore(old(dnptrs.slots), table, dst);
      }
    }
  }

  lemma HoldsMore(slots: seq<int>, table: seq<nat>, dst: nat)
    requires Holds(slots, table) && |table| + 2 < |slots|
    ensures Holds(slots[|table| + 1 := dst][|table| + 2 := -1], table + [dst])
  {
    var s := slots[|table| + 1 := dst][|table| + 2 := -1];
    assert s[1..|table| + 2] == slots[1..|table| + 1] + [dst];
  }
}
