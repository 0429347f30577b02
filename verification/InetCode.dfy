/** inet_pton4 and inet_pton6 over buffers, each equal to its scan. */
module InetCode {
  import opened Basics
  import opened Octets
  import opened InetText
  import opened InetForms

  /** inet_pton4 with `dst` at `at`: four octets are written when the text is a dotted quad, and nothing otherwise. */
  method InetPton4(src: string, dst: array<Octet>, at: nat) returns (ok: bool)
    requires at + NS_INADDRSZ <= dst.Length
    modifies dst
    ensures
      match Scan4(src, [], false, 0)
      case Some(os) => ok && dst[..] == old(dst[..at]) + os + old(dst[at + NS_INADDRSZ..])
      case None => !ok && dst[..] == old(dst[..])
  {
    var tmp := new Octet[NS_INADDRSZ](i => 0);
    var i, tp, saw, octets := 0, 0, false, 0;
    assert src[0..] == src && tmp[..0] == [];
    while i < |src|
      invariant i <= |src| && tp < NS_INADDRSZ && octets == tp + (if saw then 1 else 0)
      invariant Scan4(src[i..], tmp[..tp], saw, tmp[tp]) == Scan4(src, [], false, 0) && dst[..] == old(dst[..])
    {
      assert src[i..][1..] == src[i + 1..];
      if IsDigit(src[i]) {
        var v: int := tmp[tp];
        var next := v * 10 + HexValue(src[i]);
        if next > 255 { return false; }
        tmp[tp] := next;
        if !saw {
          octets := octets + 1;
          saw := true;
        }
      } else if src[i] == '.' && saw {
        if octets == 4 { return false; }
        assert tmp[..tp + 1] == tmp[..tp] + [tmp[tp]];
        tp := tp + 1;
        tmp[tp] := 0;
        saw := false;
      } else {
        return false;
      }
      i := i + 1;
    }
    assert src[i..] == [];
    if octets < 4 { return false; }
    assert tmp[..] == tmp[..tp] + [tmp[tp]];
    CopyOctets(tmp, dst, at);
    return true;
  }

  /** memcpy of all of `tmp` to `dst` at `at` */
  method CopyOctets(tmp: array<Octet>, dst: array<Octet>, at: nat)
    requires at + tmp.Length <= dst.Length && tmp != dst
    modifies dst
    ensures dst[..] == old(dst[..at]) + tmp[..] + old(dst[at + tmp.Length..])
  {
    for k := 0 to tmp.Length
      invariant forall j :: 0 <= j < k ==> dst[at + j] == tmp[j]
      invariant forall j :: 0 <= j < dst.Length && (j < at || j >= at + k) ==> dst[j] == old(dst[j])
    {
      dst[at + k] := tmp[k];
    }
    ghost var want := old(dst[..at]) + tmp[..] + old(dst[at + tmp.Length..]);
    forall j | 0 <= j < dst.Length ensures dst[j] == want[j] {
      if at <= j < at + tmp.Length { assert dst[at + (j - at)] == tmp[j - at]; }
    }
    assert dst[..] == want;
  }

  /** The shift by hand, in place: the octets from `colonp` to `tp` move to the end, and zeros take their place. */
  method Shift(tmp: array<Octet>, tp: nat, colonp: nat)
    requires tmp.Length == NS_IN6ADDRSZ && colonp <= tp <= NS_IN6ADDRSZ
      && forall k :: tp <= k < NS_IN6ADDRSZ ==> tmp[k] == 0
    modifies tmp
    ensures tmp[..] == Shifted(old(tmp[..tp]), colonp)
  {
    var n := tp - colonp;
    ghost var d := NS_IN6ADDRSZ - tp;
    for i := 1 to n + 1
      invariant forall k :: 0 <= k < tmp.Length && k <= tp - i ==> tmp[k] == old(tmp[k])
      invariant forall k :: 0 <= k < tmp.Length && tp - i < k <= NS_IN6ADDRSZ - i ==> tmp[k] == 0
      invariant forall k :: 0 <= k < tmp.Length && NS_IN6ADDRSZ - i < k ==>
        tmp[k] == if d == 0 then 0 else old(tmp[k - d])
    {
      tmp[NS_IN6ADDRSZ - i] := tmp[colonp + n - i];
      tmp[colonp + n - i] := 0;
    }
    ghost var was := old(tmp[..tp]);
    ghost var want := Shifted(was, colonp);
    forall k | 0 <= k < NS_IN6ADDRSZ ensures tmp[k] == want[k] {
      if k >= colonp + d && d > 0 {
        assert tmp[k] == old(tmp[k - d]) == was[k - d];
        assert want[k] == was[colonp..][k - d - colonp];
      }
    }
    assert tmp[..] == want;
  }

  /** What the scan has left to do, in terms of the variables of inet_pton6. */
  ghost predicate Scanning(goal: Option<Scanned>, src: string, i: nat, curtok: nat, written: seq<Octet>,
      colonp: Option<nat>, saw: bool, val: nat)
  {
    && curtok <= i <= |src| && |written| <= NS_IN6ADDRSZ && val <= 0xFFFF
    && (colonp.Some? ==> colonp.value <= |written|)
    && Scan6(src[i..], src[curtok..], written, colonp, saw, val) == goal
  }

  /** Two octets of a group. */
  method WritePair(tmp: array<Octet>, tp: nat, val: nat)
    requires tmp.Length == NS_IN6ADDRSZ && tp + NS_INT16SZ <= NS_IN6ADDRSZ && val <= 0xFFFF && ZeroFrom(tmp, tp)
    modifies tmp
    ensures tmp[..tp + NS_INT16SZ] == old(tmp[..tp]) + Pair(val) && ZeroFrom(tmp, tp + NS_INT16SZ)
  {
    tmp[tp] := val / 256;
    tmp[tp + 1] := val % 256;
    assert tmp[..tp + NS_INT16SZ] == tmp[..tp] + Pair(val);
  }

  ghost predicate ZeroFrom(tmp: array<Octet>, tp: nat)
    reads tmp
  {
    forall k :: tp <= k < tmp.Length ==> tmp[k] == 0
  }

  /** The end of inet_pton6: the shift if there was a gap, and the copy of a whole address. */
  method Deliver(tmp: array<Octet>, tp: nat, colonp: Option<nat>, dst: array<Octet>) returns (ok: bool)
    requires tmp.Length == NS_IN6ADDRSZ <= dst.Length && tmp != dst && tp <= NS_IN6ADDRSZ && ZeroFrom(tmp, tp)
    requires colonp.Some? ==> colonp.value <= tp
    modifies tmp, dst
    ensures
      match Placed(Scanned(old(tmp[..tp]), colonp))
      case Some(os) => ok && dst[..] == os + old(dst[NS_IN6ADDRSZ..])
      case None => !ok && dst[..] == old(dst[..])
  {
    var end := tp;
    if colonp.Some? {
      Shift(tmp, tp, colonp.value);
      end := NS_IN6ADDRSZ;
    }
    if end != NS_IN6ADDRSZ { return false; }
    assert tmp[..NS_IN6ADDRSZ] == tmp[..];
    CopyOctets(tmp, dst, 0);
    return true;
  }

  /** inet_pton6: `dst` is written when the text is accepted, and left alone otherwise. */
  method InetPton6(src: string, dst: array<Octet>) returns (ok: bool)
    requires dst.Length >= NS_IN6ADDRSZ
    modifies dst
    ensures
      match Parse6(src)
      case Some(os) => ok && dst[..] == os + old(dst[NS_IN6ADDRSZ..])
      case None => !ok && dst[..] == old(dst[..])
  {
    var tmp := new Octet[NS_IN6ADDRSZ](i => 0);
    var i: nat, tp: nat, colonp: Option<nat>, saw, val: nat := 0, 0, None, false, 0;
    if src != [] && src[0] == ':' {
      i := 1;
      if |src| == 1 || src[1] != ':' { return false; }
    }
    var curtok: nat := i;
    ghost var goal := From(src[i..], [], None);
    assert tmp[..0] == [] && src[0..] == src;
    while i < |src|
      invariant tp <= NS_IN6ADDRSZ && ZeroFrom(tmp, tp) && dst[..] == old(dst[..])
      invariant Scanning(goal, src, i, curtok, tmp[..tp], colonp, saw, val)
    {
      var ch := src[i];
      assert src[i..][1..] == src[i + 1..];
      i := i + 1;
      if IsHex(ch) {
        val := val * 16 + HexValue(ch);
        if val > 0xFFFF { return false; }
        saw := true;
      } else if ch == ':' {
        curtok := i;
        if !saw {
          if colonp.Some? { return false; }
          colonp := Some(tp);
        } else {
          if tp + NS_INT16SZ > NS_IN6ADDRSZ { return false; }
          WritePair(tmp, tp, val);
          tp := tp + NS_INT16SZ;
          saw, val := false, 0;
        }
      } else {
        if ch != '.' || tp + NS_INADDRSZ > NS_IN6ADDRSZ { return false; }
        ok := TakeQuad(src[curtok..], tmp, tp);
        if !ok { return false; }
        tp := tp + NS_INADDRSZ;
        assert goal == Some(Scanned(tmp[..tp], colonp));
        ok := Deliver(tmp, tp, colonp, dst);
        return;
      }
    }
    assert src[i..] == [];
    if saw {
      if tp + NS_INT16SZ > NS_IN6ADDRSZ { return false; }
      WritePair(tmp, tp, val);
      tp := tp + NS_INT16SZ;
    }
    ok := Deliver(tmp, tp, colonp, dst);
  }

  /** A dotted quad ends the address. */
  method TakeQuad(token: string, tmp: array<Octet>, tp: nat) returns (ok: bool)
    requires tmp.Length == NS_IN6ADDRSZ && tp + NS_INADDRSZ <= NS_IN6ADDRSZ && ZeroFrom(tmp, tp)
    modifies tmp
    ensures ok == Scan4(token, [], false, 0).Some?
    ensures ok ==>
      tmp[..tp + NS_INADDRSZ] == old(tmp[..tp]) + Scan4(token, [], false, 0).value
      && ZeroFrom(tmp, tp + NS_INADDRSZ)
  {
    ghost var was := tmp[..];
    ok := InetPton4(token, tmp, tp);
    if ok {
      var os := Scan4(token, [], false, 0).value;
      assert tmp[..] == was[..tp] + os + was[tp + NS_INADDRSZ..];
      assert tmp[..tp + NS_INADDRSZ] == was[..tp] + os;
      forall k | tp + NS_INADDRSZ <= k < tmp.Length ensures tmp[k] == 0 {
        assert tmp[k] == tmp[..][k] == was[k];
      }
    }
  }
}
