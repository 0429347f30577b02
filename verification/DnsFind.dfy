/** dn_find: the search for a name already in the message. */
module DnsFind {
  import opened Basics
  import opened Octets
  import opened DnsNames
  import opened DnsPacked

  lemma NameCons(m: seq<Octet>, start: nat, cp: nat)
    requires start <= cp && Packed(m, start, cp) && At(m, cp).Label?
    ensures Packed(m, start, cp + 1 + m[cp]) && m[cp] < 0x40 && cp + 1 + m[cp] < |m|
    ensures Name(m, start, cp) == [m[cp]] + (m[cp + 1..cp + 1 + m[cp]] + Name(m, start, cp + 1 + m[cp]))
  {
    var n, octets := m[cp], m[cp + 1..cp + 1 + m[cp]];
    assert At(m, cp).size == n + 1;
    assert m[cp..cp + (n + 1)] == [n] + octets;
    assert [n] + octets + Name(m, start, cp + (n + 1)) == [n] + (octets + Name(m, start, cp + (n + 1)));
  }

  /** Comparing a packed name with `w[dn..]` gives `same`. */
  ghost predicate Comparing(m: seq<Octet>, start: nat, cp: nat, w: seq<Octet>, dn: nat, same: bool)
  {
    && start <= cp && Packed(m, start, cp) && IsName(w, dn)
    && (EqFold(Name(m, start, cp), w[dn..]) <==> same)
  }

  /** One label compared: the names agree when the label does and the rest of both agrees. */
  lemma CompareLabel(m: seq<Octet>, start: nat, cp: nat, w: seq<Octet>, dn: nat, same: bool)
    requires Comparing(m, start, cp, w, dn, same) && At(m, cp).Label? && w[dn] != 0
    ensures cp + 1 + m[cp] < |m| && dn + 1 + w[dn] < |w|
    ensures
      if m[cp] == w[dn] && EqFold(m[cp + 1..cp + 1 + m[cp]], w[dn + 1..dn + 1 + w[dn]])
      then Comparing(m, start, cp + 1 + m[cp], w, dn + 1 + w[dn], same) else !same
  {
    NameCons(m, start, cp);
    WireCons(w, dn);
    EqFoldLabel(m[cp], m[cp + 1..cp + 1 + m[cp]], Name(m, start, cp + 1 + m[cp]),
                w[dn], w[dn + 1..dn + 1 + w[dn]], w[dn + 1 + w[dn]..]);
  }

  lemma ComparePointer(m: seq<Octet>, start: nat, cp: nat, w: seq<Octet>, dn: nat, same: bool, t: nat)
    requires Comparing(m, start, cp, w, dn, same) && At(m, cp) == Pointer(t)
    ensures t < start && 1 <= m[t] < 0x40 && Comparing(m[..start], t, t, w, dn, same)
  {}

  /** A name that ends is equal only to one that ends too. */
  lemma CompareEnd(m: seq<Octet>, start: nat, cp: nat, w: seq<Octet>, dn: nat, same: bool)
    requires Comparing(m, start, cp, w, dn, same)
    ensures cp < |m|
    ensures m[cp] == 0 && w[dn] == 0 ==> same
    ensures (m[cp] == 0) != (w[dn] == 0) ==> !same
  {
    FirstOctet(m, start, cp);
    var name := Name(m, start, cp);
    assert w[dn..][0] == w[dn];
    if m[cp] == 0 && w[dn] == 0 { assert name == [0] == w[dn..]; }
  }

  /** Where the pointer at `cp` leads. */
  method PointerTarget(msg: seq<Octet>, cp: nat) returns (target: nat)
    requires At(msg, cp).Pointer?
    ensures target == At(msg, cp).target
  {
    var n: int := msg[cp];
    target := n % 0x40 * 256 + msg[cp + 1];
  }

  /** The comparison in dn_find: does the name at the label `sp` of a packed run equal `w[q..]` up to ASCII case? */
  method MatchAt(msg: seq<Octet>, sp: nat, w: seq<Octet>, q: nat, ghost same: bool) returns (b: bool)
    requires Comparing(msg, sp, sp, w, q, same) && 1 <= msg[sp] < 0x40 && w[q] != 0
    ensures b == same
  {
    ghost var v, s: nat := msg, sp;
    var dn: nat, cp: nat := q, sp;
    while msg[cp] != 0
      invariant v <= msg && cp < |v| && Comparing(v, s, cp, w, dn, same) && w[dn] != 0
      decreases |v|, |v| - cp
    {
      var n := msg[cp];
      if n < 0x40 {
        CompareLabel(v, s, cp, w, dn, same);
        if n != w[dn] { return false; }
        var equal := SameOctets(msg[cp + 1..cp + 1 + n], w[dn + 1..dn + 1 + n]);
        assert msg[cp + 1..cp + 1 + n] == v[cp + 1..cp + 1 + n];
        if !equal { return false; }
        cp, dn := cp + 1 + n, dn + 1 + n;
        CompareEnd(v, s, cp, w, dn, same);
        if w[dn] == 0 && msg[cp] == 0 { return true; }
        if w[dn] == 0 { return false; }
      } else {
        AtExtend(v, msg, cp);
        var target := PointerTarget(msg, cp);
        ComparePointer(v, s, cp, w, dn, same, target);
        v, s, cp := v[..s], target, target;
      }
    }
    CompareEnd(v, s, cp, w, dn, same);
    return false;
  }

  /** Two runs of octets of the same length compared up to ASCII case. */
  method SameOctets(a: seq<Octet>, b: seq<Octet>) returns (same: bool)
    requires |a| == |b|
    ensures same <==> EqFold(a, b)
  {
    for i := 0 to |a|
      invariant forall j :: 0 <= j < i ==> MkLower(a[j]) == MkLower(b[j])
    {
      if MkLower(a[i]) != MkLower(b[i]) { return false; }
    }
    return true;
  }

  /** A label at `p` of the message begins a name equal to `w[q..]` up to ASCII case. */
  ghost predicate Matches(m: seq<Octet>, p: nat, w: seq<Octet>, q: nat)
  {
    p < |m| && 1 <= m[p] < 0x40 && p < MAX_OFFSET && q <= |w| && Packed(m, p, p) && EqFold(Name(m, p, p), w[q..])
  }

  /** The first match among the labels from `p` on in one run, as far as a pointer can reach. */
  ghost function FindInRun(m: seq<Octet>, p: nat, w: seq<Octet>, q: nat): (r: Option<nat>)
    ensures r.Some? ==> Matches(m, r.value, w, q)
    decreases |m| - p
  {
    if p >= |m| || m[p] == 0 || m[p] >= 0x40 || p >= MAX_OFFSET then None
    else if Matches(m, p, w, q) then Some(p)
    else FindInRun(m, p + m[p] + 1, w, q)
  }

  /** What dn_find yields over the table entries from `i` on. */
  ghost function FindFrom(m: seq<Octet>, table: seq<nat>, i: nat, w: seq<Octet>, q: nat): (r: Option<nat>)
    ensures r.Some? ==> Matches(m, r.value, w, q)
    decreases |table| - i
  {
    if i >= |table| then None
    else
      var found := FindInRun(m, table[i], w, q);
      if found.Some? then found else FindFrom(m, table, i + 1, w, q)
  }

  /** Every table entry is a packed name of the message. */
  ghost predicate TableFor(m: seq<Octet>, table: seq<nat>)
  {
    forall i :: 0 <= i < |table| ==> table[i] < |m| && Packed(m, table[i], table[i])
  }

  lemma PackedLabel(m: seq<Octet>, start: nat, p: nat)
    requires start <= p && Packed(m, start, p) && 1 <= m[p] < 0x40
    ensures p + m[p] + 1 < |m| && Packed(m, start, p + m[p] + 1) && Packed(m, p, p)
  {
    assert At(m, p).Label?;
    PackedSuffix(m, start, p, p);
  }

  /** dn_find over one table entry. */
  method FindInEntry(msg: seq<Octet>, entry: nat, w: seq<Octet>, q: nat) returns (r: int)
    requires entry < |msg| && Packed(msg, entry, entry) && IsName(w, q) && w[q] != 0
    ensures r == match FindInRun(msg, entry, w, q) case Some(l) => l case None => -1
  {
    var sp := entry;
    while msg[sp] != 0 && msg[sp] < 0x40 && sp < MAX_OFFSET
      invariant entry <= sp < |msg| && Packed(msg, entry, sp)
      invariant FindInRun(msg, entry, w, q) == FindInRun(msg, sp, w, q)
      decreases |msg| - sp
    {
      PackedLabel(msg, entry, sp);
      var b := MatchAt(msg, sp, w, q, EqFold(Name(msg, sp, sp), w[q..]));
      if b { return sp; }
      sp := sp + msg[sp] + 1;
    }
    return -1;
  }

  /** dn_find: the offset of the first match of `w[q..]` in the table's names, or -1. */
  method DnFind(msg: seq<Octet>, table: seq<nat>, w: seq<Octet>, q: nat) returns (r: int)
    requires TableFor(msg, table) && IsName(w, q) && w[q] != 0
    ensures r == match FindFrom(msg, table, 0, w, q) case Some(l) => l case None => -1
  {
    for i := 0 to |table|
      invariant FindFrom(msg, table, 0, w, q) == FindFrom(msg, table, i, w, q)
    {
      r := FindInEntry(msg, table[i], w, q);
      if r >= 0 { return; }
    }
    return -1;
  }

  /** dn_find misses nothing it may use: no label of a table entry's run below 0x4000 matches when it yields none. */
  lemma {:induction false} FindComplete(m: seq<Octet>, table: seq<nat>, i: nat, w: seq<Octet>, q: nat, k: nat, p: nat)
    requires FindFrom(m, table, i, w, q).None? && i <= k < |table| && OnRun(m, table[k], p)
    ensures !Matches(m, p, w, q)
    decreases |table| - i
  {
    if k == i { FindInRunComplete(m, table[k], w, q, p); } else { FindComplete(m, table, i + 1, w, q, k, p); }
  }

  /** `p` is the position of a label of the run at `from`, reached below the offset limit. */
  ghost predicate OnRun(m: seq<Octet>, from: nat, p: nat)
    decreases |m| - from
  {
    from < |m| && 1 <= m[from] < 0x40 && from < MAX_OFFSET && (p == from || OnRun(m, from + m[from] + 1, p))
  }

  lemma {:induction false} FindInRunComplete(m: seq<Octet>, from: nat, w: seq<Octet>, q: nat, p: nat)
    requires FindInRun(m, from, w, q).None? && OnRun(m, from, p)
    ensures !Matches(m, p, w, q)
    decreases |m| - from
  {
    if p != from { FindInRunComplete(m, from + m[from] + 1, w, q, p); }
  }

  /** A label of the names in the table that a pointer can reach. */
  ghost predicate Pointable(m: seq<Octet>, table: seq<nat>, p: nat)
  {
    exists k :: 0 <= k < |table| && OnRun(m, table[k], p)
  }

  lemma {:induction false} FindInRunFirst(m: seq<Octet>, from: nat, w: seq<Octet>, q: nat, p: nat)
    requires FindInRun(m, from, w, q).Some?
    ensures OnRun(m, from, FindInRun(m, from, w, q).value)
    ensures OnRun(m, from, p) && p < FindInRun(m, from, w, q).value ==> !Matches(m, p, w, q)
    decreases |m| - from
  {
    if !Matches(m, from, w, q) {
      FindInRunFirst(m, from + m[from] + 1, w, q, p);
    } else {
      OnRunAfter(m, from, p);
    }
  }

  lemma {:induction false} OnRunAfter(m: seq<Octet>, from: nat, p: nat)
    ensures OnRun(m, from, p) ==> from <= p
    decreases |m| - from
  {
    if OnRun(m, from, p) && p != from { OnRunAfter(m, from + m[from] + 1, p); }
  }

  /**
   What is found matches and can be pointed to; no label of an earlier name of the table matches,
   and none that comes before it in its own.
   */
  lemma {:induction false} FindFirst(m: seq<Octet>, table: seq<nat>, i: nat, w: seq<Octet>, q: nat) returns (k: nat)
    requires FindFrom(m, table, i, w, q).Some?
    ensures
      var l := FindFrom(m, table, i, w, q).value;
      && i <= k < |table| && OnRun(m, table[k], l) && Matches(m, l, w, q)
      && (forall p: nat :: OnRun(m, table[k], p) && p < l ==> !Matches(m, p, w, q))
      && (forall j, p: nat :: i <= j < k && OnRun(m, table[j], p) ==> !Matches(m, p, w, q))
    decreases |table| - i
  {
    if FindInRun(m, table[i], w, q).Some? {
      k := i;
      FindInRunFirst(m, table[i], w, q, table[i]);
      forall p: nat ensures OnRun(m, table[i], p) && p < FindInRun(m, table[i], w, q).value ==> !Matches(m, p, w, q) {
        FindInRunFirst(m, table[i], w, q, p);
      }
    } else {
      k := FindFirst(m, table, i + 1, w, q);
      forall p: nat | OnRun(m, table[i], p) ensures !Matches(m, p, w, q) { FindInRunComplete(m, table[i], w, q, p); }
    }
  }

  /** dn_find succeeds exactly when some label it may point to matches. */
  lemma FindIff(m: seq<Octet>, table: seq<nat>, w: seq<Octet>, q: nat)
    ensures FindFrom(m, table, 0, w, q).Some? <==> exists p: nat :: Pointable(m, table, p) && Matches(m, p, w, q)
  {
    var r := FindFrom(m, table, 0, w, q);
    if r.Some? {
      var k := FindFirst(m, table, 0, w, q);
      assert Pointable(m, table, r.value);
    }
    forall p: nat | Pointable(m, table, p) && Matches(m, p, w, q) ensures r.Some? {
      var k :| 0 <= k < |table| && OnRun(m, table[k], p);
      if r.None? { FindComplete(m, table, 0, w, q, k, p); }
    }
  }
}
