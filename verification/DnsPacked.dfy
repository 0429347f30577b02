/** Names as ns_name_pack leaves them in a message, and the uncompressed names it takes. */
module DnsPacked {
  import opened Octets
  import opened DnsNames

  /** The octets from `q` on are one uncompressed name: labels of 1 to 63 octets and the root, with nothing after. */
  ghost predicate IsName(w: seq<Octet>, q: nat)
    decreases |w| - q
  {
    q < |w| && if w[q] == 0 then q + 1 == |w| else w[q] < 0x40 && IsName(w, q + w[q] + 1)
  }

  lemma WireCons(w: seq<Octet>, dn: nat)
    requires IsName(w, dn) && w[dn] != 0
    ensures w[dn] < 0x40 && dn + 1 + w[dn] < |w| && IsName(w, dn + 1 + w[dn])
    ensures w[dn..] == [w[dn]] + (w[dn + 1..dn + 1 + w[dn]] + w[dn + 1 + w[dn]..])
  {}

  /**
   What ns_name_pack leaves in a message: ordinary labels, and pointers that lead to a label of
   the message as it was before the run holding the pointer began.
   */
  ghost predicate Packed(m: seq<Octet>, start: nat, p: nat)
    requires start <= p
    decreases |m|, |m| - p
  {
    match At(m, p)
    case Root => true
    case Label(n) => m[p] < 0x40 && Packed(m, start, p + n)
    case Pointer(t) => t < start && 1 <= m[t] < 0x40 && Packed(m[..start], t, t)
    case Malformed => false
  }

  /** The name a packed name stands for. */
  ghost function Name(m: seq<Octet>, start: nat, p: nat): (w: seq<Octet>)
    requires start <= p && Packed(m, start, p)
    ensures |w| >= 1
    decreases |m|, |m| - p
  {
    match At(m, p)
    case Root => [0]
    case Label(n) => m[p..p + n] + Name(m, start, p + n)
    case Pointer(t) => Name(m[..start], t, t)
  }

  lemma {:induction false} PackedExtend(m: seq<Octet>, m2: seq<Octet>, start: nat, p: nat)
    requires start <= p && m <= m2 && Packed(m, start, p)
    ensures Packed(m2, start, p) && Name(m2, start, p) == Name(m, start, p)
    decreases |m| - p
  {
    AtExtend(m, m2, p);
    match At(m, p)
    case Root =>
    case Label(n) =>
      PackedExtend(m, m2, start, p + n);
      assert m2[p..p + n] == m[p..p + n];
    case Pointer(t) => assert m2[..start] == m[..start];
  }

  lemma {:induction false} PackedSuffix(m: seq<Octet>, start: nat, later: nat, p: nat)
    requires start <= later <= p && Packed(m, start, p)
    ensures Packed(m, later, p) && Name(m, later, p) == Name(m, start, p)
    decreases |m| - p
  {
    match At(m, p)
    case Root =>
    case Label(n) => PackedSuffix(m, start, later, p + n);
    case Pointer(t) => PackedExtend(m[..start], m[..later], t, t);
  }

  /** A packed name is a nested one, and the message denotes it. */
  lemma {:induction false} PackedDenotes(m: seq<Octet>, start: nat, p: nat)
    requires start <= p && Packed(m, start, p)
    ensures Nested(m, start, p) && Denotes(m, p, |m|) && Wire(m, p, |m|) == Name(m, start, p)
    decreases |m|, |m| - p
  {
    match At(m, p)
    case Root =>
    case Label(n) => PackedDenotes(m, start, p + n);
    case Pointer(t) =>
      PackedDenotes(m[..start], t, t);
      DenotesExtend(m[..start], m, t, start);
      DenotesMonotone(m, t, start, |m| - 1);
  }

  lemma {:induction false} FirstOctet(m: seq<Octet>, start: nat, p: nat)
    requires start <= p && Packed(m, start, p)
    ensures Name(m, start, p)[0] < 0x40 && (Name(m, start, p)[0] == 0 <==> m[p] == 0)
  {
    if At(m, p).Label? {
      assert Name(m, start, p) == m[p..p + At(m, p).size] + Name(m, start, p + At(m, p).size);
    } else if At(m, p).Pointer? {
      var t := At(m, p).target;
      assert Name(m, start, p) == Name(m[..start], t, t);
      assert At(m[..start], t).Label?;
      assert Name(m[..start], t, t)[0] == m[t];
    }
  }
}
