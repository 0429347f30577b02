/**
 Domain names in a DNS message: what the octets at a position denote, with compression
 pointers (section 4.1.4 of RFC 1035), independently of how the resolver walks them.
 */
module DnsNames {
  import opened Basics
  import opened Octets

  const MAX_CD_NAME := 255
  const MAX_OFFSET := 0x4000

  /** What stands at one position of a message. A label's size includes its header. */
  datatype Piece = Root | Label(size: nat) | Pointer(target: nat) | Malformed

  /** The piece at `p`; a label counts only when an octet of the message follows it. */
  function At(m: seq<Octet>, p: nat): (r: Piece)
    ensures r.Label? ==> 2 <= r.size && p + r.size < |m|
    ensures r.Pointer? ==> p + 1 < |m| && r.target < |m|
    ensures r.Root? ==> p < |m| && m[p] == 0
  {
    if p >= |m| then Malformed
    else if m[p] == 0 then Root
    else if p + 1 >= |m| then Malformed
    else if m[p] < 0x40 then
      if p + m[p] + 1 < |m| then Label(m[p] + 1) else Malformed
    else if m[p] == 0x41 then
      if p + 2 + m[p + 1] / 8 < |m| then Label(2 + m[p + 1] / 8) else Malformed
    else if m[p] >= 0xC0 then
      var high: int, low: int := m[p], m[p + 1];
      var target := (high - 0xC0) * 256 + low;
      if target < |m| then Pointer(target) else Malformed
    else Malformed
  }

  /** A name is found at `p`, following at most `hops` pointers. */
  ghost predicate Denotes(m: seq<Octet>, p: nat, hops: nat)
    decreases hops, |m| - p
  {
    match At(m, p)
    case Root => true
    case Label(n) => Denotes(m, p + n, hops)
    case Pointer(t) => hops > 0 && Denotes(m, t, hops - 1)
    case Malformed => false
  }

  /** The uncompressed wire form of the name at `p`. */
  ghost function Wire(m: seq<Octet>, p: nat, hops: nat): (w: seq<Octet>)
    requires Denotes(m, p, hops)
    ensures |w| >= 1
    decreases hops, |m| - p
  {
    match At(m, p)
    case Root => [0]
    case Label(n) => m[p..p + n] + Wire(m, p + n, hops)
    case Pointer(t) => Wire(m, t, hops - 1)
  }

  /** Octets visited up to and including the last pointer followed; 0 when no pointer is met. */
  ghost function Walked(m: seq<Octet>, p: nat, hops: nat): nat
    requires Denotes(m, p, hops)
    decreases hops, |m| - p
  {
    match At(m, p)
    case Root => 0
    case Label(n) => var rest := Walked(m, p + n, hops); if rest == 0 then 0 else n + rest
    case Pointer(t) => 2 + Walked(m, t, hops - 1)
  }

  /** Length of the name's own octets at `p`: up to the root octet or the first pointer, both included. */
  function OwnLength(m: seq<Octet>, p: nat): nat
    decreases |m| - p
  {
    match At(m, p)
    case Root => 1
    case Label(n) => n + OwnLength(m, p + n)
    case _ => 2
  }

  /**
   The name at `p` belongs to a label run that began at `start`, and every pointer leads into
   the message as it was before the run holding the pointer began. Such a name can be read
   without any count of pointers.
   */
  ghost predicate Nested(m: seq<Octet>, start: nat, p: nat)
    requires start <= p
    decreases |m|, |m| - p
  {
    match At(m, p)
    case Root => true
    case Label(n) => Nested(m, start, p + n)
    case Pointer(t) => t < start && Nested(m[..start], t, t)
    case Malformed => false
  }

  /** A piece is not changed by the octets that follow it in a longer message. */
  lemma AtExtend(m: seq<Octet>, m2: seq<Octet>, p: nat)
    requires m <= m2 && !At(m, p).Malformed?
    ensures At(m2, p) == At(m, p)
  {}

  /** More pointers allowed never changes a name already denoted. */
  lemma {:induction false} DenotesMonotone(m: seq<Octet>, p: nat, hops: nat, more: nat)
    requires Denotes(m, p, hops) && hops <= more
    ensures Denotes(m, p, more) && Wire(m, p, more) == Wire(m, p, hops)
    decreases hops, |m| - p
  {
    match At(m, p)
    case Root =>
    case Label(n) => DenotesMonotone(m, p + n, hops, more);
    case Pointer(t) => DenotesMonotone(m, t, hops - 1, more - 1);
  }

  /** A denoted name is unchanged by whatever follows in a longer message. */
  lemma {:induction false} DenotesExtend(m: seq<Octet>, m2: seq<Octet>, p: nat, hops: nat)
    requires m <= m2 && Denotes(m, p, hops)
    ensures Denotes(m2, p, hops) && Wire(m2, p, hops) == Wire(m, p, hops)
    decreases hops, |m| - p
  {
    AtExtend(m, m2, p);
    match At(m, p)
    case Root =>
    case Label(n) =>
      DenotesExtend(m, m2, p + n, hops);
      assert m[p..p + n] == m2[p..p + n];
    case Pointer(t) => DenotesExtend(m, m2, t, hops - 1);
  }

  /** A nested name is unchanged by whatever follows it in the message. */
  lemma {:induction false} NestedExtend(m: seq<Octet>, m2: seq<Octet>, start: nat, p: nat)
    requires start <= p && m <= m2 && Nested(m, start, p)
    ensures Nested(m2, start, p)
    decreases |m| - p
  {
    AtExtend(m, m2, p);
    match At(m, p)
    case Root =>
    case Label(n) => NestedExtend(m, m2, start, p + n);
    case Pointer(t) => assert m2[..start] == m[..start];
  }

  /** A suffix of a nested name is itself a nested name. */
  lemma {:induction false} NestedSuffix(m: seq<Octet>, start: nat, later: nat, p: nat)
    requires start <= later <= p && Nested(m, start, p)
    ensures Nested(m, later, p)
    decreases |m| - p
  {
    match At(m, p)
    case Root =>
    case Label(n) => NestedSuffix(m, start, later, p + n);
    case Pointer(t) => NestedExtend(m[..start], m[..later], t, t);
  }

  /** A nested name is denoted, with fewer pointers than the message has octets. */
  lemma {:induction false} NestedDenotes(m: seq<Octet>, start: nat, p: nat)
    requires start <= p && Nested(m, start, p)
    ensures Denotes(m, p, |m|)
    decreases |m|, |m| - p
  {
    match At(m, p)
    case Root =>
    case Label(n) => NestedDenotes(m, start, p + n);
    case Pointer(t) =>
      NestedDenotes(m[..start], t, t);
      DenotesExtend(m[..start], m, t, start);
      DenotesMonotone(m, t, start, |m| - 1);
  }

  /** The position reached after following `k` pointers from `p`, if that many are met. */
  function Follow(m: seq<Octet>, p: nat, k: nat): Option<nat>
    decreases k, |m| - p
  {
    if k == 0 then Some(p) else
    match At(m, p)
    case Label(n) => Follow(m, p + n, k)
    case Pointer(t) => Follow(m, t, k - 1)
    case _ => None
  }

  /** Where the pointers lead, the rest of the name is denoted with that many fewer hops. */
  lemma {:induction false} FollowDenotes(m: seq<Octet>, p: nat, k: nat, hops: nat)
    requires Follow(m, p, k).Some? && Denotes(m, p, hops)
    ensures k <= hops && Denotes(m, Follow(m, p, k).value, hops - k)
    decreases k, |m| - p
  {
    if k > 0 {
      match At(m, p)
      case Label(n) => FollowDenotes(m, p + n, k, hops);
      case Pointer(t) => FollowDenotes(m, t, k - 1, hops - 1);
    }
  }

  lemma {:induction false} LoopDenotesNothing(m: seq<Octet>, p: nat, k: nat, hops: nat)
    requires k > 0 && Follow(m, p, k) == Some(p)
    ensures !Denotes(m, p, hops)
    decreases hops
  {
    if Denotes(m, p, hops) {
      FollowDenotes(m, p, k, hops);
      LoopDenotesNothing(m, p, k, hops - k);
    }
  }

  /** A name whose pointers come back to where they already were denotes nothing. */
  lemma CycleDenotesNothing(m: seq<Octet>, p: nat, into: nat, k: nat, hops: nat)
    requires Follow(m, p, into).Some?
    requires k > 0 && Follow(m, Follow(m, p, into).value, k) == Follow(m, p, into)
    ensures !Denotes(m, p, hops)
  {
    if Denotes(m, p, hops) {
      FollowDenotes(m, p, into, hops);
      LoopDenotesNothing(m, Follow(m, p, into).value, k, hops - into);
    }
  }
}
