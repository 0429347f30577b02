/** The intrusive circular doubly linked list of dread_chain.c, each operation proved on the sequence it holds. */
module Chain {
  import opened Basics

  /** struct dthr_chain; `owner` stands for the structure that begins with this link. */
  class Link {
    var prev: Link
    var next: Link
    const owner: int

    /** dthr_chain_init on a fresh link */
    constructor (owner: int)
      ensures Ring(this, []) && this.owner == owner
    {
      this.owner := owner;
      prev, next := this, this;
    }
  }

  /** The anchor, its elements in order, and the anchor again. */
  ghost function Around(anchor: Link, s: seq<Link>): seq<Link>
  {
    [anchor] + s + [anchor]
  }

  /** Following `next` from the anchor meets exactly `s`, and `prev` leads back the same way. */
  ghost predicate Ring(anchor: Link, s: seq<Link>)
    reads anchor, s
  {
    && anchor !in s && Distinct(s)
    && forall i :: 0 <= i <= |s| ==> Joined(Around(anchor, s)[i], Around(anchor, s)[i + 1])
  }

  ghost predicate Joined(a: Link, b: Link)
    reads a, b
  {
    a.next == b && b.prev == a
  }

  lemma AroundDistinct(anchor: Link, s: seq<Link>)
    requires anchor !in s && Distinct(s)
    ensures forall j, k :: 0 <= j < k <= |s| ==> Around(anchor, s)[j] != Around(anchor, s)[k]
    ensures forall j, k :: 1 <= j < k <= |s| + 1 ==> Around(anchor, s)[j] != Around(anchor, s)[k]
  {
    var c := Around(anchor, s);
    assert forall j :: 1 <= j <= |s| ==> c[j] == s[j - 1];
  }

  /** dthr_chain_init */
  method Init(anchor: Link)
    modifies anchor
    ensures Ring(anchor, [])
  {
    anchor.prev, anchor.next := anchor, anchor;
  }

  /** dthr_chain_empty */
  method Empty(anchor: Link, ghost s: seq<Link>) returns (empty: bool)
    requires Ring(anchor, s)
    ensures empty <==> s == []
  {
    assert Joined(Around(anchor, s)[0], Around(anchor, s)[1]);
    return anchor.next == anchor;
  }

  function Without<T>(s: seq<T>, i: nat): seq<T>
    requires i < |s|
  {
    s[..i] + s[i + 1..]
  }

  lemma AroundWithout(anchor: Link, s: seq<Link>, i: nat)
    requires i < |s|
    ensures
      var c, c' := Around(anchor, s), Around(anchor, Without(s, i));
      |c'| == |c| - 1 && forall k :: 0 <= k < |c'| ==> c'[k] == if k <= i then c[k] else c[k + 1]
  {
  }

  /** The sequence with one more link at `i`. */
  function With<T>(s: seq<T>, i: nat, x: T): seq<T>
    requires i <= |s|
  {
    s[..i] + [x] + s[i..]
  }

  lemma AroundWith(anchor: Link, s: seq<Link>, i: nat, x: Link)
    requires i <= |s|
    ensures
      var c, c' := Around(anchor, s), Around(anchor, With(s, i, x));
      |c'| == |c| + 1
        && forall k :: 0 <= k < |c'| ==> c'[k] == if k <= i then c[k] else if k == i + 1 then x else c[k - 1]
  {
  }

  /** dthr_chain_delete: the link leaves its ring and is alone in its own. */
  method Delete(link: Link, ghost anchor: Link, ghost s: seq<Link>, ghost i: nat) returns (r: Link)
    requires Ring(anchor, s) && i < |s| && s[i] == link
    modifies anchor, s
    ensures r == link && Ring(link, []) && Ring(anchor, Without(s, i))
  {
    ghost var c := Around(anchor, s);
    assert Joined(c[i], c[i + 1]) && Joined(c[i + 1], c[i + 2]);
    link.prev.next := link.next;
    link.next.prev := link.prev;
    link.prev, link.next := link, link;
    ghost var s' := Without(s, i);
    ghost var c' := Around(anchor, s');
    AroundDistinct(anchor, s);
    AroundWithout(anchor, s, i);
    forall k | 0 <= k <= |s'| ensures Joined(c'[k], c'[k + 1]) {
      assert old(Joined(c[if k < i then k else k + 1], c[if k < i then k + 1 else k + 2]));
    }
    return link;
  }

  /** dthr_chain_dequeue */
  method Dequeue(anchor: Link, ghost s: seq<Link>) returns (r: Link?)
    requires Ring(anchor, s)
    modifies anchor, s
    ensures s == [] ==> r == null && Ring(anchor, [])
    ensures s != [] ==> r == s[0] && Ring(s[0], []) && Ring(anchor, s[1..])
  {
    var empty := Empty(anchor, s);
    if empty { return null; }
    assert Joined(Around(anchor, s)[0], Around(anchor, s)[1]);
    assert Without(s, 0) == s[1..];
    r := Delete(anchor.next, anchor, s, 0);
  }

  /** dthr_chain_insert_after; `i` is the place of `link`, 0 for the anchor. */
  method InsertAfter(link: Link, newLink: Link, ghost anchor: Link, ghost s: seq<Link>, ghost i: nat) returns (r: Link)
    requires Ring(anchor, s) && i <= |s| && Around(anchor, s)[i] == link && newLink != anchor && newLink !in s
    modifies anchor, s, newLink
    ensures r == link && Ring(anchor, With(s, i, newLink))
  {
    ghost var c := Around(anchor, s);
    assert Joined(c[i], c[i + 1]);
    newLink.next := link.next;
    newLink.prev := link;
    link.next.prev := newLink;
    link.next := newLink;
    ghost var c' := Around(anchor, With(s, i, newLink));
    AroundDistinct(anchor, s);
    AroundWith(anchor, s, i, newLink);
    forall k | 0 <= k <= |s| + 1 ensures Joined(c'[k], c'[k + 1]) {
      assert old(Joined(c[if k <= i then k else k - 1], c[if k <= i then k + 1 else k]));
    }
    return link;
  }

  /** dthr_chain_insert_before; `i` is the place of `link`, |s| for the anchor. */
  method InsertBefore(link: Link, newLink: Link, ghost anchor: Link, ghost s: seq<Link>, ghost i: nat) returns (r: Link)
    requires Ring(anchor, s) && i <= |s| && Around(anchor, s)[i + 1] == link && newLink != anchor && newLink !in s
    modifies anchor, s, newLink
    ensures r == link && Ring(anchor, With(s, i, newLink))
  {
    ghost var c := Around(anchor, s);
    assert Joined(c[i], c[i + 1]);
    newLink.prev := link.prev;
    newLink.next := link;
    link.prev.next := newLink;
    link.prev := newLink;
    ghost var c' := Around(anchor, With(s, i, newLink));
    AroundDistinct(anchor, s);
    AroundWith(anchor, s, i, newLink);
    forall k | 0 <= k <= |s| + 1 ensures Joined(c'[k], c'[k + 1]) {
      assert old(Joined(c[if k <= i then k else k - 1], c[if k <= i then k + 1 else k]));
    }
    return link;
  }
}
