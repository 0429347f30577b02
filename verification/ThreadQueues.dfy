/** The queues of the scheduler in memory: one ring of thread links behind each anchor. */
module ThreadQueues {
  import opened Basics
  import opened Chain
  import opened Threads

  class Queues {
    /** The anchors of the run queue, the new-thread queue and the queue of every semaphore and event. */
    const anchors: map<QueueId, Link>
    /** The link that each thread structure begins with. */
    const links: map<nat, Link>
    ghost var held: map<QueueId, seq<nat>>

    ghost function Cells(): set<Link>
    {
      anchors.Values + links.Values
    }

    lemma NotACell(o: object)
      requires !(o is Link)
      ensures o !in Cells()
    {
    }

    /** No two structures share a link, and the link of a thread leads back to it. */
    ghost predicate Separate()
    {
      && (forall q, r :: q in anchors && r in anchors && anchors[q] == anchors[r] ==> q == r)
      && (forall t :: t in links ==> links[t].owner == t)
      && (forall q, t :: q in anchors && t in links ==> anchors[q] != links[t])
    }

    ghost function LinksOf(s: seq<nat>): (r: seq<Link>)
      requires forall t :: t in s ==> t in links
      ensures |r| == |s| && forall i :: 0 <= i < |s| ==> r[i] == links[s[i]]
    {
      seq(|s|, i requires 0 <= i < |s| => links[s[i]])
    }

    /** A thread is in at most one queue. */
    ghost predicate Exclusive(held: map<QueueId, seq<nat>>)
    {
      && held.Keys == anchors.Keys
      && (forall q, t :: q in held && t in held[q] ==> t in links)
      && (forall q, r, t :: q in held && r in held && t in held[q] && t in held[r] ==> q == r)
    }

    /** The ring behind the anchor of `q` is that of the threads `s`. */
    ghost predicate Chained(q: QueueId, s: seq<nat>)
      requires q in anchors && forall t :: t in s ==> t in links
      reads Cells()
    {
      Ring(anchors[q], LinksOf(s))
    }

    ghost predicate Valid()
      reads this, Cells()
    {
      Separate() && Exclusive(held) && forall q :: q in held ==> Chained(q, held[q])
    }

    lemma PushExclusive(held: map<QueueId, seq<nat>>, q: QueueId, t: nat)
      requires Exclusive(held) && q in held && t in links && forall r :: r in held ==> t !in held[r]
      ensures Exclusive(held[q := held[q] + [t]])
    {
    }

    lemma PopExclusive(held: map<QueueId, seq<nat>>, q: QueueId)
      requires Exclusive(held) && q in held && held[q] != []
      ensures Exclusive(held[q := held[q][1..]])
    {
    }

    /** The links of the ring that holds the threads `s` behind the anchor of `q`. */
    ghost function RingCells(q: QueueId, s: seq<nat>): set<Link>
      requires q in anchors && forall t :: t in s ==> t in links
    {
      {anchors[q]} + set t | t in s :: links[t]
    }

    /** The rings of two queues share no link. */
    lemma RingsApart(held: map<QueueId, seq<nat>>, q: QueueId, r: QueueId)
      requires Separate() && Exclusive(held) && q in held && r in held && q != r
      ensures
        var c := Around(anchors[r], LinksOf(held[r]));
        forall i :: 0 <= i < |c| ==> c[i] in Cells() && c[i] !in RingCells(q, held[q])
    {
      var c := Around(anchors[r], LinksOf(held[r]));
      forall i | 0 <= i < |c| ensures c[i] in Cells() && c[i] !in RingCells(q, held[q]) {
        if 0 < i <= |held[r]| {
          assert held[r][i - 1] in held[r];
          assert c[i].owner == held[r][i - 1];
        }
      }
    }

    /** Changing the links of one queue leaves the rings of the others as they were. */
    twostate lemma OthersUntouched(q: QueueId)
      requires Separate() && Exclusive(held) && old(Valid()) && q in held
      requires forall r :: r in held && r != q ==> held[r] == old(held[r])
      requires forall c :: c in Cells() && c !in RingCells(q, old(held[q])) && c !in RingCells(q, held[q]) ==>
        c.prev == old(c.prev) && c.next == old(c.next)
      ensures forall r :: r in held && r != q ==> Chained(r, held[r])
    {
      forall r | r in held && r != q ensures Chained(r, held[r]) {
        var c := Around(anchors[r], LinksOf(held[r]));
        RingsApart(old(held), q, r);
        RingsApart(held, q, r);
        assert old(Chained(r, held[r]));
        forall i | 0 <= i <= |held[r]| ensures Joined(c[i], c[i + 1]) {
          assert old(Joined(c[i], c[i + 1]));
        }
      }
    }

    /** The threads' links are given, and no thread waits anywhere. */
    constructor (ids: set<QueueId>, anchors: map<QueueId, Link>, links: map<nat, Link>)
      requires anchors.Keys == ids
      requires forall q, r :: q in anchors && r in anchors && anchors[q] == anchors[r] ==> q == r
      requires forall t :: t in links ==> links[t].owner == t
      requires forall q, t :: q in anchors && t in links ==> anchors[q] != links[t]
      requires forall q :: q in anchors ==> Ring(anchors[q], [])
      ensures Valid() && this.anchors == anchors && this.links == links && held == map q | q in ids :: []
    {
      this.anchors, this.links := anchors, links;
      held := map q | q in ids :: [];
    }

    /** The ring of one queue, with the thread added. */
    method ChainTail(q: QueueId, t: nat)
      requires Valid() && q in held && t in links && t !in held[q]
      modifies RingCells(q, held[q] + [t])
      ensures Chained(q, held[q] + [t])
    {
      ghost var s := LinksOf(held[q]);
      ghost var n := |s|;
      assert Around(anchors[q], s)[n + 1] == anchors[q];
      assert With(s, n, links[t]) == LinksOf(held[q] + [t]);
      forall i | 0 <= i < n ensures s[i] in RingCells(q, held[q] + [t]) && s[i] != links[t] {
        assert held[q][i] in held[q];
        assert s[i].owner == held[q][i];
      }
      var _ := InsertBefore(anchors[q], links[t], anchors[q], s, n);
    }

    /** The ring of one queue, without its head. */
    method UnchainHead(q: QueueId) returns (link: Link?)
      requires Valid() && q in held
      modifies RingCells(q, held[q])
      ensures held[q] == [] ==> link == null && Chained(q, held[q])
      ensures held[q] != [] ==> link == links[held[q][0]] && Chained(q, held[q][1..])
    {
      ghost var s := LinksOf(held[q]);
      forall i | 0 <= i < |s| ensures s[i] in RingCells(q, held[q]) {
        assert held[q][i] in held[q];
      }
      if held[q] != [] { assert s[1..] == LinksOf(held[q][1..]); }
      link := Chain.Dequeue(anchors[q], s);
    }

    /** DREAD_THREAD_CHAIN_EMPTY */
    method Empty(q: QueueId) returns (empty: bool)
      requires Valid() && q in held
      ensures empty <==> held[q] == []
    {
      empty := Chain.Empty(anchors[q], LinksOf(held[q]));
    }

    /** dthr_chain_enqueue of a thread's link: the thread joins the tail. */
    method Enqueue(q: QueueId, t: nat)
      requires Valid() && q in held && t in links && forall r :: r in held ==> t !in held[r]
      modifies this`held, Cells()
      ensures Valid() && held == old(held)[q := old(held[q]) + [t]]
    {
      ChainTail(q, t);
      PushExclusive(held, q, t);
      held := held[q := held[q] + [t]];
      OthersUntouched(q);
    }

    /** No queue holds `t`. */
    ghost predicate Free(t: nat)
      reads this
    {
      forall q :: q in held ==> t !in held[q]
    }

    /** Once the head of a queue has left it, no queue holds it. */
    lemma HeadFree(h: map<QueueId, seq<nat>>, q: QueueId)
      requires Separate() && Exclusive(h) && q in h && Chained(q, h[q]) && h[q] != []
      ensures
        var h' := h[q := h[q][1..]];
        forall r :: r in h' ==> h[q][0] !in h'[r]
    {
      var s := LinksOf(h[q]);
      forall i | 1 <= i < |h[q]| ensures h[q][i] != h[q][0] {
        assert s[0] != s[i];
      }
      assert h[q][0] in h[q];
    }

    /** DREAD_THREAD_CHAIN_DEQUEUE, and the thread that begins with the link. */
    method Dequeue(q: QueueId) returns (r: Option<nat>)
      requires Valid() && q in held
      modifies this`held, Cells()
      ensures Valid()
      ensures old(held[q]) == [] ==> r == None && held == old(held)
      ensures old(held[q]) != [] ==>
        r == Some(old(held[q])[0]) && held == old(held)[q := old(held[q])[1..]] && Free(r.value)
    {
      if held[q] != [] { HeadFree(held, q); }
      var link := UnchainHead(q);
      if link == null {
        OthersUntouched(q);
        return None;
      }
      PopExclusive(held, q);
      held := held[q := held[q][1..]];
      OthersUntouched(q);
      return Some(link.owner);
    }

    /** The head of `q`, if there is one, goes to the tail of `r`. */
    method Move(q: QueueId, r: QueueId) returns (t: Option<nat>)
      requires Valid() && q in held && r in held && q != r
      modifies this`held, Cells()
      ensures Valid()
      ensures old(held[q]) == [] ==> t == None && held == old(held)
      ensures old(held[q]) != [] ==>
        t == Some(old(held[q])[0]) && held == old(held)[q := old(held[q])[1..]][r := old(held[r]) + [old(held[q])[0]]]
    {
      t := Dequeue(q);
      if t.Some? { Enqueue(r, t.value); }
    }

    /** The head of `q` leaves it and `t` joins its tail; nothing happens when it is empty. */
    method Rotate(q: QueueId, t: nat) returns (next: Option<nat>)
      requires Valid() && q in held && t in links && Free(t)
      modifies this`held, Cells()
      ensures Valid()
      ensures old(held[q]) == [] ==> next == None && held == old(held)
      ensures old(held[q]) != [] ==> next == Some(old(held[q])[0]) && held == old(held)[q := old(held[q])[1..] + [t]]
    {
      if held[q] != [] { StaysFree(held, q, t); }
      next := Dequeue(q);
      if next.Some? { Enqueue(q, t); }
    }

    lemma StaysFree(h: map<QueueId, seq<nat>>, q: QueueId, t: nat)
      requires q in h && h[q] != [] && forall r :: r in h ==> t !in h[r]
      ensures
        var h' := h[q := h[q][1..]];
        (forall r :: r in h' ==> t !in h'[r]) && h'[q := h'[q] + [t]] == h[q := h[q][1..] + [t]]
    {
    }
  }
}
