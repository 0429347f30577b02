/**
 get_build_order and get_dependencies of partition.py: the packages that some packages need, each
 after those it depends on.
 */
module BuildOrder {
  import opened Basics

  type Name = string

  /** The DEPENDS of every package; packages depend on packages of lower rank, so there is no cycle. */
  ghost predicate Ranked(depends: map<Name, seq<Name>>, rank: map<Name, nat>)
  {
    forall p, i :: p in depends && 0 <= i < |depends[p]| ==>
      p in rank && depends[p][i] in depends && depends[p][i] in rank && rank[depends[p][i]] < rank[p]
  }

  ghost predicate Below(depends: map<Name, seq<Name>>, rank: map<Name, nat>, ps: seq<Name>, bound: nat)
  {
    forall i :: 0 <= i < |ps| ==> ps[i] in depends && Rank(rank, ps[i]) < bound
  }

  ghost function Rank(rank: map<Name, nat>, p: Name): nat
  {
    if p in rank then rank[p] else 0
  }

  lemma DependsBelow(depends: map<Name, seq<Name>>, rank: map<Name, nat>, p: Name)
    requires Ranked(depends, rank) && p in depends
    ensures Below(depends, rank, depends[p], Rank(rank, p))
  {
  }

  // ----- what is needed -----

  /** A package and all it needs, directly or not. */
  ghost function Needs(depends: map<Name, seq<Name>>, rank: map<Name, nat>, p: Name): set<Name>
    requires Ranked(depends, rank) && p in depends
    decreases Rank(rank, p) + 1, 0
  {
    DependsBelow(depends, rank, p);
    {p} + NeedsAll(depends, rank, depends[p], Rank(rank, p))
  }

  ghost function NeedsAll(depends: map<Name, seq<Name>>, rank: map<Name, nat>, ps: seq<Name>, bound: nat): set<Name>
    requires Ranked(depends, rank) && Below(depends, rank, ps, bound)
    decreases bound, |ps| + 1
  {
    if ps == [] then {} else Needs(depends, rank, ps[0]) + NeedsAll(depends, rank, ps[1..], bound)
  }

  lemma {:induction false} NeedsAllMember(depends: map<Name, seq<Name>>, rank: map<Name, nat>, ps: seq<Name>,
      bound: nat, q: Name)
    requires Ranked(depends, rank) && Below(depends, rank, ps, bound)
    ensures q in NeedsAll(depends, rank, ps, bound) <==> exists i :: 0 <= i < |ps| && q in Needs(depends, rank, ps[i])
    decreases |ps|
  {
    if ps != [] {
      NeedsAllMember(depends, rank, ps[1..], bound, q);
      if q in NeedsAll(depends, rank, ps[1..], bound) {
        var i :| 0 <= i < |ps[1..]| && q in Needs(depends, rank, ps[1..][i]);
        assert ps[i + 1] == ps[1..][i];
      }
      forall i | 0 <= i < |ps| && q in Needs(depends, rank, ps[i]) ensures q in NeedsAll(depends, rank, ps, bound) {
        if i > 0 { assert ps[1..][i - 1] == ps[i]; }
      }
    }
  }

  /** What a needed package needs is needed too, and is of no higher rank. */
  lemma {:induction false} NeedsTransitive(depends: map<Name, seq<Name>>, rank: map<Name, nat>, p: Name, q: Name)
    requires Ranked(depends, rank) && p in depends && q in Needs(depends, rank, p)
    ensures q in depends && Needs(depends, rank, q) <= Needs(depends, rank, p)
    ensures q != p ==> Rank(rank, q) < Rank(rank, p)
    decreases Rank(rank, p)
  {
    if q != p {
      DependsBelow(depends, rank, p);
      NeedsAllMember(depends, rank, depends[p], Rank(rank, p), q);
      var i :| 0 <= i < |depends[p]| && q in Needs(depends, rank, depends[p][i]);
      NeedsTransitive(depends, rank, depends[p][i], q);
      forall x | x in Needs(depends, rank, q) ensures x in Needs(depends, rank, p) {
        NeedsAllMember(depends, rank, depends[p], Rank(rank, p), x);
      }
    }
  }

  // ----- the order -----

  function Add(rtn: seq<Name>, x: Name): seq<Name>
  {
    if x in rtn then rtn else rtn + [x]
  }

  function Extend(rtn: seq<Name>, xs: seq<Name>): seq<Name>
    decreases |xs|
  {
    if xs == [] then rtn else Extend(Add(rtn, xs[0]), xs[1..])
  }

  /** get_build_order([p]) */
  ghost function One(depends: map<Name, seq<Name>>, rank: map<Name, nat>, p: Name): seq<Name>
    requires Ranked(depends, rank) && p in depends
    decreases Rank(rank, p) + 1, 0
  {
    DependsBelow(depends, rank, p);
    Add(Merge(depends, rank, depends[p], Rank(rank, p), []), p)
  }

  /** The loop over the dependencies of one package, with `rtn` already in the list. */
  ghost function Merge(depends: map<Name, seq<Name>>, rank: map<Name, nat>, ds: seq<Name>, bound: nat,
      rtn: seq<Name>): seq<Name>
    requires Ranked(depends, rank) && Below(depends, rank, ds, bound)
    decreases bound, |ds| + 1
  {
    if ds == [] then rtn else Merge(depends, rank, ds[1..], bound, Extend(rtn, One(depends, rank, ds[0])))
  }

  /** get_build_order, with `rtn` already in the list. */
  ghost function Order(depends: map<Name, seq<Name>>, rank: map<Name, nat>, ps: seq<Name>, rtn: seq<Name>): seq<Name>
    requires Ranked(depends, rank) && forall i :: 0 <= i < |ps| ==> ps[i] in depends
    decreases |ps|
  {
    if ps == [] then rtn
    else
      DependsBelow(depends, rank, ps[0]);
      Order(depends, rank, ps[1..], Add(Merge(depends, rank, depends[ps[0]], Rank(rank, ps[0]), rtn), ps[0]))
  }

  /** No name twice, and every package after those it depends on. */
  ghost predicate Sorted(depends: map<Name, seq<Name>>, s: seq<Name>)
  {
    && Distinct(s) && (forall i :: 0 <= i < |s| ==> s[i] in depends)
    && forall i, k :: 0 <= i < |s| && 0 <= k < |depends[s[i]]| ==> depends[s[i]][k] in s[..i]
  }

  function Names(s: seq<Name>): set<Name> { set x | x in s }

  lemma AddSorted(depends: map<Name, seq<Name>>, rtn: seq<Name>, x: Name)
    requires Sorted(depends, rtn) && x in depends && forall k :: 0 <= k < |depends[x]| ==> depends[x][k] in rtn
    ensures Sorted(depends, Add(rtn, x)) && Names(Add(rtn, x)) == Names(rtn) + {x}
  {
    var s := Add(rtn, x);
    if x !in rtn {
      forall i, k | 0 <= i < |s| && 0 <= k < |depends[s[i]]| ensures depends[s[i]][k] in s[..i] {
        if i < |rtn| { assert s[..i] == rtn[..i]; } else { assert s[..i] == rtn; }
      }
    }
  }

  /** The part `pre` of a sorted list is in already; the rest `xs` may follow. */
  lemma {:induction false} ExtendSorted(depends: map<Name, seq<Name>>, rtn: seq<Name>, pre: seq<Name>, xs: seq<Name>)
    requires Sorted(depends, rtn) && Sorted(depends, pre + xs) && Names(pre) <= Names(rtn)
    ensures Sorted(depends, Extend(rtn, xs)) && Names(Extend(rtn, xs)) == Names(rtn) + Names(xs)
    decreases |xs|
  {
    if xs != [] {
      var all, n := pre + xs, |pre|;
      assert all[n] == xs[0] && all[..n] == pre;
      forall k | 0 <= k < |depends[xs[0]]| ensures depends[xs[0]][k] in rtn {
        assert depends[all[n]][k] in all[..n];
        assert depends[xs[0]][k] in Names(pre);
      }
      AddSorted(depends, rtn, xs[0]);
      assert pre + [xs[0]] + xs[1..] == all;
      ExtendSorted(depends, Add(rtn, xs[0]), pre + [xs[0]], xs[1..]);
      assert Names(xs) == {xs[0]} + Names(xs[1..]);
    }
  }

  lemma {:induction false} OneSorted(depends: map<Name, seq<Name>>, rank: map<Name, nat>, p: Name)
    requires Ranked(depends, rank) && p in depends
    ensures Sorted(depends, One(depends, rank, p)) && Names(One(depends, rank, p)) == Needs(depends, rank, p)
    decreases Rank(rank, p) + 1, 0
  {
    DependsBelow(depends, rank, p);
    MergeSorted(depends, rank, depends[p], Rank(rank, p), []);
    DepsIn(depends, rank, p, Merge(depends, rank, depends[p], Rank(rank, p), []));
    AddSorted(depends, Merge(depends, rank, depends[p], Rank(rank, p), []), p);
  }

  /** Once all a package needs is listed, its own dependencies are. */
  lemma DepsIn(depends: map<Name, seq<Name>>, rank: map<Name, nat>, p: Name, s: seq<Name>)
    requires Ranked(depends, rank) && p in depends && Below(depends, rank, depends[p], Rank(rank, p))
    requires NeedsAll(depends, rank, depends[p], Rank(rank, p)) <= Names(s)
    ensures forall k :: 0 <= k < |depends[p]| ==> depends[p][k] in s
  {
    forall k | 0 <= k < |depends[p]| ensures depends[p][k] in s {
      NeedsAllMember(depends, rank, depends[p], Rank(rank, p), depends[p][k]);
      assert depends[p][k] in Needs(depends, rank, depends[p][k]);
      assert depends[p][k] in Names(s);
    }
  }

  lemma {:induction false} MergeSorted(depends: map<Name, seq<Name>>, rank: map<Name, nat>, ds: seq<Name>, bound: nat,
      rtn: seq<Name>)
    requires Ranked(depends, rank) && Below(depends, rank, ds, bound) && Sorted(depends, rtn)
    ensures Sorted(depends, Merge(depends, rank, ds, bound, rtn))
    ensures Names(Merge(depends, rank, ds, bound, rtn)) == Names(rtn) + NeedsAll(depends, rank, ds, bound)
    decreases bound, |ds| + 1
  {
    if ds != [] {
      OneSorted(depends, rank, ds[0]);
      assert [] + One(depends, rank, ds[0]) == One(depends, rank, ds[0]);
      ExtendSorted(depends, rtn, [], One(depends, rank, ds[0]));
      MergeSorted(depends, rank, ds[1..], bound, Extend(rtn, One(depends, rank, ds[0])));
    }
  }

  /** What the packages `ps` need. */
  ghost function NeededBy(depends: map<Name, seq<Name>>, rank: map<Name, nat>, ps: seq<Name>): set<Name>
    requires Ranked(depends, rank) && forall i :: 0 <= i < |ps| ==> ps[i] in depends
    decreases |ps|
  {
    if ps == [] then {} else Needs(depends, rank, ps[0]) + NeededBy(depends, rank, ps[1..])
  }

  /** The build order of some packages lists what they need, each package once and after its dependencies. */
  lemma {:induction false} OrderSorted(depends: map<Name, seq<Name>>, rank: map<Name, nat>, ps: seq<Name>,
      rtn: seq<Name>)
    requires Ranked(depends, rank) && (forall i :: 0 <= i < |ps| ==> ps[i] in depends) && Sorted(depends, rtn)
    ensures Sorted(depends, Order(depends, rank, ps, rtn))
    ensures Names(Order(depends, rank, ps, rtn)) == Names(rtn) + NeededBy(depends, rank, ps)
    decreases |ps|
  {
    if ps != [] {
      var p := ps[0];
      DependsBelow(depends, rank, p);
      MergeSorted(depends, rank, depends[p], Rank(rank, p), rtn);
      var s := Merge(depends, rank, depends[p], Rank(rank, p), rtn);
      DepsIn(depends, rank, p, s);
      AddSorted(depends, s, p);
      OrderSorted(depends, rank, ps[1..], Add(s, p));
    }
  }

  // ----- the loops -----

  /** The names of `xs` that are not in the list join it. */
  method AddAll(rtn: seq<Name>, xs: seq<Name>) returns (r: seq<Name>)
    ensures r == Extend(rtn, xs)
  {
    r := rtn;
    assert xs[0..] == xs;
    for i := 0 to |xs|
      invariant Extend(r, xs[i..]) == Extend(rtn, xs)
    {
      assert xs[i..][1..] == xs[i + 1..];
      if xs[i] !in r { r := r + [xs[i]]; }
    }
  }

  /** get_build_order */
  method GetBuildOrder(depends: map<Name, seq<Name>>, ghost rank: map<Name, nat>, projects: seq<Name>, ghost bound: nat)
    returns (rtn: seq<Name>)
    requires Ranked(depends, rank) && Below(depends, rank, projects, bound)
    ensures rtn == Order(depends, rank, projects, [])
    decreases bound, 0
  {
    rtn := [];
    assert projects[0..] == projects;
    for i := 0 to |projects|
      invariant Order(depends, rank, projects[i..], rtn) == Order(depends, rank, projects, [])
    {
      assert projects[i..][1..] == projects[i + 1..];
      DependsBelow(depends, rank, projects[i]);
      rtn := AddDependencies(depends, rank, depends[projects[i]], Rank(rank, projects[i]), rtn);
      if projects[i] !in rtn { rtn := rtn + [projects[i]]; }
    }
  }

  /** The loop over the dependencies of one package. */
  method AddDependencies(depends: map<Name, seq<Name>>, ghost rank: map<Name, nat>, ds: seq<Name>, ghost bound: nat,
      start: seq<Name>)
    returns (rtn: seq<Name>)
    requires Ranked(depends, rank) && Below(depends, rank, ds, bound)
    ensures rtn == Merge(depends, rank, ds, bound, start)
    decreases bound, 1
  {
    rtn := start;
    assert ds[0..] == ds;
    for i := 0 to |ds|
      invariant Merge(depends, rank, ds[i..], bound, rtn) == Merge(depends, rank, ds, bound, start)
    {
      assert ds[i..][1..] == ds[i + 1..];
      var ordered := GetBuildOrder(depends, rank, [ds[i]], Rank(rank, ds[i]) + 1);
      OneIsOrder(depends, rank, ds[i]);
      rtn := AddAll(rtn, ordered);
    }
  }

  lemma OneIsOrder(depends: map<Name, seq<Name>>, rank: map<Name, nat>, p: Name)
    requires Ranked(depends, rank) && p in depends
    ensures Order(depends, rank, [p], []) == One(depends, rank, p)
  {
    assert [p][1..] == [];
  }

  /** get_dependencies */
  method GetDependencies(depends: map<Name, seq<Name>>, ghost rank: map<Name, nat>, projects: seq<Name>,
      ghost bound: nat) returns (deps: set<Name>)
    requires Ranked(depends, rank) && Below(depends, rank, projects, bound)
    ensures deps == NeededBy(depends, rank, projects) - Names(projects)
  {
    var order := GetBuildOrder(depends, rank, projects, bound);
    OrderSorted(depends, rank, projects, []);
    deps := Names(order) - Names(projects);
  }
}
