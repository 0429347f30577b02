/** fts_open, fts_read and fts_close over linked nodes that are allocated and freed. */
module FtsStreams {
  import opened Basics
  import opened TreeWalk

  /** FTSENT; `id` is the file that fts_accpath names, whose device and inode are those of the node. */
  class FtsEnt {
    var link: FtsEnt?
    var parent: FtsEnt?
    var level: int
    var info: Info
    var id: Id
    var name: string
    var pathlen: nat

    /** fts_alloc */
    constructor (name: string, id: Id)
      ensures this.name == name && this.id == id && forall x: FtsEnt | AnyEnt(x) :: fresh(x) ==> x == this
    {
      this.name, this.id := name, id;
      link, parent := null, null;
    }
  }

  /** True of every node: the term that statements about all allocated nodes are matched by. */
  ghost predicate AnyEnt(x: FtsEnt)
  {
    true
  }

  const ROOT_PARENT_LEVEL := -1
  const ROOT_LEVEL := 0

  /** A node of depth `d` below `parent` and before `next`. */
  ghost predicate Hangs(n: FtsEnt, d: int, parent: FtsEnt, next: FtsEnt?)
    reads n
  {
    n.level == d && n.parent == parent && n.link == next
  }

  function NextIn(s: seq<FtsEnt>, i: nat): FtsEnt?
  {
    if i + 1 < |s| then s[i + 1] else null
  }

  /** `s` is a list of siblings of depth `d` below `parent`. */
  ghost predicate Siblings(s: seq<FtsEnt>, d: int, parent: FtsEnt)
    reads s
  {
    Distinct(s) && forall i :: 0 <= i < |s| ==> Hangs(s[i], d, parent, NextIn(s, i))
  }

  /** The parent of the nodes of depth `d`. */
  function ParentAt(top: FtsEnt, levels: seq<seq<FtsEnt>>, d: nat): FtsEnt
    requires d <= |levels|
  {
    if d == 0 || levels[d - 1] == [] then top else levels[d - 1][0]
  }

  ghost predicate LevelHung(top: FtsEnt, levels: seq<seq<FtsEnt>>, live: set<FtsEnt>, d: nat)
    requires d < |levels|
    reads live
  {
    levels[d] != [] && (forall i :: 0 <= i < |levels[d]| ==> levels[d][i] in live)
      && Siblings(levels[d], d, ParentAt(top, levels, d))
  }

  ghost function NodesOf(s: seq<FtsEnt>): set<FtsEnt>
  {
    set n | n in s
  }

  ghost function NodesIn(levels: seq<seq<FtsEnt>>): set<FtsEnt>
  {
    if levels == [] then {} else NodesOf(levels[|levels| - 1]) + NodesIn(levels[..|levels| - 1])
  }

  /** The allocated nodes are those on the way to the current node, their right siblings and the parent of the roots. */
  ghost predicate Hung(top: FtsEnt, levels: seq<seq<FtsEnt>>, live: set<FtsEnt>)
    reads live
  {
    && top in live && top.level == ROOT_PARENT_LEVEL
    && (forall d :: 0 <= d < |levels| ==> LevelHung(top, levels, live, d))
    && live == {top} + NodesIn(levels)
  }

  /** The node shows what `w` says; one not yet loaded keeps the whole argument as its name. */
  ghost predicate Agrees(n: FtsEnt, w: Node, loaded: bool)
    reads n
  {
    && n.id == w.id && n.info == w.info
    && if loaded then n.name == w.name && n.pathlen == |w.path| else n.name == w.path && w.name == Base(w.path)
  }

  /** Below the roots every node is loaded, and of the roots the first. */
  datatype Loaded = Nothing | First | All

  ghost predicate AgreeAll(s: seq<FtsEnt>, w: seq<Node>, loaded: Loaded)
    reads s
  {
    |s| == |w| && forall i :: 0 <= i < |s| ==> Agrees(s[i], w[i], loaded.All? || (loaded.First? && i == 0))
  }

  ghost predicate Shows(levels: seq<seq<FtsEnt>>, walk: Levels, known: set<FtsEnt>)
    reads known
  {
    && |levels| == |walk| && (forall d :: 0 <= d < |walk| ==> walk[d] != [])
    && (forall d, i :: 0 <= d < |levels| && 0 <= i < |levels[d]| ==> levels[d][i] in known)
    && forall d :: 0 <= d < |levels| ==> AgreeAll(levels[d], walk[d], if d > 0 then All else First)
  }

  /** The nodes, and what they show. */
  ghost predicate Placed(tree: Tree, top: FtsEnt, levels: seq<seq<FtsEnt>>, walk: Levels, live: set<FtsEnt>)
    reads live
  {
    && Hung(top, levels, live) && Shows(levels, walk, live) && LevelsOk(tree, walk) && PathsOk(walk)
    && levels != [] && levels[|levels| - 1] != [] && |levels| == |walk|
  }

  /** The same as one fact. */
  ghost predicate Stand(tree: Tree, top: FtsEnt, levels: seq<seq<FtsEnt>>, walk: Levels, live: set<FtsEnt>)
    reads live
  {
    var stand := Placed(tree, top, levels, walk, live);
    stand
  }

  /** A list without its first node. */
  lemma SiblingsTail(s: seq<FtsEnt>, d: int, parent: FtsEnt)
    requires Siblings(s, d, parent) && s != []
    ensures Siblings(s[1..], d, parent) && s[0] !in s[1..]
  {
    forall i | 0 <= i < |s[1..]| ensures Hangs(s[1..][i], d, parent, NextIn(s[1..], i)) {
      assert Hangs(s[i + 1], d, parent, NextIn(s, i + 1));
    }
  }

  lemma LevelOf(top: FtsEnt, levels: seq<seq<FtsEnt>>, live: set<FtsEnt>, d: nat, i: nat)
    requires d < |levels| && LevelHung(top, levels, live, d) && i < |levels[d]|
    ensures levels[d][i] in live && Hangs(levels[d][i], d, ParentAt(top, levels, d), NextIn(levels[d], i))
  {
  }

  /** A level survives when the freed node is not on it. */
  lemma LevelStays(top: FtsEnt, levels: seq<seq<FtsEnt>>, live: set<FtsEnt>, d: nat, levels': seq<seq<FtsEnt>>,
      gone: FtsEnt)
    requires d < |levels| && LevelHung(top, levels, live, d) && gone.level != d
    requires d < |levels'| && levels'[d] == levels[d] && ParentAt(top, levels', d) == ParentAt(top, levels, d)
    ensures LevelHung(top, levels', live - {gone}, d)
  {
    forall i | 0 <= i < |levels[d]| ensures levels[d][i] in live - {gone} { LevelOf(top, levels, live, d, i); }
  }

  /** The levels without the current node. */
  function Along<T>(levels: seq<seq<T>>): seq<seq<T>>
    requires levels != [] && levels[|levels| - 1] != []
  {
    levels[..|levels| - 1] + [levels[|levels| - 1][1..]]
  }

  lemma AlongLast(top: FtsEnt, levels: seq<seq<FtsEnt>>, live: set<FtsEnt>, last: nat)
    requires last == |levels| - 1 && LevelHung(top, levels, live, last) && |levels[last]| > 1
    ensures LevelHung(top, Along(levels), live - {levels[last][0]}, last)
  {
    var levels' := Along(levels);
    assert levels'[last] == levels[last][1..] && ParentAt(top, levels', last) == ParentAt(top, levels, last);
    SiblingsTail(levels[last], last, ParentAt(top, levels, last));
    forall i | 0 <= i < |levels'[last]| ensures levels'[last][i] in live - {levels[last][0]} {
      assert levels'[last][i] == levels[last][i + 1];
    }
  }

  /** A node at the head of a deeper level is not on the levels above. */
  lemma {:induction false} NotAbove(top: FtsEnt, levels: seq<seq<FtsEnt>>, up: seq<seq<FtsEnt>>, live: set<FtsEnt>,
      n: FtsEnt)
    requires |up| <= |levels| && up == levels[..|up|] && n.level >= |up|
    requires forall d :: 0 <= d < |up| ==> LevelHung(top, levels, live, d)
    ensures n !in NodesIn(up)
    decreases |up|
  {
    if up != [] {
      var last := |up| - 1;
      NotAbove(top, levels, up[..last], live, n);
      forall i | 0 <= i < |levels[last]| ensures levels[last][i] != n { LevelOf(top, levels, live, last, i); }
    }
  }

  lemma AlongLevels(top: FtsEnt, levels: seq<seq<FtsEnt>>, live: set<FtsEnt>, last: nat)
    requires last == |levels| - 1 && |levels[last]| > 1
      && forall d :: 0 <= d <= last ==> LevelHung(top, levels, live, d)
    ensures forall d :: 0 <= d <= last ==> LevelHung(top, Along(levels), live - {levels[last][0]}, d)
  {
    AlongLast(top, levels, live, last);
    LevelOf(top, levels, live, last, 0);
    forall d | 0 <= d < last ensures LevelHung(top, Along(levels), live - {levels[last][0]}, d) {
      AlongSame(top, levels, last, d);
      LevelStays(top, levels, live, d, Along(levels), levels[last][0]);
    }
  }

  lemma AlongSame(top: FtsEnt, levels: seq<seq<FtsEnt>>, last: nat, d: nat)
    requires d < last == |levels| - 1 && levels[last] != []
    ensures Along(levels)[d] == levels[d] && ParentAt(top, Along(levels), d) == ParentAt(top, levels, d)
  {
  }

  /** The nodes that are left when the current one is freed. */
  lemma LeftNodes(top: FtsEnt, levels: seq<seq<FtsEnt>>, live: set<FtsEnt>, last: nat)
    requires last == |levels| - 1 && Hung(top, levels, live)
    ensures levels[last] != []
      && live - {levels[last][0]} == {top} + (NodesOf(levels[last][1..]) + NodesIn(levels[..last]))
  {
    assert LevelHung(top, levels, live, last);
    LevelOf(top, levels, live, last, 0);
    NotAbove(top, levels, levels[..last], live, levels[last][0]);
    SiblingsTail(levels[last], last, ParentAt(top, levels, last));
    var s := levels[last];
    assert NodesOf(s) == {s[0]} + NodesOf(s[1..]);
  }

  /** Freeing the current node leaves its right siblings, or the levels above it. */
  lemma AlongHung(top: FtsEnt, levels: seq<seq<FtsEnt>>, live: set<FtsEnt>, last: nat)
    requires last == |levels| - 1 && Hung(top, levels, live) && |levels[last]| > 1
    ensures Hung(top, Along(levels), live - {levels[last][0]})
  {
    LevelOf(top, levels, live, last, 0);
    AlongLevels(top, levels, live, last);
    LeftNodes(top, levels, live, last);
    assert Along(levels)[..last] == levels[..last];
  }

  lemma UpHung(top: FtsEnt, levels: seq<seq<FtsEnt>>, live: set<FtsEnt>, last: nat)
    requires last == |levels| - 1 && Hung(top, levels, live) && |levels[last]| == 1
    ensures Hung(top, levels[..last], live - {levels[last][0]})
  {
    var levels' := levels[..last];
    var cur := levels[last][0];
    LevelOf(top, levels, live, last, 0);
    LeftNodes(top, levels, live, last);
    forall d | 0 <= d < last
      ensures LevelHung(top, levels', live - {cur}, d)
    {
      LevelStays(top, levels, live, d, levels', cur);
    }
  }

  lemma DownLevel(top: FtsEnt, levels: seq<seq<FtsEnt>>, live: set<FtsEnt>, kids: seq<FtsEnt>, d: nat)
    requires d < |levels| && LevelHung(top, levels, live, d)
    ensures LevelHung(top, levels + [kids], live + NodesOf(kids), d)
  {
    assert ParentAt(top, levels + [kids], d) == ParentAt(top, levels, d);
  }

  lemma DownHung(top: FtsEnt, levels: seq<seq<FtsEnt>>, live: set<FtsEnt>, kids: seq<FtsEnt>, parent: FtsEnt)
    requires Hung(top, levels, live) && kids != [] && parent == ParentAt(top, levels, |levels|)
    requires Siblings(kids, |levels|, parent)
    ensures Hung(top, levels + [kids], live + NodesOf(kids))
  {
    var levels' := levels + [kids];
    forall d | 0 <= d < |levels|
      ensures LevelHung(top, levels', live + NodesOf(kids), d)
    {
      DownLevel(top, levels, live, kids, d);
    }
    assert ParentAt(top, levels', |levels|) == parent;
    assert LevelHung(top, levels', live + NodesOf(kids), |levels|);
    assert levels'[..|levels|] == levels;
  }

  lemma OneLevel(top: FtsEnt, s: seq<FtsEnt>)
    requires Hung(top, [], {top}) && s != [] && Siblings(s, 0, top)
    ensures Hung(top, [s], {top} + NodesOf(s))
  {
    DownHung(top, [], {top}, s, top);
    assert [] + [s] == [s];
  }

  /** NAPPEND: where a name is appended to the first `pathlen` characters of the path. */
  function NAppend(path: string, pathlen: nat): nat
    requires 0 < pathlen <= |path|
  {
    if path[pathlen - 1] == '/' then pathlen - 1 else pathlen
  }

  lemma Appends(path: string, parent: string, name: string)
    requires parent != "" && |path| >= |parent| && path[..|parent|] == parent
    ensures path[..NAppend(path, |parent|)] + "/" + name == Join(parent, name)
  {
    assert path[|parent| - 1] == parent[|parent| - 1];
    assert path[..NAppend(path, |parent|)] == Trimmed(parent);
  }

  /** strrchr: where the last slash is. */
  function LastSlash(s: string): (r: int)
    ensures -1 <= r < |s|
    decreases |s|
  {
    if s == "" then -1 else if s[|s| - 1] == '/' then |s| - 1 else LastSlash(s[..|s| - 1])
  }

  lemma {:induction false} AfterLastSlash(s: string)
    ensures AfterSlash(s) == s[LastSlash(s) + 1..]
    decreases |s|
  {
    if s != "" && s[|s| - 1] != '/' {
      AfterLastSlash(s[..|s| - 1]);
      assert s[LastSlash(s) + 1..] == s[..|s| - 1][LastSlash(s) + 1..] + [s[|s| - 1]];
    }
  }

  class Fts {
    const tree: Tree
    var cur: FtsEnt?
    /** fts_path, up to its NUL. */
    var path: string
    var dev: int

    ghost var top: FtsEnt
    ghost var levels: seq<seq<FtsEnt>>
    ghost var walk: Levels
    ghost var live: set<FtsEnt>
    /** The nodes handed to free, in order. */
    ghost var frees: seq<FtsEnt>

    /** fts_open without a comparison routine */
    constructor (tree: Tree, args: seq<Entry>)
      requires ArgsOk(tree, args)
      ensures Valid(args, 0) && this.tree == tree && frees == [] && fresh(live)
      ensures forall x: FtsEnt | AnyEnt(x) :: fresh(x) ==> x in live
    {
      this.tree := tree;
      path := "";
      var parent := new FtsEnt("", Id(0, 0));
      parent.level := ROOT_PARENT_LEVEL;
      top := parent;
      levels, walk, live, frees := [], [], {parent}, [];
      new;
      OpenOn(args, parent);
    }

    method OpenOn(args: seq<Entry>, parent: FtsEnt)
      requires ArgsOk(tree, args) && levels == [] && walk == [] && live == {parent} && frees == []
      requires parent == top && parent.level == ROOT_PARENT_LEVEL
      modifies this
      ensures Valid(args, 0) && frees == [] && parent in live && fresh(live - {parent})
      ensures forall x: FtsEnt | AnyEnt(x) :: fresh(x) ==> x in live
    {
      var root, s := MakeRoots(args, parent);
      var first := NewFirst(root);
      StartAt(first, s, args);
      assert live - {parent} <= NodesOf(s) + {first};
    }

    method NewFirst(root: FtsEnt) returns (first: FtsEnt)
      ensures fresh(first) && first.link == root && first.info == INIT
      ensures forall x: FtsEnt | AnyEnt(x) :: fresh(x) ==> x == first
    {
      first := new FtsEnt("", Id(0, 0));
      first.link := root;
      first.info := INIT;
    }

    /** The node before the roots becomes the current one. */
    method StartAt(first: FtsEnt, ghost s: seq<FtsEnt>, ghost args: seq<Entry>)
      requires ArgsOk(tree, args) && levels == [] && frees == [] && first !in live
      requires Hung(top, [s], live) && s != [] && AgreeAll(s, Roots(tree, args), Nothing) && first.link == s[0]
        && first.info == INIT
      modifies this`cur, this`levels, this`walk, this`live
      ensures Valid(args, 0) && live == old(live) + {first} && frees == []
      ensures forall x: FtsEnt | AnyEnt(x) :: !fresh(x)
    {
      NotANode(live);
      assert live + {first} - {first} == live;
      cur := first;
      levels, walk, live := [s], [Roots(tree, args)], live + {first};
    }

    /** The loop of fts_open: the first `i` arguments have nodes. */
    ghost predicate Rooting(args: seq<Entry>, i: nat, s: seq<FtsEnt>, head: FtsEnt?, tail: FtsEnt?, parent: FtsEnt)
      requires ArgsOk(tree, args) && i <= |args|
      reads this, live, parent, s
    {
      && Growing(s, Roots(tree, args[..i]), tail, 0, parent, {parent}, Nothing) && |s| == i
      && head == (if s == [] then null else s[0]) && walk == [] && levels == []
    }

    /** The nodes of the arguments, linked in their order. */
    method MakeRoots(args: seq<Entry>, parent: FtsEnt) returns (root: FtsEnt, ghost s: seq<FtsEnt>)
      requires ArgsOk(tree, args) && levels == [] && walk == [] && live == {parent} && parent == top
        && parent.level == ROOT_PARENT_LEVEL
      modifies this`live
      ensures Hung(top, [s], live) && s != [] && root == s[0] && AgreeAll(s, Roots(tree, args), Nothing)
      ensures live == {parent} + NodesOf(s) && fresh(NodesOf(s))
      ensures forall x: FtsEnt | AnyEnt(x) :: fresh(x) ==> x in live
    {
      var head, tail;
      head, tail, s := ListRoots(args, parent);
      RootsHung(args, s, head, tail, parent);
      root := head;
    }

    /** The whole list of roots hangs below their parent. */
    lemma RootsHung(args: seq<Entry>, s: seq<FtsEnt>, head: FtsEnt?, tail: FtsEnt?, parent: FtsEnt)
      requires ArgsOk(tree, args) && parent == top && Rooting(args, |args|, s, head, tail, parent)
      ensures Hung(top, [s], live) && s != [] && head == s[0] && AgreeAll(s, Roots(tree, args), Nothing)
      ensures live == {parent} + NodesOf(s)
    {
      assert args[..|args|] == args;
      OneLevel(top, s);
    }

    /** The loop of fts_open over the arguments. */
    method ListRoots(args: seq<Entry>, parent: FtsEnt) returns (head: FtsEnt?, tail: FtsEnt?, ghost s: seq<FtsEnt>)
      requires ArgsOk(tree, args) && Rooting(args, 0, [], null, null, parent)
      modifies this`live
      ensures Rooting(args, |args|, s, head, tail, parent) && forall n :: n in s ==> fresh(n)
      ensures forall x: FtsEnt | AnyEnt(x) :: fresh(x) ==> x in live
    {
      head, tail, s := null, null, [];
      for i := 0 to |args|
        invariant Rooting(args, i, s, head, tail, parent)
        invariant forall n :: n in s ==> fresh(n)
        invariant forall x: FtsEnt | AnyEnt(x) :: fresh(x) ==> x in live
      {
        head, tail, s := MakeRoot(args, i, parent, head, tail, s);
      }
    }

    /** One argument: "." and ".." are real directories here. */
    method MakeRoot(args: seq<Entry>, i: nat, parent: FtsEnt, head: FtsEnt?, tail: FtsEnt?, ghost s: seq<FtsEnt>)
      returns (head': FtsEnt, n: FtsEnt, ghost s': seq<FtsEnt>)
      requires ArgsOk(tree, args) && i < |args| && Rooting(args, i, s, head, tail, parent)
      modifies this`live, set t | t in s && t == tail
      ensures Rooting(args, i + 1, s', head', n, parent) && old(live) <= live
        && forall m :: m in s' ==> m in s || fresh(m)
      ensures forall x: FtsEnt | AnyEnt(x) :: fresh(x) ==> x in live
    {
      n := AddRoot(args[i], parent, tail, s, Roots(tree, args[..i]));
      s' := s + [n];
      head' := if head == null then n else head;
      RootsUpTo(tree, args, i);
    }

    method AddRoot(e: Entry, parent: FtsEnt, tail: FtsEnt?, ghost s: seq<FtsEnt>, ghost nodes: seq<Node>)
      returns (n: FtsEnt)
      requires Growing(s, nodes, tail, 0, parent, {parent}, Nothing) && walk == [] && levels == []
        && e.id in tree.inodes
      modifies this`live, set t | t in s && t == tail
      ensures fresh(n) && live == old(live) + {n}
        && Growing(s + [n], nodes + [RootNode(tree, e)], n, 0, parent, {parent}, Nothing)
      ensures forall x: FtsEnt | AnyEnt(x) :: fresh(x) ==> x in live
    {
      NotANode({parent} + NodesOf(s));
      n := NewRoot(e, parent);
      AddToList(n, RootNode(tree, e), parent, tail, s, nodes, {parent}, 0, Nothing);
    }

    method NewRoot(e: Entry, parent: FtsEnt) returns (n: FtsEnt)
      requires parent == top && Hung(top, [], {parent}) && walk == [] && levels == [] && e.id in tree.inodes
        && parent in live
      ensures fresh(n) && Hangs(n, 0, parent, null) && Agrees(n, RootNode(tree, e), false)
      ensures forall x: FtsEnt | AnyEnt(x) :: fresh(x) ==> x == n
    {
      n := new FtsEnt(e.name, e.id);
      n.level := ROOT_LEVEL;
      n.parent := parent;
      n.info := FtsStat(n, 0, {parent});
      if n.info == DOT { n.info := D; }
      n.link := null;
    }

    lemma NotANode(s: set<FtsEnt>)
      ensures this as object !in s
    {
    }

    /** free: a node is freed only while it is allocated, and may hold anything afterwards. */
    method Free(p: FtsEnt)
      requires p in live
      modifies this`live, this`frees, p
      ensures live == old(live) - {p} && frees == old(frees) + [p]
      ensures forall x: FtsEnt | AnyEnt(x) :: !fresh(x)
    {
      live, frees := live - {p}, frees + [p];
    }

    /** The nodes show what `walk` says of them. */
    ghost predicate Mirrored(known: set<FtsEnt>)
      reads this, known
    {
      Shows(levels, walk, known)
    }

    /** `t` is the parent of the nodes of depth `e`. */
    ghost predicate IsParent(known: set<FtsEnt>, e: nat, t: FtsEnt)
      requires e <= |walk| == |levels| && (e > 0 ==> walk[e - 1] != [])
      reads this, t
    {
      t == ParentAt(top, levels, e) && t in known && t.level == e - 1
      && (e > 0 ==> t.id == walk[e - 1][0].id && t.parent == ParentAt(top, levels, e - 1))
    }

    lemma ParentKnown(known: set<FtsEnt>, e: nat)
      requires Hung(top, levels, known) && Mirrored(known) && e <= |levels|
      ensures IsParent(known, e, ParentAt(top, levels, e))
    {
      if e > 0 {
        LevelOf(top, levels, known, e - 1, 0);
        assert AgreeAll(levels[e - 1], walk[e - 1], if e - 1 > 0 then All else First);
      }
    }

    /** A list of nodes of depth `d` being built, `tail` its last. */
    ghost predicate Growing(kids: seq<FtsEnt>, nodes: seq<Node>, tail: FtsEnt?, d: nat, parent: FtsEnt,
        known: set<FtsEnt>, loaded: Loaded)
      reads this, live, known, kids
    {
      && Hung(top, levels, known) && d <= |levels| && parent == ParentAt(top, levels, d)
      && Siblings(kids, d, parent) && AgreeAll(kids, nodes, loaded)
      && (if kids == [] then tail == null else tail == kids[|kids| - 1])
      && live == known + NodesOf(kids) && forall n :: n in kids ==> n !in known
    }

    /** The end of the loops that build a list: `n` comes after `tail`. */
    method Attach(n: FtsEnt, ghost w: Node, tail: FtsEnt?, ghost kids: seq<FtsEnt>, ghost nodes: seq<Node>,
        ghost d: nat, ghost parent: FtsEnt, ghost loaded: Loaded)
      requires Siblings(kids, d, parent) && AgreeAll(kids, nodes, loaded) && !loaded.First?
      requires if kids == [] then tail == null else tail == kids[|kids| - 1]
      requires n !in kids && Hangs(n, d, parent, null) && Agrees(n, w, loaded.All?)
      modifies set t | t in kids && t == tail
      ensures Siblings(kids + [n], d, parent) && AgreeAll(kids + [n], nodes + [w], loaded)
      ensures forall x: FtsEnt | AnyEnt(x) :: !fresh(x)
    {
      if tail != null { tail.link := n; }
      ghost var all := kids + [n];
      forall i | 0 <= i < |all| ensures Hangs(all[i], d, parent, NextIn(all, i)) {
        if i < |kids| { assert old(Hangs(kids[i], d, parent, NextIn(kids, i))); }
      }
      forall i | 0 <= i < |all| ensures Agrees(all[i], (nodes + [w])[i], loaded.All?) {
        if i < |kids| { assert old(Agrees(kids[i], nodes[i], loaded.All?)); }
      }
    }

    /** fts_load */
    method FtsLoad(p: FtsEnt, ghost w: Node)
      requires p in live && Agrees(p, w, false) && w.path != ""
      modifies this`path, this`dev, p`name, p`pathlen
      ensures Agrees(p, w, true) && path == w.path && dev == w.id.dev
      ensures forall x: FtsEnt | AnyEnt(x) :: !fresh(x)
    {
      p.pathlen := |p.name|;
      path := p.name;
      var cp := LastSlash(p.name);
      AfterLastSlash(p.name);
      if cp >= 0 && (cp != 0 || |p.name| > 1) {
        p.name := p.name[cp + 1..];
      }
      dev := p.id.dev;
    }

    /** fts_stat of a node of depth `d`: a directory is compared with every directory above it. */
    method FtsStat(p: FtsEnt, ghost d: nat, ghost known: set<FtsEnt>) returns (info: Info)
      requires Hung(top, levels, known) && Mirrored(known) && known <= live
      requires d <= |levels| && p.parent == ParentAt(top, levels, d) && p.id in tree.inodes
      ensures info == Stat(tree, p.name, p.id, Line(walk, d))
      ensures forall x: FtsEnt | AnyEnt(x) :: !fresh(x)
    {
      match tree.inodes[p.id] {
        case Leaf(i) => return i;
        case Dir(_) =>
      }
      if IsDot(p.name) { return DOT; }
      ghost var ups := NodesAbove(known, d);
      var cycle := ClosesCycle(p, ups, Line(walk, d));
      return if cycle then DC else D;
    }

    /** The parent of the roots, and the directories on the way down to depth `d`. */
    ghost method NodesAbove(known: set<FtsEnt>, d: nat) returns (ups: seq<FtsEnt>)
      requires Hung(top, levels, known) && Mirrored(known) && d <= |levels|
      ensures |ups| == d + 1 && ups[d] == ParentAt(top, levels, d)
        && forall e :: 0 <= e <= d ==> ups[e] in known && ups[e].level == e - 1
      ensures forall e :: 0 < e <= d ==> ups[e].id == Line(walk, d)[e - 1] && ups[e].parent == ups[e - 1]
      ensures forall x: FtsEnt | AnyEnt(x) :: !fresh(x)
    {
      ParentKnown(known, d);
      if d == 0 { return [top]; }
      ups := NodesAbove(known, d - 1);
      ups := ups + [levels[d - 1][0]];
      assert Line(walk, d) == Line(walk, d - 1) + [walk[d - 1][0].id];
    }

    /**
     The loop of fts_stat over the nodes `ups` above a node, `line` their directories, up to the
     parent of the roots.
     */
    method ClosesCycle(p: FtsEnt, ghost ups: seq<FtsEnt>, ghost line: seq<Id>) returns (cycle: bool)
      requires |ups| == |line| + 1 && p.parent == ups[|line|]
        && forall e :: 0 <= e <= |line| ==> ups[e] in live && ups[e].level == e - 1
      requires forall e :: 0 < e <= |line| ==> ups[e].id == line[e - 1] && ups[e].parent == ups[e - 1]
      ensures cycle <==> p.id in line
      ensures forall x: FtsEnt | AnyEnt(x) :: !fresh(x)
    {
      var t := p.parent;
      ghost var e := |line|;
      while t.level >= ROOT_LEVEL
        invariant 0 <= e <= |line| && t == ups[e] && p.id !in line[e..]
        invariant forall x: FtsEnt | AnyEnt(x) :: !fresh(x)
        decreases e
      {
        assert t in live;
        if p.id == t.id { return true; }
        t := t.parent;
        e := e - 1;
      }
      return false;
    }

    /** What the walk holds between calls: the nodes, what they show, and the path of the current one. */
    ghost predicate Standing()
      reads this, live
    {
      && Stand(tree, top, levels, walk, live)
      && cur == levels[|levels| - 1][0] && path == Current(walk).path && dev == walk[0][0].id.dev
    }

    /** The current node is freed; `lv` are the nodes that are left. */
    method Release(ghost lv: seq<seq<FtsEnt>>, ghost wk: Levels)
      requires cur != null && cur in live && Stand(tree, top, lv, wk, live - {cur})
      modifies this`live, this`frees, cur
      ensures Stand(tree, top, lv, wk, live) && live == old(live) - {cur} && frees == old(frees) + [cur]
      ensures forall x: FtsEnt | AnyEnt(x) :: !fresh(x)
    {
      NotANode(live - {cur});
      Free(cur);
    }

    method Settle(p: FtsEnt, newPath: string, ghost lv: seq<seq<FtsEnt>>, ghost wk: Levels, ghost lf: set<FtsEnt>)
      requires Stand(tree, top, lv, wk, lf) && live == lf
      requires p == lv[|lv| - 1][0] && newPath == Current(wk).path && dev == wk[0][0].id.dev
      modifies this`cur, this`path, this`levels, this`walk
      ensures Standing() && levels == lv && walk == wk
      ensures forall x: FtsEnt | AnyEnt(x) :: !fresh(x)
    {
      NotANode(lf);
      cur, path, levels, walk := p, newPath, lv, wk;
    }

    /** What the loop of fts_build needs to know of the current node and its path `at`. */
    ghost predicate Listing(known: set<FtsEnt>, parent: FtsEnt, at: string)
      reads this, known, parent
    {
      && Hung(top, levels, known) && Mirrored(known) && parent in known && parent == ParentAt(top, levels, |levels|)
      && parent.pathlen == |at| && parent.level == |levels| - 1 && at != ""
    }

    /** A node for one entry of the directory: its path is made and its file looked at. */
    method NewEntry(e: Entry, parent: FtsEnt, len: nat, ghost at: string, ghost known: set<FtsEnt>) returns (n: FtsEnt)
      requires Listing(known, parent, at) && known <= live
      requires e.id in tree.inodes && |path| >= len == |Trimmed(at)| && path[..len] == Trimmed(at)
      modifies this`path
      ensures fresh(n) && path == Join(at, e.name) && Hangs(n, |levels|, parent, null)
      ensures Agrees(n, Node(e.name, e.id, Stat(tree, e.name, e.id, Line(walk, |levels|)), Join(at, e.name)), true)
      ensures forall x: FtsEnt | AnyEnt(x) :: fresh(x) ==> x == n
    {
      n := NameEntry(e, parent, len);
      n.info := FtsStat(n, |levels|, known);
    }

    method NameEntry(e: Entry, parent: FtsEnt, len: nat) returns (n: FtsEnt)
      requires |path| >= len
      modifies this`path
      ensures fresh(n) && path == old(path)[..len] + "/" + e.name && Hangs(n, parent.level + 1, parent, null)
      ensures n.name == e.name && n.id == e.id && n.pathlen == len + 1 + |e.name|
      ensures forall x: FtsEnt | AnyEnt(x) :: fresh(x) ==> x == n
    {
      n := new FtsEnt(e.name, e.id);
      n.level := parent.level + 1;
      n.parent := parent;
      n.pathlen := len + 1 + |e.name|;
      path := path[..len] + "/" + e.name;
      n.link := null;
    }

    method AddEntry(e: Entry, parent: FtsEnt, tail: FtsEnt?, len: nat, ghost at: string, ghost kids: seq<FtsEnt>,
        ghost nodes: seq<Node>, ghost known: set<FtsEnt>) returns (n: FtsEnt)
      requires Listing(known, parent, at) && Growing(kids, nodes, tail, |levels|, parent, known, All)
      requires e.id in tree.inodes && |path| >= len == |Trimmed(at)| && path[..len] == Trimmed(at)
      modifies this`path, this`live, set t | t in kids && t == tail
      ensures fresh(n) && path == Join(at, e.name) && live == old(live) + {n}
      ensures
        var w := Node(e.name, e.id, Stat(tree, e.name, e.id, Line(walk, |levels|)), Join(at, e.name));
        Growing(kids + [n], nodes + [w], n, |levels|, parent, known, All)
      ensures forall x: FtsEnt | AnyEnt(x) :: fresh(x) ==> x in live
    {
      NotANode(known + NodesOf(kids));
      n := NewEntry(e, parent, len, at, known);
      ghost var w := Node(e.name, e.id, n.info, Join(at, e.name));
      AddToList(n, w, parent, tail, kids, nodes, known, |levels|, All);
    }

    method AddToList(n: FtsEnt, ghost w: Node, ghost parent: FtsEnt, tail: FtsEnt?, ghost kids: seq<FtsEnt>,
        ghost nodes: seq<Node>, ghost known: set<FtsEnt>, ghost d: nat, ghost loaded: Loaded)
      requires Growing(kids, nodes, tail, d, parent, known, loaded) && n !in live && !loaded.First?
      requires Hangs(n, d, parent, null) && Agrees(n, w, loaded.All?)
      modifies this`live, set t | t in kids && t == tail
      ensures Growing(kids + [n], nodes + [w], n, d, parent, known, loaded) && live == old(live) + {n}
      ensures forall x: FtsEnt | AnyEnt(x) :: !fresh(x)
    {
      NotANode(known + NodesOf(kids));
      Attach(n, w, tail, kids, nodes, d, parent, loaded);
      live := live + {n};
    }

    /** The loop of fts_build: `kids` and `nodes` are done, the entries from `i` on are not. */
    ghost predicate Building(entries: seq<Entry>, i: nat, at: string, parent: FtsEnt, kids: seq<FtsEnt>,
        nodes: seq<Node>, head: FtsEnt?, tail: FtsEnt?, known: set<FtsEnt>)
      requires forall k :: 0 <= k < |entries| ==> entries[k].id in tree.inodes
      reads this, known, parent, kids, live
    {
      && Listing(known, parent, at) && Growing(kids, nodes, tail, |levels|, parent, known, All)
      && head == (if kids == [] then null else kids[0])
      && i <= |entries| && nodes == Listed(tree, entries[..i], at, Line(walk, |levels|))
      && |path| >= |at| && path[..|at|] == at
    }

    lemma SkipDot(entries: seq<Entry>, i: nat, at: string, parent: FtsEnt, kids: seq<FtsEnt>, nodes: seq<Node>,
        head: FtsEnt?, tail: FtsEnt?, known: set<FtsEnt>)
      requires forall k :: 0 <= k < |entries| ==> entries[k].id in tree.inodes
      requires i < |entries| && IsDot(entries[i].name)
        && Building(entries, i, at, parent, kids, nodes, head, tail, known)
      ensures Building(entries, i + 1, at, parent, kids, nodes, head, tail, known)
    {
      ListedSnoc(tree, entries[..i], entries[i], at, Line(walk, |levels|));
      assert entries[..i] + [entries[i]] == entries[..i + 1];
    }

    lemma ListedNext(entries: seq<Entry>, i: nat, at: string)
      requires forall k :: 0 <= k < |entries| ==> entries[k].id in tree.inodes
      requires i < |entries| && !IsDot(entries[i].name) && |levels| == |walk|
        && forall d :: 0 <= d < |walk| ==> walk[d] != []
      ensures
        var e, line := entries[i], Line(walk, |levels|);
        Listed(tree, entries[..i + 1], at, line)
        == Listed(tree, entries[..i], at, line) + [Node(e.name, e.id, Stat(tree, e.name, e.id, line), Join(at, e.name))]
    {
      ListedSnoc(tree, entries[..i], entries[i], at, Line(walk, |levels|));
      assert entries[..i] + [entries[i]] == entries[..i + 1];
    }

    /** An entry other than "." and "..". */
    method BuildStep(entries: seq<Entry>, i: nat, len: nat, parent: FtsEnt, head: FtsEnt?, tail: FtsEnt?,
        ghost at: string, ghost kids: seq<FtsEnt>, ghost nodes: seq<Node>, ghost known: set<FtsEnt>)
      returns (n: FtsEnt)
      requires forall k :: 0 <= k < |entries| ==> entries[k].id in tree.inodes
      requires Building(entries, i, at, parent, kids, nodes, head, tail, known) && i < |entries| && len == |Trimmed(at)|
      requires !IsDot(entries[i].name)
      modifies this`path, this`live, set t | t in kids && t == tail
      ensures fresh(n) && live == old(live) + {n}
      ensures Building(entries, i + 1, at, parent, kids + [n], Listed(tree, entries[..i + 1], at, Line(walk, |levels|)),
        if head == null then n else head, n, known)
      ensures forall x: FtsEnt | AnyEnt(x) :: fresh(x) ==> x in live
    {
      TrimmedPrefix(path, at);
      ListedNext(entries, i, at);
      JoinExtends(at, entries[i].name);
      n := AddEntry(entries[i], parent, tail, len, at, kids, nodes, known);
    }

    /** One turn of the loop of fts_build: "." and ".." are passed over. */
    method ReadEntry(entries: seq<Entry>, i: nat, len: nat, parent: FtsEnt, head: FtsEnt?, tail: FtsEnt?,
        ghost at: string, ghost kids: seq<FtsEnt>, ghost nodes: seq<Node>, ghost known: set<FtsEnt>)
      returns (head': FtsEnt?, tail': FtsEnt?, ghost kids': seq<FtsEnt>, ghost nodes': seq<Node>)
      requires forall k :: 0 <= k < |entries| ==> entries[k].id in tree.inodes
      requires Building(entries, i, at, parent, kids, nodes, head, tail, known) && i < |entries| && len == |Trimmed(at)|
      modifies this`path, this`live, set t | t in kids && t == tail
      ensures Building(entries, i + 1, at, parent, kids', nodes', head', tail', known)
      ensures old(live) <= live && forall n :: n in kids' ==> n in kids || fresh(n)
      ensures forall x: FtsEnt | AnyEnt(x) :: fresh(x) ==> x in live
    {
      if IsDot(entries[i].name) {
        SkipDot(entries, i, at, parent, kids, nodes, head, tail, known);
        return head, tail, kids, nodes;
      }
      var n := BuildStep(entries, i, len, parent, head, tail, at, kids, nodes, known);
      return if head == null then n else head, n, kids + [n], Listed(tree, entries[..i + 1], at, Line(walk, |levels|));
    }

    /** The loop of fts_build over the entries of a directory; the path is left as it was. */
    method ReadEntries(entries: seq<Entry>, parent: FtsEnt, ghost at: string, ghost known: set<FtsEnt>)
      returns (head: FtsEnt?, ghost kids: seq<FtsEnt>, ghost nodes: seq<Node>)
      requires Listing(known, parent, at) && known == live && path == at
      requires forall k :: 0 <= k < |entries| ==> entries[k].id in tree.inodes
      modifies this`path, this`live
      ensures path == at && nodes == Listed(tree, entries, at, Line(walk, |levels|))
        && head == if kids == [] then null else kids[0]
      ensures live == known + NodesOf(kids) && (forall n :: n in kids ==> fresh(n)) && Hung(top, levels, known)
        && Mirrored(known)
      ensures Siblings(kids, |levels|, parent) && AgreeAll(kids, nodes, All)
      ensures forall x: FtsEnt | AnyEnt(x) :: fresh(x) ==> x in live
    {
      var len := NAppend(path, parent.pathlen);
      var tail: FtsEnt?;
      head, tail, kids, nodes := null, null, [], [];
      for i := 0 to |entries|
        invariant Building(entries, i, at, parent, kids, nodes, head, tail, known)
        invariant forall n :: n in kids ==> fresh(n)
        invariant forall x: FtsEnt | AnyEnt(x) :: fresh(x) ==> x in live
      {
        head, tail, kids, nodes := ReadEntry(entries, i, len, parent, head, tail, at, kids, nodes, known);
      }
      assert entries[..|entries|] == entries;
      path := path[..parent.pathlen];
    }

    /** What hangs where does not depend on what the nodes show. */
    twostate lemma HungKept(known: set<FtsEnt>)
      requires levels == old(levels) && top == old(top) && old(Hung(top, levels, known))
      requires forall n :: n in known ==> n.link == old(n.link) && n.parent == old(n.parent) && n.level == old(n.level)
      ensures Hung(top, levels, known)
    {
      forall d | 0 <= d < |levels| ensures LevelHung(top, levels, known, d) {
        assert old(LevelHung(top, levels, known, d));
        forall i | 0 <= i < |levels[d]| ensures Hangs(levels[d][i], d, ParentAt(top, levels, d), NextIn(levels[d], i)) {
          assert old(Hangs(levels[d][i], d, ParentAt(top, levels, d), NextIn(levels[d], i)));
        }
      }
    }

    /** A level still shows what the walk says once only the current node has changed. */
    twostate lemma LevelPost(d: nat)
      requires levels == old(levels) && d < |levels| == |walk| && cur != null && cur == old(cur) && old(walk) != []
      requires levels[|levels| - 1] != [] && cur == levels[|levels| - 1][0] && |old(walk)| == |walk|
        && old(walk)[|walk| - 1] != []
      requires walk == WithCurrent(old(walk), Current(old(walk)).(info := DP))
      requires old(AgreeAll(levels[d], walk[d], if d > 0 then All else First))
      requires forall i :: 0 <= i < |levels[d]| ==> (levels[d][i] == cur <==> d == |levels| - 1 && i == 0)
      requires forall n :: n in levels[d] ==> n.id == old(n.id) && n.name == old(n.name) && n.pathlen == old(n.pathlen)
      requires forall n :: n in levels[d] ==> n.info == if n == cur then DP else old(n.info)
      ensures AgreeAll(levels[d], walk[d], if d > 0 then All else First)
    {
      forall i | 0 <= i < |levels[d]| ensures Agrees(levels[d][i], walk[d][i], d > 0 || i == 0) {
        assert old(Agrees(levels[d][i], walk[d][i], d > 0 || i == 0));
      }
    }

    lemma OnePlace(d: nat)
      requires d < |levels| && LevelHung(top, levels, live, d) && LevelHung(top, levels, live, |levels| - 1)
      ensures forall i :: 0 <= i < |levels[d]| ==>
        (levels[d][i] == levels[|levels| - 1][0] <==> d == |levels| - 1 && i == 0)
    {
      forall i | 0 <= i < |levels[d]| && levels[d][i] == levels[|levels| - 1][0] ensures d == |levels| - 1 && i == 0 {
        SamePlace(d, i, |levels| - 1);
      }
    }

    lemma OnePlaces()
      requires Hung(top, levels, live) && levels != [] && levels[|levels| - 1] != [] && cur == levels[|levels| - 1][0]
      ensures forall d, i :: 0 <= d < |levels| && 0 <= i < |levels[d]| ==>
        (levels[d][i] == cur <==> d == |levels| - 1 && i == 0)
    {
      forall d | 0 <= d < |levels|
        ensures forall i :: 0 <= i < |levels[d]| ==> (levels[d][i] == cur <==> d == |levels| - 1 && i == 0)
      {
        OnePlace(d);
      }
    }

    /** The current node is shown after what is below it. */
    method MarkPost()
      requires Standing()
      modifies this`walk, cur`info
      ensures Standing() && walk == WithCurrent(old(walk), Current(old(walk)).(info := DP))
      ensures forall x: FtsEnt | AnyEnt(x) :: !fresh(x)
    {
      CurrentChanged(tree, walk, DP);
      CurrentPath(walk, DP);
      MarkNode();
      HungKept(live);
    }

    method MarkNode()
      requires Hung(top, levels, live) && Mirrored(live) && levels != [] && levels[|levels| - 1] != []
        && cur == levels[|levels| - 1][0]
      modifies this`walk, cur`info
      ensures Mirrored(live) && walk == WithCurrent(old(walk), Current(old(walk)).(info := DP))
      ensures forall x: FtsEnt | AnyEnt(x) :: !fresh(x)
    {
      OnePlaces();
      cur.info := DP;
      walk := WithCurrent(walk, Current(walk).(info := DP));
      forall d | 0 <= d < |levels| ensures AgreeAll(levels[d], walk[d], if d > 0 then All else First) { LevelPost(d); }
    }

    /** Nodes of different levels, or at different places of one, are different. */
    lemma SamePlace(d: nat, i: nat, e: nat)
      requires d < |levels| && e < |levels| && LevelHung(top, levels, live, d) && LevelHung(top, levels, live, e)
      requires i < |levels[d]| && levels[d][i] == levels[e][0]
      ensures d == e && i == 0
    {
      LevelOf(top, levels, live, d, i);
      LevelOf(top, levels, live, e, 0);
    }

    /** What the current node tells of its place. */
    lemma CurrentPlace()
      requires Standing()
      ensures
        var last := |levels| - 1;
        && cur in live && Agrees(cur, Current(walk), true)
        && Hangs(cur, last, ParentAt(top, levels, last), NextIn(levels[last], 0))
        && |levels[last]| == |walk[last]| && LevelHung(top, levels, live, last)
    {
      var last := |levels| - 1;
      LevelOf(top, levels, live, last, 0);
      assert AgreeAll(levels[last], walk[last], if last > 0 then All else First);
    }

    /** The current node's path is not empty, and begins with its parent's. */
    lemma ParentPath()
      requires Standing() && |levels| > 1
      ensures
        var parent := levels[|levels| - 2][0];
        var at := walk[|walk| - 2][0].path;
        parent in live && cur.parent == parent && parent.pathlen == |at| && at != "" && |path| >= |at|
          && path[..|at|] == at
    {
      CurrentPlace();
      var up := |levels| - 2;
      LevelOf(top, levels, live, up, 0);
      assert AgreeAll(levels[up], walk[up], if up > 0 then All else First);
      assert PathOk(walk, up) && PathOk(walk, up + 1);
      JoinExtends(walk[up][0].path, Current(walk).name);
    }

    /** A sibling below the roots: the current node is freed and the path ends with the next name. */
    method MoveAlong()
      requires Standing() && cur.info != D && |levels| > 1 && cur.link != null
      modifies this, cur
      ensures Standing() && Moved(walk) == Read(tree, old(walk)) && levels == Along(old(levels))
      ensures live == old(live) - {old(cur)} && frees == old(frees) + [old(cur)]
      ensures forall x: FtsEnt | AnyEnt(x) :: !fresh(x)
    {
      AlongStands();
      AlongPath();
      var p := cur.link;
      ghost var lv, wk := Along(levels), Along(walk);
      Release(lv, wk);
      HeadPlace(tree, top, lv, wk, live);
      path := path[..NAppend(path, p.parent.pathlen)] + "/" + p.name;
      Settle(p, path, lv, wk, live);
    }

    lemma AlongStands()
      requires Standing() && cur.info != D && |levels| > 1 && cur.link != null
      ensures |levels[|levels| - 1]| > 1 && cur.link == levels[|levels| - 1][1] && walk[|walk| - 1] != [] && cur in live
      ensures Stand(tree, top, Along(levels), Along(walk), live - {cur}) && Moved(Along(walk)) == Read(tree, walk)
    {
      CurrentPlace();
      ReadKeeps(tree, walk);
      ReadPaths(tree, walk);
      AlongHung(top, levels, live, |levels| - 1);
      HungIn(top, Along(levels), live - {cur});
      AlongShows(levels, walk, live);
    }

    /** The path with the next sibling's name in place of the current node's. */
    lemma AlongPath()
      requires Standing() && |levels| > 1 && cur.link != null
      ensures |walk[|walk| - 1]| > 1
      ensures
        var at, n := walk[|walk| - 2][0].path, walk[|walk| - 1][1];
        0 < |at| <= |path| && path[..NAppend(path, |at|)] + "/" + n.name == n.path
    {
      CurrentPlace();
      ParentPath();
      NextAgrees(walk[|walk| - 1][1]);
      Appends(path, walk[|walk| - 2][0].path, walk[|walk| - 1][1].name);
    }

    /** The next sibling is loaded, and its path is its parent's and its name. */
    lemma NextAgrees(n: Node)
      requires Standing() && |levels| > 1 && cur.link != null && |walk[|walk| - 1]| > 1 && n == walk[|walk| - 1][1]
      ensures
        var last := |levels| - 1;
        |levels[last]| > 1 && cur.link == levels[last][1] && Agrees(levels[last][1], n, true)
        && Hangs(levels[last][1], last, ParentAt(top, levels, last), NextIn(levels[last], 1))
        && n.path == Join(walk[last - 1][0].path, n.name)
    {
      var last := |levels| - 1;
      CurrentPlace();
      LevelOf(top, levels, live, last, 1);
      assert AgreeAll(levels[last], walk[last], All);
      assert PathOk(walk, last);
    }

    /** fts_load of the first of the roots `s`, which hang and show `w` as before. */
    method LoadFirst(p: FtsEnt, ghost s: seq<FtsEnt>, ghost w: seq<Node>, ghost known: set<FtsEnt>)
      requires Hung(top, [s], known) && s != [] && p == s[0] && p in live && AgreeAll(s, w, Nothing) && w[0].path != ""
      modifies this`path, this`dev, p`name, p`pathlen
      ensures Hung(top, [s], known) && AgreeAll(s, w, First) && path == w[0].path && dev == w[0].id.dev
      ensures forall x: FtsEnt | AnyEnt(x) :: !fresh(x)
    {
      assert Agrees(s[0], w[0], false);
      assert LevelHung(top, [s], known, 0);
      FtsLoad(p, w[0]);
      forall i | 0 <= i < |s| ensures Agrees(s[i], w[i], i == 0) && Hangs(s[i], 0, top, NextIn(s, i)) {
        assert old(Agrees(s[i], w[i], false));
        assert old(Hangs(s[i], 0, top, NextIn(s, i)));
      }
      assert ParentAt(top, [s], 0) == top;
      assert LevelHung(top, [s], known, 0);
    }

    method FreeAndLoad(p: FtsEnt, gone: FtsEnt, ghost s: seq<FtsEnt>, ghost w: seq<Node>, ghost known: set<FtsEnt>)
      requires gone in live && known == live - {gone} && Hung(top, [s], known) && s != [] && p == s[0] && p in known
      requires AgreeAll(s, w, Nothing) && w[0].path != ""
      modifies this`path, this`dev, this`live, this`frees, p`name, p`pathlen, gone
      ensures Hung(top, [s], known) && AgreeAll(s, w, First) && path == w[0].path && dev == w[0].id.dev
      ensures live == known && frees == old(frees) + [gone]
      ensures forall x: FtsEnt | AnyEnt(x) :: !fresh(x)
    {
      NotANode(known);
      Free(gone);
      LoadFirst(p, s, w, known);
    }

    /** The first of the roots that are left becomes the current node, once `gone` is freed. */
    method EnterRoot(p: FtsEnt, gone: FtsEnt, ghost s: seq<FtsEnt>, ghost w: seq<Node>)
      requires gone in live && Hung(top, [s], live - {gone}) && s != [] && p == s[0] && p in live - {gone}
        && AgreeAll(s, w, Nothing)
      requires LevelsOk(tree, [w]) && PathsOk([w]) && w[0].path != ""
      modifies this, p`name, p`pathlen, gone
      ensures Standing() && walk == [w] && live == old(live) - {gone} && frees == old(frees) + [gone]
      ensures forall x: FtsEnt | AnyEnt(x) :: !fresh(x)
    {
      FreeAndLoad(p, gone, s, w, live - {gone});
      RootsStand(top, s, w, live);
      Settle(p, path, [s], [w], live);
    }

    lemma RootsLeft()
      requires Standing() && |levels| == 1 && cur.link != null
      ensures
        var s, w := levels[0][1..], walk[0][1..];
        && |levels[0]| > 1 && Along(levels) == [s] && Along(walk) == [w] && AgreeAll(s, w, Nothing) && Distinct(s)
        && w[0].path != "" && s[0] == cur.link && s[0] in live - {cur} && s[0].level == 0
    {
      CurrentPlace();
      LevelOf(top, levels, live, 0, 1);
      assert AgreeAll(levels[0], walk[0], First);
      assert PathOk(walk, 0);
      var s, w := levels[0][1..], walk[0][1..];
      forall i | 0 <= i < |s| ensures Agrees(s[i], w[i], false) {
        assert Agrees(levels[0][i + 1], walk[0][i + 1], false);
      }
    }

    /** No sibling is left: the current node is freed and its parent shown again. */
    method MoveUp()
      requires Standing() && cur.info != D && |levels| > 1 && cur.link == null
      modifies this, live
      ensures Standing() && Moved(walk) == Read(tree, old(walk))
      ensures live == old(live) - {old(cur)} && frees == old(frees) + [old(cur)]
      ensures forall x: FtsEnt | AnyEnt(x) :: !fresh(x)
    {
      CurrentPlace();
      ParentPath();
      Climb();
      MarkPost();
    }

    method Climb()
      requires Standing() && |levels| > 1 && cur.link == null && |levels[|levels| - 1]| == 1
      modifies this, cur
      ensures Standing() && walk == old(walk)[..|old(walk)| - 1] && cur == old(cur.parent)
      ensures live == old(live) - {old(cur)} && frees == old(frees) + [old(cur)]
      ensures forall x: FtsEnt | AnyEnt(x) :: !fresh(x)
    {
      CurrentPlace();
      ParentPath();
      UpOk(tree, walk);
      UpPath(walk);
      UpHung(top, levels, live, |levels| - 1);
      HungIn(top, levels[..|levels| - 1], live - {cur});
      UpShows(levels, walk, live);
      var p := cur.parent;
      var to := path[..p.pathlen];
      Release(levels[..|levels| - 1], walk[..|walk| - 1]);
      Settle(p, to, levels[..|levels| - 1], walk[..|walk| - 1], live);
    }

    /** The last node: it and the parent of the roots are freed, and nothing is left. */
    method Finish()
      requires Standing() && cur.info != D && |levels| == 1 && cur.link == null
      modifies this, live
      ensures Finished == Read(tree, old(walk)) && cur == null && live == {}
      ensures old(live) == {old(cur), old(top)} && old(cur) != old(top) && frees == old(frees) + [old(cur), old(top)]
      ensures forall x: FtsEnt | AnyEnt(x) :: !fresh(x)
    {
      CurrentPlace();
      LastTwo();
      var p := cur.parent;
      assert p in live && cur in live;
      Free(cur);
      Free(p);
      cur := null;
    }

    lemma LastTwo()
      requires Standing() && |levels| == 1 && cur.link == null
      ensures live == {cur, top} && cur != top && cur.parent == top && |levels[0]| == 1
    {
      CurrentPlace();
      assert NodesIn(levels[..0]) == {};
    }

    /** A directory is entered: its first child is the current node and the path ends with its name. */
    method EnterKids(head: FtsEnt, ghost kids: seq<FtsEnt>, ghost nodes: seq<Node>, ghost known: set<FtsEnt>)
      requires Stand(tree, top, levels, walk, known) && cur == levels[|levels| - 1][0] && cur in known
      requires path == Current(walk).path && dev == walk[0][0].id.dev
      requires live == known + NodesOf(kids) && kids != [] && head == kids[0]
      requires Siblings(kids, |levels|, cur) && AgreeAll(kids, nodes, All)
      requires LevelsOk(tree, walk + [nodes]) && PathsOk(walk + [nodes])
      requires cur.pathlen == |path| && path != ""
      modifies this`path, this`levels, this`walk, this`cur
      ensures Standing() && walk == old(walk) + [nodes]
      ensures forall x: FtsEnt | AnyEnt(x) :: !fresh(x)
    {
      DownHung(top, levels, known, kids, cur);
      DownShows(levels, walk, known, kids, nodes);
      assert PathOk(walk + [nodes], |walk|);
      assert Hangs(kids[0], |levels|, cur, NextIn(kids, 0)) && Agrees(kids[0], nodes[0], true);
      Appends(path, path, nodes[0].name);
      Settle(head, path[..NAppend(path, cur.pathlen)] + "/" + head.name, levels + [kids], walk + [nodes], live);
    }

    /** What the current directory tells of itself. */
    lemma CurrentDir()
      requires Standing() && cur.info == D
      ensures Listing(live, cur, path) && |walk| == |levels| && walk[|walk| - 1] != []
      ensures
        var n := Current(walk);
        && n.info == D && n.id == cur.id && n.path == path && n.id in tree.inodes && tree.inodes[n.id].Dir?
        && Line(walk, |levels|) == Line(walk, |walk| - 1) + [n.id]
        && (walk[0][0].id.dev == Line(walk, |levels|)[0].dev)
    {
      CurrentPlace();
      DirAt(tree, walk);
    }

    /** A directory seen before what is below it: the walk goes down, or the directory is shown again. */
    method MoveDown()
      requires Standing() && cur.info == D
      modifies this, cur`info
      ensures Standing() && Moved(walk) == Read(tree, old(walk))
      ensures old(live) <= live && frees == old(frees) && fresh(live - old(live))
      ensures forall x: FtsEnt | AnyEnt(x) :: fresh(x) ==> x in live
    {
      CurrentDir();
      if tree.xdev && cur.id.dev != dev {
        MarkPost();
        return;
      }
      Build();
    }

    /** The children `kids` of the current directory, as yet apart from the walk. */
    ghost predicate Apart(head: FtsEnt?, kids: seq<FtsEnt>, nodes: seq<Node>, known: set<FtsEnt>)
      reads this, known, kids
    {
      && Stand(tree, top, levels, walk, known) && cur == levels[|levels| - 1][0] && live == known + NodesOf(kids)
      && head == (if kids == [] then null else kids[0]) && Siblings(kids, |levels|, cur) && AgreeAll(kids, nodes, All)
    }

    /** The same as one fact. */
    ghost predicate KidsApart(head: FtsEnt?, kids: seq<FtsEnt>, nodes: seq<Node>, known: set<FtsEnt>)
      reads this, known, kids
    {
      var apart := Apart(head, kids, nodes, known);
      apart
    }

    /** fts_build: the children of the current directory. */
    method BuildList(ghost known: set<FtsEnt>) returns (head: FtsEnt?, ghost kids: seq<FtsEnt>, ghost nodes: seq<Node>)
      requires Standing() && cur.info == D && known == live && !(tree.xdev && cur.id.dev != dev)
      modifies this`path, this`live
      ensures KidsApart(head, kids, nodes, known) && live == known + NodesOf(kids) && fresh(NodesOf(kids))
      ensures path == old(path) && frees == old(frees)
      ensures Read(tree, walk) ==
        Moved(if nodes == [] then WithCurrent(walk, Current(walk).(info := DP)) else walk + [nodes])
      ensures forall x: FtsEnt | AnyEnt(x) :: fresh(x) ==> x in live
    {
      CurrentDir();
      head, kids, nodes := ReadEntries(tree.inodes[cur.id].entries, cur, path, known);
      KidsListed(tree, walk, nodes);
    }

    /** fts_build, and the entry of the first child if there is one. */
    method Build()
      requires Standing() && cur.info == D && !(tree.xdev && cur.id.dev != dev)
      modifies this, cur`info
      ensures Standing() && Moved(walk) == Read(tree, old(walk))
      ensures old(live) <= live && frees == old(frees) && fresh(live - old(live))
      ensures forall x: FtsEnt | AnyEnt(x) :: fresh(x) ==> x in live
    {
      ReadKeeps(tree, walk);
      ReadPaths(tree, walk);
      CurrentDir();
      ghost var known := live;
      var head, kids, nodes := BuildList(live);
      Enter(head, kids, nodes, known);
    }

    /** The first child is the current node; an empty directory is shown again at once. */
    method Enter(head: FtsEnt?, ghost kids: seq<FtsEnt>, ghost nodes: seq<Node>, ghost known: set<FtsEnt>)
      requires KidsApart(head, kids, nodes, known) && cur in known && cur.pathlen == |path| && path != ""
      requires walk != [] && walk[|walk| - 1] != [] && walk[0] != [] && path == Current(walk).path
      requires dev == walk[0][0].id.dev
      requires nodes != [] ==> LevelsOk(tree, walk + [nodes]) && PathsOk(walk + [nodes])
      modifies this`path, this`levels, this`walk, this`cur, cur`info
      ensures Standing() && live == old(live) && frees == old(frees)
      ensures walk == if nodes == [] then WithCurrent(old(walk), Current(old(walk)).(info := DP))
        else old(walk) + [nodes]
      ensures forall x: FtsEnt | AnyEnt(x) :: !fresh(x)
    {
      if head == null {
        assert live == known;
        MarkPost();
      } else {
        EnterKids(head, kids, nodes, known);
      }
    }

    // ----- the calls -----

    /** No node is handed to free twice, or is in use afterwards. */
    ghost predicate Ledger()
      reads this
    {
      live !! NodesOf(frees) && Distinct(frees)
    }

    /** The nodes allocated so far. */
    ghost function Made(): set<FtsEnt>
      reads this
    {
      live + NodesOf(frees)
    }

    /** Before the first call: the roots, not yet loaded, follow a node of no meaning. */
    ghost predicate Opened(args: seq<Entry>)
      reads this, live
    {
      && ArgsOk(tree, args) && walk == [Roots(tree, args)] && |levels| == 1 && levels[0] != [] && cur != null
      && cur in live
      && Hung(top, levels, live - {cur}) && AgreeAll(levels[0], walk[0], Nothing) && cur.link == levels[0][0]
      && cur.info == INIT
    }

    /** The nodes are where the step leads. */
    ghost predicate Arrives(to: Step)
      reads this, live
    {
      match to
      case Finished => cur == null && live == {}
      case Moved(w) => Standing() && walk == w
    }

    /** The same as one fact. */
    ghost predicate Arrived(to: Step)
      reads this, live
    {
      var arrived := Arrives(to);
      arrived
    }

    /** After `k` calls of fts_read on the stream opened on `args`. */
    ghost predicate InOrder(args: seq<Entry>, k: nat)
      reads this, live
    {
      ArgsOk(tree, args) && Ledger() && if k == 0 then Opened(args) else Arrived(AfterReads(tree, args, k))
    }

    /** The same as one fact. */
    ghost predicate Valid(args: seq<Entry>, k: nat)
      reads this, live
    {
      var valid := InOrder(args, k);
      valid
    }

    /** The roots still to be loaded when the next call loads one. */
    lemma RootReady(args: seq<Entry>, k: nat)
      requires Valid(args, k) && cur != null && cur.info != D && cur.link != null && cur.link in live
        && cur.link.level == ROOT_LEVEL
      ensures |levels| == 1 && |walk| == 1 && levels[0] != [] && walk[0] != []
      ensures
        var s := if k == 0 then levels[0] else levels[0][1..];
        var w := if k == 0 then walk[0] else walk[0][1..];
        && cur in live && Hung(top, [s], live - {cur}) && s != [] && cur.link == s[0] && s[0] in live - {cur}
        && AgreeAll(s, w, Nothing) && LevelsOk(tree, [w]) && PathsOk([w]) && w[0].path != ""
        && AfterReads(tree, args, k + 1) == Moved([w])
    {
      if k == 0 {
        RootsReady(tree, args);
        assert levels == [levels[0]] && LevelHung(top, levels, live - {cur}, 0);
      } else {
        CurrentPlace();
        LinkLevel();
        ReadKeeps(tree, walk);
        ReadPaths(tree, walk);
        AlongHung(top, levels, live, 0);
        RootsLeft();
      }
    }

    lemma LinkLevel()
      requires Standing() && cur.link != null
      ensures cur.link in live && cur.link.level == |levels| - 1 && |levels[|levels| - 1]| > 1
    {
      CurrentPlace();
      LevelOf(top, levels, live, |levels| - 1, 1);
    }

    /** What the call that is to come reads of the current node. */
    lemma Cases(args: seq<Entry>, k: nat)
      requires Valid(args, k) && cur != null
      ensures cur in live
        && (k == 0 ==> cur.info != D && cur.link != null && cur.link in live && cur.link.level == ROOT_LEVEL)
      ensures k > 0 ==>
        && Standing() && AfterReads(tree, args, k) == Moved(walk) && AfterReads(tree, args, k + 1) == Read(tree, walk)
        && (cur.link != null ==> cur.link in live && (cur.link.level == ROOT_LEVEL <==> |levels| == 1))
        && cur.parent != null && cur.parent in live && (cur.parent.level == ROOT_PARENT_LEVEL <==> |levels| == 1)
    {
      if k == 0 {
        LevelOf(top, levels, live - {cur}, 0, 0);
      } else {
        CurrentPlace();
        ParentKnown(live, |levels| - 1);
        if cur.link != null { LinkLevel(); }
      }
    }

    /** fts_read on a stream that is not at its end; `gone` are the nodes it frees. */
    method Advance(ghost args: seq<Entry>, ghost k: nat) returns (ghost gone: seq<FtsEnt>)
      requires Valid(args, k) && cur != null
      modifies this, live
      ensures Arrived(AfterReads(tree, args, k + 1))
      ensures frees == old(frees) + gone && |gone| <= 2 && NodesOf(gone) <= old(live) && Distinct(gone)
      ensures if gone == [] then old(live) <= live && fresh(live - old(live)) else live == old(live) - NodesOf(gone)
      ensures forall x: FtsEnt | AnyEnt(x) :: fresh(x) ==> x in live
    {
      Cases(args, k);
      assert cur in live;
      gone := [];
      if cur.info == D {
        MoveDown();
      } else if cur.link != null && cur.link.level == ROOT_LEVEL {
        gone := [cur];
        NextRoot(args, k);
      } else {
        gone := MoveOn();
      }
    }

    /** The next of the roots becomes the current node. */
    method NextRoot(ghost args: seq<Entry>, ghost k: nat)
      requires Valid(args, k) && cur != null && cur.info != D
      requires cur.link != null && cur.link in live && cur.link.level == ROOT_LEVEL
      modifies this, live
      ensures Arrived(AfterReads(tree, args, k + 1))
      ensures live == old(live) - {old(cur)} && frees == old(frees) + [old(cur)]
      ensures forall x: FtsEnt | AnyEnt(x) :: !fresh(x)
    {
      RootReady(args, k);
      ghost var s := if k == 0 then levels[0] else levels[0][1..];
      ghost var w := if k == 0 then walk[0] else walk[0][1..];
      EnterRoot(cur.link, cur, s, w);
    }

    /** The current node is left, below the roots or for good. */
    method MoveOn() returns (ghost gone: seq<FtsEnt>)
      requires Standing() && cur.info != D && (cur.link != null ==> |levels| > 1)
      requires cur.parent != null && cur.parent in live && (cur.parent.level == ROOT_PARENT_LEVEL <==> |levels| == 1)
      modifies this, live
      ensures Arrived(Read(tree, old(walk)))
      ensures frees == old(frees) + gone && 1 <= |gone| <= 2 && NodesOf(gone) <= old(live) && Distinct(gone)
      ensures live == old(live) - NodesOf(gone)
      ensures forall x: FtsEnt | AnyEnt(x) :: !fresh(x)
    {
      gone := [cur];
      if cur.link != null {
        MoveAlong();
      } else if cur.parent.level == ROOT_PARENT_LEVEL {
        gone := [cur, top];
        Finish();
      } else {
        MoveUp();
      }
    }

    /**
     fts_read: call number k + 1 returns node number k of the traversal with its path, and null
     past the end. Nodes are freed while they are allocated and never come back, and none is lost.
     */
    method FtsRead(ghost args: seq<Entry>, ghost k: nat) returns (r: FtsEnt?)
      requires Valid(args, k)
      modifies this, live
      ensures Valid(args, k + 1) && r == cur
      ensures
        var all := Traversal(tree, args);
        if k < |all| then r != null && Agrees(r, all[k], true) && path == all[k].path else r == null && live == {}
      ensures old(frees) <= frees && fresh(live - old(live)) && Made() == old(Made()) + (live - old(live))
      ensures forall x: FtsEnt | AnyEnt(x) :: fresh(x) ==> x in live
    {
      StepOn(args, k);
      Returned(args, k + 1);
      return cur;
    }

    /** What fts_read does to the nodes: nothing at the end. */
    method StepOn(ghost args: seq<Entry>, ghost k: nat)
      requires Valid(args, k)
      modifies this, live
      ensures Valid(args, k + 1)
      ensures old(frees) <= frees && fresh(live - old(live)) && Made() == old(Made()) + (live - old(live))
      ensures forall x: FtsEnt | AnyEnt(x) :: fresh(x) ==> x in live
    {
      ghost var was, before := live, frees;
      if cur != null {
        ghost var gone := Advance(args, k);
        Booked(was, before, live, frees, gone);
      }
    }

    lemma Returned(args: seq<Entry>, k: nat)
      requires Valid(args, k) && k > 0
      ensures
        var all := Traversal(tree, args);
        if k <= |all| then cur != null && Agrees(cur, all[k - 1], true) && path == all[k - 1].path
        else cur == null && live == {}
    {
      ReadsAreTraversal(tree, args, k);
      if AfterReads(tree, args, k).Moved? { CurrentPlace(); }
    }

    /** `p` is where the nodes that are left begin, or the node that stands `before` the roots. */
    ghost predicate Leaving(p: FtsEnt, lv: seq<seq<FtsEnt>>, before: bool)
      reads this, live, p
    {
      if before then p in live && Hung(top, lv, live - {p}) && |lv| == 1 && lv[0] != [] && p.link == lv[0][0]
      else Hung(top, lv, live) && p == ParentAtEnd(top, lv)
    }

    /** The same as one fact, with the books of free. */
    ghost predicate Unwinding(p: FtsEnt, lv: seq<seq<FtsEnt>>, before: bool)
      reads this, live, p
    {
      var unwinding := Leaving(p, lv, before) && Ledger();
      unwinding
    }

    /** Nodes were handed to free, and nothing else happened to the books. */
    twostate predicate OnlyFreed()
      reads this
    {
      var only := live <= old(live) && old(frees) <= frees && Made() == old(Made());
      only
    }

    /** The nodes that are left without the first. */
    lemma OneLess(p: FtsEnt, lv: seq<seq<FtsEnt>>, before: bool) returns (lv': seq<seq<FtsEnt>>)
      requires Unwinding(p, lv, before) && (before || p.level >= ROOT_LEVEL)
      ensures p in live && Hung(top, lv', live - {p})
        && ParentAtEnd(top, lv') == if p.link != null then p.link else p.parent
    {
      if before { return lv; }
      UnwindPlace(top, lv, live);
      var last := |lv| - 1;
      lv' := if |lv[last]| > 1 then Along(lv) else lv[..last];
      if |lv[last]| > 1 { AlongHung(top, lv, live, last); } else { UpHung(top, lv, live, last); }
    }

    /** One turn of the loop of fts_close. */
    method FreeOne(p: FtsEnt, ghost lv: seq<seq<FtsEnt>>, ghost before: bool)
      returns (next: FtsEnt, ghost lv': seq<seq<FtsEnt>>)
      requires Unwinding(p, lv, before) && p.level >= ROOT_LEVEL
      modifies this`live, this`frees, p
      ensures Unwinding(next, lv', false)
      ensures p in old(live) && live == old(live) - {p} && frees == old(frees) + [p]
      ensures Made() == old(Made())
      ensures forall x: FtsEnt | AnyEnt(x) :: !fresh(x)
    {
      lv' := OneLess(p, lv, before);
      next := if p.link != null then p.link else p.parent;
      NotANode(live - {p});
      OneMore(live, frees, p);
      Free(p);
    }

    /** The loop of fts_close, from a node whose place is known. */
    method FreeLevels(first: FtsEnt, ghost levels: seq<seq<FtsEnt>>) returns (p: FtsEnt)
      requires Unwinding(first, levels, false)
      modifies this`live, this`frees, live
      ensures live == {p} && Ledger() && OnlyFreed()
      ensures forall x: FtsEnt | AnyEnt(x) :: !fresh(x)
    {
      p := first;
      ghost var lv := levels;
      while p.level >= ROOT_LEVEL
        invariant Unwinding(p, lv, false) && OnlyFreed()
        invariant forall x: FtsEnt | AnyEnt(x) :: !fresh(x)
        decreases |live|
      {
        p, lv := FreeOne(p, lv, false);
      }
      Unwound(top, lv, live);
    }

    /**
     fts_close, the first turn of its loop apart: every node that is left is freed, once. Before the
     first call of fts_read that holds only if the level of the node before the roots, which nothing
     has set, is that of a root or below one.
     */
    method FtsClose(ghost args: seq<Entry>, ghost k: nat)
      requires Valid(args, k)
      modifies this, live
      ensures Ledger() && OnlyFreed()
      ensures live == {} <==> k > 0 || old(cur.level) >= ROOT_LEVEL
      ensures live != {} ==> live == old(live) - {old(cur)} && frees == old(frees) + [old(cur)]
      ensures forall x: FtsEnt | AnyEnt(x) :: !fresh(x)
    {
      if cur == null { return; }
      AtClose(args, k);
      var p := cur;
      if p.level >= ROOT_LEVEL {
        ghost var lv;
        p, lv := FreeOne(p, levels, k == 0);
        p := FreeLevels(p, lv);
      }
      OneMore(live, frees, p);
      Free(p);
    }

    lemma AtClose(args: seq<Entry>, k: nat)
      requires Valid(args, k) && cur != null
      ensures Unwinding(cur, levels, k == 0) && cur in live && (k > 0 ==> cur.level >= ROOT_LEVEL)
        && (k == 0 ==> live != {cur})
    {
      if k == 0 { assert top in live - {cur}; } else { CurrentPlace(); }
    }
  }

  /** One more call of free, of an allocated node. */
  lemma OneMore(live: set<FtsEnt>, frees: seq<FtsEnt>, p: FtsEnt)
    requires live !! NodesOf(frees) && Distinct(frees) && p in live
    ensures (live - {p}) !! NodesOf(frees + [p]) && Distinct(frees + [p])
    ensures (live - {p}) + NodesOf(frees + [p]) == live + NodesOf(frees)
  {
    assert p !in frees;
    assert NodesOf(frees + [p]) == NodesOf(frees) + {p};
  }

  /** The books of a call: none freed and some allocated, or the one or two nodes `gone` freed. */
  lemma Booked(live: set<FtsEnt>, frees: seq<FtsEnt>, live': set<FtsEnt>, frees': seq<FtsEnt>, gone: seq<FtsEnt>)
    requires live !! NodesOf(frees) && Distinct(frees) && frees' == frees + gone && |gone| <= 2 && NodesOf(gone) <= live
      && Distinct(gone)
    requires if gone == [] then live <= live' && (live' - live) !! NodesOf(frees) else live' == live - NodesOf(gone)
    ensures live' !! NodesOf(frees') && Distinct(frees') && frees <= frees'
    ensures live' + NodesOf(frees') == live + NodesOf(frees) + (live' - live)
  {
    if |gone| > 0 {
      OneMore(live, frees, gone[0]);
      if |gone| == 2 {
        OneMore(live - {gone[0]}, frees + [gone[0]], gone[1]);
        assert frees + [gone[0]] + [gone[1]] == frees + gone;
        assert NodesOf(gone) == {gone[0], gone[1]};
      } else {
        assert gone == [gone[0]];
      }
    } else {
      assert frees' == frees;
    }
  }

  /** The first of the nodes that are left: the head of the last level, or the parent of the roots. */
  function ParentAtEnd(top: FtsEnt, lv: seq<seq<FtsEnt>>): FtsEnt
  {
    ParentAt(top, lv, |lv|)
  }

  lemma UnwindPlace(top: FtsEnt, lv: seq<seq<FtsEnt>>, live: set<FtsEnt>)
    requires Hung(top, lv, live) && ParentAtEnd(top, lv).level >= ROOT_LEVEL
    ensures
      lv != [] &&
      var last := |lv| - 1;
      && lv[last] != [] && ParentAtEnd(top, lv) == lv[last][0] && lv[last][0] in live
      && Hangs(lv[last][0], last, ParentAt(top, lv, last), NextIn(lv[last], 0))
      && (if |lv[last]| > 1 then ParentAtEnd(top, Along(lv)) == lv[last][1]
         else ParentAtEnd(top, lv[..last]) == ParentAt(top, lv, last))
  {
    LevelOf(top, lv, live, |lv| - 1, 0);
  }

  lemma Unwound(top: FtsEnt, lv: seq<seq<FtsEnt>>, live: set<FtsEnt>)
    requires Hung(top, lv, live) && ParentAtEnd(top, lv).level < ROOT_LEVEL
    ensures live == {top} && ParentAtEnd(top, lv) == top
  {
    if lv != [] {
      assert LevelHung(top, lv, live, |lv| - 1);
      LevelOf(top, lv, live, |lv| - 1, 0);
    }
  }

  lemma RootsUpTo(t: Tree, args: seq<Entry>, i: nat)
    requires i < |args| && forall k :: 0 <= k < |args| ==> args[k].id in t.inodes
    ensures Roots(t, args[..i + 1]) == Roots(t, args[..i]) + [RootNode(t, args[i])]
  {
    RootsSnoc(t, args[..i], args[i]);
    assert args[..i] + [args[i]] == args[..i + 1];
  }

  lemma {:induction false} RootsNamed(t: Tree, args: seq<Entry>)
    requires forall k :: 0 <= k < |args| ==> args[k].id in t.inodes && args[k].name != ""
    ensures Named(Roots(t, args))
    decreases |args|
  {
    if args != [] { RootsNamed(t, args[1..]); }
  }

  lemma RootsReady(t: Tree, args: seq<Entry>)
    requires ArgsOk(t, args)
    ensures
      var w := Roots(t, args);
      LevelsOk(t, [w]) && PathsOk([w]) && w[0].path != "" && AfterReads(t, args, 1) == Moved([w])
  {
    Opened(t, args);
    RootsNamed(t, args);
  }

  lemma KidsListed(t: Tree, walk: Levels, nodes: seq<Node>)
    requires LevelsOk(t, walk) && Current(walk).info == D && PathsOk(walk)
    requires !(t.xdev && Current(walk).id.dev != walk[0][0].id.dev)
    requires
      var n := Current(walk);
      n.id in t.inodes && t.inodes[n.id].Dir? && nodes == Listed(t, t.inodes[n.id].entries, n.path, Line(walk, |walk|))
    ensures NodeOk(t, Current(walk), Line(walk, |walk| - 1)) && nodes == Kids(t, Current(walk), Line(walk, |walk| - 1))
    ensures Read(t, walk) ==
      Moved(if nodes == [] then WithCurrent(walk, Current(walk).(info := DP)) else walk + [nodes])
  {
    DirAt(t, walk);
    assert LevelOk(t, walk, |walk| - 1);
  }

  lemma DirAt(t: Tree, walk: Levels)
    requires LevelsOk(t, walk) && PathsOk(walk) && Current(walk).info == D
    ensures
      var n := Current(walk);
      && n.path != "" && n.id in t.inodes && t.inodes[n.id].Dir?
      && Line(walk, |walk|) == Line(walk, |walk| - 1) + [n.id]
      && walk[0][0].id.dev == Line(walk, |walk|)[0].dev
  {
    assert LevelOk(t, walk, |walk| - 1) && PathOk(walk, |walk| - 1);
    assert Line(walk, |walk|) == Line(walk, |walk| - 1) + [Current(walk).id];
  }

  lemma DownShows(levels: seq<seq<FtsEnt>>, walk: Levels, known: set<FtsEnt>, kids: seq<FtsEnt>, nodes: seq<Node>)
    requires Shows(levels, walk, known) && kids != [] && AgreeAll(kids, nodes, All) && levels != []
    ensures Shows(levels + [kids], walk + [nodes], known + NodesOf(kids))
  {
    var levels', walk' := levels + [kids], walk + [nodes];
    forall d | 0 <= d < |levels'| ensures AgreeAll(levels'[d], walk'[d], if d > 0 then All else First) {
      if d < |levels| { assert AgreeAll(levels[d], walk[d], if d > 0 then All else First); }
    }
  }

  lemma UpShows(levels: seq<seq<FtsEnt>>, walk: Levels, known: set<FtsEnt>)
    requires Shows(levels, walk, known) && |levels| > 1
    requires forall d, i :: 0 <= d < |levels| - 1 && 0 <= i < |levels[d]| ==>
      levels[d][i] in known - {levels[|levels| - 1][0]}
    requires levels[|levels| - 1] != []
    ensures Shows(levels[..|levels| - 1], walk[..|levels| - 1], known - {levels[|levels| - 1][0]})
  {
    forall d | 0 <= d < |levels| - 1 ensures AgreeAll(levels[d], walk[d], if d > 0 then All else First) {
      assert AgreeAll(levels[d], walk[d], if d > 0 then All else First);
    }
  }

  lemma RootsStand(top: FtsEnt, s: seq<FtsEnt>, w: seq<Node>, live: set<FtsEnt>)
    requires Hung(top, [s], live) && AgreeAll(s, w, First)
    ensures Shows([s], [w], live)
  {
    assert LevelHung(top, [s], live, 0);
  }

  /** What the first node of the deepest level and its parent tell. */
  lemma HeadPlace(tree: Tree, top: FtsEnt, levels: seq<seq<FtsEnt>>, walk: Levels, live: set<FtsEnt>)
    requires Stand(tree, top, levels, walk, live) && |levels| > 1
    ensures
      var p, up := levels[|levels| - 1][0], levels[|levels| - 2];
      && p in live && Agrees(p, Current(walk), true) && up != [] && p.parent == up[0] && up[0] in live
      && walk[|walk| - 2] != [] && up[0].pathlen == |walk[|walk| - 2][0].path|
  {
    var last := |levels| - 1;
    LevelOf(top, levels, live, last, 0);
    LevelOf(top, levels, live, last - 1, 0);
    assert AgreeAll(levels[last], walk[last], All);
    assert AgreeAll(levels[last - 1], walk[last - 1], if last - 1 > 0 then All else First);
  }

  lemma HungIn(top: FtsEnt, levels: seq<seq<FtsEnt>>, live: set<FtsEnt>)
    requires Hung(top, levels, live)
    ensures forall d, i :: 0 <= d < |levels| && 0 <= i < |levels[d]| ==> levels[d][i] in live
  {
    forall d, i | 0 <= d < |levels| && 0 <= i < |levels[d]|
      ensures levels[d][i] in live
    {
      LevelOf(top, levels, live, d, i);
    }
  }

  lemma AlongShows(levels: seq<seq<FtsEnt>>, walk: Levels, known: set<FtsEnt>)
    requires Shows(levels, walk, known) && |levels| > 1 && |levels[|levels| - 1]| > 1
    requires forall d, i :: 0 <= d < |Along(levels)| && 0 <= i < |Along(levels)[d]| ==>
      Along(levels)[d][i] in known - {levels[|levels| - 1][0]}
    ensures AgreeAll(levels[|levels| - 1], walk[|levels| - 1], All)
    ensures Shows(Along(levels), Along(walk), known - {levels[|levels| - 1][0]})
  {
    var last := |levels| - 1;
    assert AgreeAll(levels[last], walk[last], if last > 0 then All else First);
    forall d | 0 <= d < |levels| ensures AgreeAll(Along(levels)[d], Along(walk)[d], if d > 0 then All else First) {
      assert AgreeAll(levels[d], walk[d], if d > 0 then All else First);
    }
  }

  lemma TrimmedPrefix(path: string, at: string)
    requires |path| >= |at| && path[..|at|] == at
    ensures |path| >= |Trimmed(at)| && path[..|Trimmed(at)|] == Trimmed(at)
  {
    assert path[..|Trimmed(at)|] == path[..|at|][..|Trimmed(at)|];
  }

  /** What call number `i` + 1 returns. */
  ghost function Nth(all: seq<Node>, i: nat): Option<Node>
  {
    if i < |all| then Some(all[i]) else None
  }

  function Push(seen: seq<Node>, n: Option<Node>): seq<Node>
  {
    match n case Some(v) => seen + [v] case None => seen
  }

  /** What the first `i` calls return. */
  ghost function Prefix(all: seq<Node>, i: nat): seq<Node>
  {
    if i < |all| then all[..i] else all
  }

  lemma PrefixNext(all: seq<Node>, i: nat)
    ensures Prefix(all, i + 1) == Push(Prefix(all, i), Nth(all, i))
  {
  }

  /** One call of fts_read, and what its caller sees of the node. */
  method ReadNode(sp: Fts, args: seq<Entry>, k: nat, ghost all: seq<Node>) returns (n: Option<Node>)
    requires ArgsOk(sp.tree, args) && sp.Valid(args, k) && all == Traversal(sp.tree, args)
    modifies sp, sp.live
    ensures sp.Valid(args, k + 1) && n == Nth(all, k)
    ensures fresh(sp.live - old(sp.live)) && old(sp.Made()) <= sp.Made()
    ensures forall x: FtsEnt | AnyEnt(x) :: fresh(x) ==> x in sp.live
  {
    var r := sp.FtsRead(args, k);
    return if r == null then None else Some(Node(r.name, r.id, r.info, sp.path));
  }

  /** `k` calls of fts_read on a stream just opened. */
  method ReadTimes(sp: Fts, args: seq<Entry>, k: nat, ghost all: seq<Node>) returns (seen: seq<Node>)
    requires ArgsOk(sp.tree, args) && sp.Valid(args, 0) && all == Traversal(sp.tree, args)
    modifies sp, sp.live
    ensures sp.Valid(args, k) && seen == Prefix(all, k)
    ensures fresh(sp.live - old(sp.live)) && old(sp.Made()) <= sp.Made()
    ensures forall x: FtsEnt | AnyEnt(x) :: fresh(x) ==> x in sp.Made()
  {
    seen := [];
    for i := 0 to k
      invariant sp.Valid(args, i) && seen == Prefix(all, i)
      invariant fresh(sp.live - old(sp.live)) && old(sp.Made()) <= sp.Made()
      invariant forall x: FtsEnt | AnyEnt(x) :: fresh(x) ==> x in sp.Made()
    {
      PrefixNext(all, i);
      var n := ReadNode(sp, args, i, all);
      seen := Push(seen, n);
    }
  }

  /** fts_open and `k` calls of fts_read. */
  method OpenAndRead(tree: Tree, args: seq<Entry>, k: nat) returns (seen: seq<Node>, sp: Fts)
    requires ArgsOk(tree, args)
    ensures fresh(sp) && fresh(sp.live) && sp.Valid(args, k) && seen == Prefix(Traversal(tree, args), k)
    ensures forall x: FtsEnt | AnyEnt(x) :: fresh(x) ==> x in sp.Made()
  {
    sp := new Fts(tree, args);
    seen := ReadTimes(sp, args, k, Traversal(tree, args));
  }

  /**
   fts_open, any number k of calls of fts_read from 1 on, and fts_close: the calls return the first
   k nodes of the traversal, and every node allocated on the way has been freed exactly once.
   */
  method WalkAndClose(tree: Tree, args: seq<Entry>, k: nat) returns (seen: seq<Node>, sp: Fts)
    requires ArgsOk(tree, args) && k > 0
    ensures seen == Prefix(Traversal(tree, args), k)
    ensures sp.live == {} && Distinct(sp.frees) && forall n: FtsEnt :: fresh(n) ==> n in sp.frees
  {
    seen, sp := OpenAndRead(tree, args, k);
    sp.FtsClose(args, k);
    forall n: FtsEnt | fresh(n) ensures n in sp.frees {
      assert AnyEnt(n);
    }
  }

  /**
   fts_close straight after fts_open, the memory of the node before the roots holding any `level`:
   all that was allocated is freed if and only if that level is not negative.
   */
  method CloseAtOnce(tree: Tree, args: seq<Entry>, level: int) returns (sp: Fts)
    requires ArgsOk(tree, args)
    ensures (forall n: FtsEnt :: fresh(n) ==> n in sp.frees) <==> level >= ROOT_LEVEL
    ensures level < ROOT_LEVEL ==> |sp.frees| == 1
  {
    sp := new Fts(tree, args);
    ghost var first, top := sp.cur, sp.top;
    assert top in sp.live - {first};
    sp.cur.level := level;
    sp.FtsClose(args, 0);
    forall n: FtsEnt | fresh(n) && level >= ROOT_LEVEL ensures n in sp.frees {
      assert AnyEnt(n);
    }
    if level < ROOT_LEVEL {
      assert sp.frees == [first];
      assert top !in sp.frees;
    }
  }
}
