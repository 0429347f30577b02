/**
 The walk of fts.c with FTS_NOCHDIR: a recursive traversal of a file hierarchy, which may be
 cyclic, and the same traversal cut into calls that each move one place.
 */
module TreeWalk {
  import opened Basics

  datatype Id = Id(dev: int, ino: int)
  datatype Entry = Entry(name: string, id: Id)

  /** FTS_INIT marks the node before the roots; FTS_DOT is what "." and ".." are. */
  datatype Info = D | DC | DP | DOT | F | SL | SLNONE | DEFAULT | INIT

  /** What stat and readdir tell of a file; a leaf is anything but a directory. */
  datatype Inode = Dir(entries: seq<Entry>) | Leaf(info: Info)

  /** A hierarchy as the walk sees it; with `xdev` the walk does not leave the device of its root. */
  datatype Tree = Tree(inodes: map<Id, Inode>, xdev: bool)

  /** A node of the walk; `path` is the name under which it is reached. */
  datatype Node = Node(name: string, id: Id, info: Info, path: string)

  ghost predicate LeafInfo(i: Info)
  {
    i == F || i == SL || i == SLNONE || i == DEFAULT
  }

  /** Every entry names a file, and only directories look like directories. */
  ghost predicate TreeOk(t: Tree)
  {
    && (forall i, k :: i in t.inodes && t.inodes[i].Dir? && 0 <= k < |t.inodes[i].entries| ==>
       t.inodes[i].entries[k].id in t.inodes)
    && (forall i :: i in t.inodes && t.inodes[i].Leaf? ==> LeafInfo(t.inodes[i].info))
  }

  predicate IsDot(name: string)
  {
    name == "." || name == ".."
  }

  /** fts_stat: a directory equal to one of its ancestors closes a cycle. */
  function Stat(t: Tree, name: string, id: Id, ancestors: seq<Id>): Info
    requires id in t.inodes
  {
    match t.inodes[id]
    case Leaf(info) => info
    case Dir(_) => if IsDot(name) then DOT else if id in ancestors then DC else D
  }

  /** A path without its final slash, if it has one. */
  function Trimmed(path: string): string
  {
    if path != "" && path[|path| - 1] == '/' then path[..|path| - 1] else path
  }

  function Join(path: string, name: string): string
  {
    Trimmed(path) + "/" + name
  }

  /** The entries of a directory in order, without "." and "..". */
  function Listed(t: Tree, entries: seq<Entry>, path: string, ancestors: seq<Id>): seq<Node>
    requires forall k :: 0 <= k < |entries| ==> entries[k].id in t.inodes
  {
    if entries == [] then []
    else
      var e := entries[0];
      (if IsDot(e.name) then [] else [Node(e.name, e.id, Stat(t, e.name, e.id, ancestors), Join(path, e.name))])
      + Listed(t, entries[1..], path, ancestors)
  }

  lemma {:induction false} ListedSnoc(t: Tree, entries: seq<Entry>, e: Entry, at: string, line: seq<Id>)
    requires e.id in t.inodes && forall k :: 0 <= k < |entries| ==> entries[k].id in t.inodes
    ensures Listed(t, entries + [e], at, line) ==
      Listed(t, entries, at, line) + if IsDot(e.name) then []
        else [Node(e.name, e.id, Stat(t, e.name, e.id, line), Join(at, e.name))]
    decreases |entries|
  {
    if entries == [] {
      assert entries + [e] == [e] && [e][1..] == [];
    } else {
      ListedSnoc(t, entries[1..], e, at, line);
      assert (entries + [e])[1..] == entries[1..] + [e];
    }
  }

  /** A node shown as a directory in pre-order is one, and none of its ancestors. */
  predicate NodeOk(t: Tree, n: Node, ancestors: seq<Id>)
  {
    n.info == D ==> n.id in t.inodes && t.inodes[n.id].Dir? && n.id !in ancestors
  }

  predicate NodesOk(t: Tree, s: seq<Node>, ancestors: seq<Id>)
  {
    forall k :: 0 <= k < |s| ==> NodeOk(t, s[k], ancestors)
  }

  lemma {:induction false} ListedOk(t: Tree, entries: seq<Entry>, path: string, ancestors: seq<Id>)
    requires TreeOk(t) && forall k :: 0 <= k < |entries| ==> entries[k].id in t.inodes
    ensures NodesOk(t, Listed(t, entries, path, ancestors), ancestors)
    decreases |entries|
  {
    if entries != [] { ListedOk(t, entries[1..], path, ancestors); }
  }

  /** The nodes below a directory: none when the walk must stay on the device of its root. */
  ghost function Kids(t: Tree, n: Node, ancestors: seq<Id>): (kids: seq<Node>)
    requires TreeOk(t) && n.info == D && NodeOk(t, n, ancestors)
    ensures NodesOk(t, kids, ancestors + [n.id])
  {
    var line := ancestors + [n.id];
    if t.xdev && n.id.dev != line[0].dev then []
    else
      ListedOk(t, t.inodes[n.id].entries, n.path, line);
      Listed(t, t.inodes[n.id].entries, n.path, line)
  }

  function Ids(s: seq<Id>): set<Id> { set i | i in s }

  /**
   The directories not yet on the way down: fewer at each level, so a cyclic hierarchy is walked in
   finitely many steps.
   */
  function Left(t: Tree, ancestors: seq<Id>): nat { |t.inodes.Keys - Ids(ancestors)| }

  lemma Deeper(t: Tree, ancestors: seq<Id>, id: Id)
    requires id in t.inodes && id !in ancestors
    ensures Left(t, ancestors + [id]) < Left(t, ancestors)
  {
    var out, inside := t.inodes.Keys - Ids(ancestors), t.inodes.Keys - Ids(ancestors + [id]);
    assert inside == out - {id};
    assert id in out;
  }

  // ----- the traversal -----

  /** A file once; a directory before and after what is below it; a directory that closes a cycle once. */
  ghost function Visit(t: Tree, n: Node, ancestors: seq<Id>): seq<Node>
    requires TreeOk(t) && NodeOk(t, n, ancestors)
    decreases Left(t, ancestors), 0, 0
  {
    if n.info != D then [n]
    else
      Deeper(t, ancestors, n.id);
      [n] + VisitAll(t, Kids(t, n, ancestors), ancestors + [n.id]) + [n.(info := DP)]
  }

  ghost function VisitAll(t: Tree, s: seq<Node>, ancestors: seq<Id>): seq<Node>
    requires TreeOk(t) && NodesOk(t, s, ancestors)
    decreases Left(t, ancestors), 1, |s|
  {
    if s == [] then [] else Visit(t, s[0], ancestors) + VisitAll(t, s[1..], ancestors)
  }

  // ----- one call at a time -----

  /** levels[d] holds the node of depth `d` on the way to the current node, and its right siblings. */
  type Levels = seq<seq<Node>>

  /** The directories on the way down to depth `d`. */
  function Line(levels: Levels, d: nat): seq<Id>
    requires d <= |levels| && forall e :: 0 <= e < d ==> levels[e] != []
  {
    seq(d, e requires 0 <= e < d => levels[e][0].id)
  }

  ghost predicate LevelOk(t: Tree, levels: Levels, d: nat)
    requires d < |levels| && forall e :: 0 <= e < |levels| ==> levels[e] != []
  {
    NodesOk(t, levels[d], Line(levels, d)) && (d + 1 < |levels| ==> levels[d][0].info == D)
  }

  ghost predicate LevelsOk(t: Tree, levels: Levels)
  {
    && TreeOk(t) && levels != [] && (forall e :: 0 <= e < |levels| ==> levels[e] != [])
    && forall d :: 0 <= d < |levels| ==> LevelOk(t, levels, d)
  }

  function Current(levels: Levels): Node
    requires levels != [] && levels[|levels| - 1] != []
  {
    levels[|levels| - 1][0]
  }

  /** The levels when the current node becomes `n`. */
  function WithCurrent(levels: Levels, n: Node): Levels
    requires levels != [] && levels[|levels| - 1] != []
  {
    levels[..|levels| - 1] + [[n] + levels[|levels| - 1][1..]]
  }

  datatype Step = Finished | Moved(levels: Levels)

  /**
   fts_read: down to the first node below, along to the next sibling, or up to the parent, seen
   after what is below it.
   */
  ghost function Read(t: Tree, levels: Levels): (r: Step)
    requires LevelsOk(t, levels)
  {
    var last := |levels| - 1;
    var n := Current(levels);
    assert LevelOk(t, levels, last);
    if n.info == D then
      var kids := Kids(t, n, Line(levels, last));
      Moved(if kids == [] then WithCurrent(levels, n.(info := DP)) else levels + [kids])
    else if |levels[last]| > 1 then Moved(levels[..last] + [levels[last][1..]])
    else if last == 0 then Finished
    else Moved(WithCurrent(levels[..last], levels[last - 1][0].(info := DP)))
  }

  /** What is still to come once the current node and all below it are done. */
  ghost function Beyond(t: Tree, levels: Levels): seq<Node>
    requires LevelsOk(t, levels)
    decreases |levels|
  {
    var last := |levels| - 1;
    assert LevelOk(t, levels, last);
    VisitAll(t, levels[last][1..], Line(levels, last))
    + if last == 0 then [] else
        UpOk(t, levels);
        [levels[last - 1][0].(info := DP)] + Beyond(t, levels[..last])
  }

  lemma UpOk(t: Tree, levels: Levels)
    requires LevelsOk(t, levels) && |levels| > 1
    ensures LevelsOk(t, levels[..|levels| - 1])
  {
    var up := levels[..|levels| - 1];
    forall d | 0 <= d < |up| ensures LevelOk(t, up, d) {
      assert LevelOk(t, levels, d);
      assert Line(up, d) == Line(levels, d);
    }
  }

  /** Everything still to come. */
  ghost function Rest(t: Tree, levels: Levels): seq<Node>
    requires LevelsOk(t, levels)
  {
    var n := Current(levels);
    var line := Line(levels, |levels| - 1);
    assert LevelOk(t, levels, |levels| - 1);
    (if n.info != D then [] else VisitAll(t, Kids(t, n, line), line + [n.id]) + [n.(info := DP)]) + Beyond(t, levels)
  }

  // ----- the calls together are the traversal -----

  /** A changed current node leaves the way down to it, and what is beyond it, as it was. */
  lemma CurrentChanged(t: Tree, levels: Levels, info: Info)
    requires LevelsOk(t, levels) && info != D
    ensures
      var levels' := WithCurrent(levels, Current(levels).(info := info));
      && LevelsOk(t, levels') && |levels'| == |levels| && Line(levels', |levels| - 1) == Line(levels, |levels| - 1)
      && Beyond(t, levels') == Beyond(t, levels)
  {
    var last := |levels| - 1;
    var levels' := WithCurrent(levels, Current(levels).(info := info));
    forall d | 0 <= d < |levels'| ensures LevelOk(t, levels', d) {
      assert LevelOk(t, levels, d);
      assert Line(levels', d) == Line(levels, d);
    }
    assert levels'[..last] == levels[..last];
    assert levels'[last][1..] == levels[last][1..];
  }

  lemma DownKeeps(t: Tree, levels: Levels)
    requires LevelsOk(t, levels) && Current(levels).info == D
    ensures
      LevelOk(t, levels, |levels| - 1) &&
      var kids := Kids(t, Current(levels), Line(levels, |levels| - 1));
      kids != [] ==>
        && LevelsOk(t, levels + [kids])
        && Line(levels + [kids], |levels|) == Line(levels, |levels| - 1) + [Current(levels).id]
        && (levels + [kids])[..|levels|] == levels
  {
    var last := |levels| - 1;
    assert LevelOk(t, levels, last);
    var kids := Kids(t, Current(levels), Line(levels, last));
    if kids != [] {
      var levels' := levels + [kids];
      assert Line(levels', |levels|) == Line(levels, last) + [Current(levels).id];
      forall d | 0 <= d < |levels'| ensures LevelOk(t, levels', d) {
        if d <= last {
          assert LevelOk(t, levels, d);
          assert Line(levels', d) == Line(levels, d);
        }
      }
    }
  }

  lemma AlongKeeps(t: Tree, levels: Levels)
    requires LevelsOk(t, levels) && |levels[|levels| - 1]| > 1
    ensures
      var last := |levels| - 1;
      var levels' := levels[..last] + [levels[last][1..]];
      LevelsOk(t, levels') && Line(levels', last) == Line(levels, last) && levels'[..last] == levels[..last]
  {
    var last := |levels| - 1;
    var levels' := levels[..last] + [levels[last][1..]];
    forall d | 0 <= d < |levels'| ensures LevelOk(t, levels', d) {
      assert LevelOk(t, levels, d);
      assert Line(levels', d) == Line(levels, d);
    }
  }

  lemma ReadKeeps(t: Tree, levels: Levels)
    requires LevelsOk(t, levels)
    ensures var r := Read(t, levels); r.Moved? ==> LevelsOk(t, r.levels)
  {
    var last := |levels| - 1;
    if Current(levels).info == D {
      DownKeeps(t, levels);
      CurrentChanged(t, levels, DP);
    } else if |levels[last]| > 1 {
      AlongKeeps(t, levels);
    } else if last > 0 {
      UpOk(t, levels);
      CurrentChanged(t, levels[..last], DP);
    }
  }

  /** Every call returns the next node of what is to come, and none when nothing is. */
  lemma ReadIsNext(t: Tree, levels: Levels)
    requires LevelsOk(t, levels)
    ensures
      match Read(t, levels)
      case Finished => Rest(t, levels) == []
      case Moved(levels') => LevelsOk(t, levels') && Rest(t, levels) == [Current(levels')] + Rest(t, levels')
  {
    ReadKeeps(t, levels);
    var last := |levels| - 1;
    if Current(levels).info == D {
      DownIsNext(t, levels);
    } else if |levels[last]| > 1 {
      AlongIsNext(t, levels);
    } else if last > 0 {
      UpIsNext(t, levels);
    }
  }

  /** The current node, what is below it, and what is beyond it. */
  lemma OneNode(t: Tree, levels: Levels)
    requires LevelsOk(t, levels)
    ensures
      var line := Line(levels, |levels| - 1);
      NodeOk(t, Current(levels), line)
        && [Current(levels)] + Rest(t, levels) == Visit(t, Current(levels), line) + Beyond(t, levels)
  {
    assert LevelOk(t, levels, |levels| - 1);
  }

  /** What is beyond the siblings of the current node. */
  ghost function Above(t: Tree, levels: Levels): seq<Node>
    requires LevelsOk(t, levels)
  {
    if |levels| == 1 then [] else
      UpOk(t, levels);
      [levels[|levels| - 2][0].(info := DP)] + Beyond(t, levels[..|levels| - 1])
  }

  lemma BeyondIs(t: Tree, levels: Levels)
    requires LevelsOk(t, levels)
    ensures
      LevelOk(t, levels, |levels| - 1)
      && Beyond(t, levels) == VisitAll(t, levels[|levels| - 1][1..], Line(levels, |levels| - 1)) + Above(t, levels)
  {
    assert LevelOk(t, levels, |levels| - 1);
  }

  lemma DownIsNext(t: Tree, levels: Levels)
    requires LevelsOk(t, levels) && Current(levels).info == D
    ensures
      var r := Read(t, levels);
      r.Moved? && LevelsOk(t, r.levels) && Rest(t, levels) == [Current(r.levels)] + Rest(t, r.levels)
  {
    ReadKeeps(t, levels);
    DownKeeps(t, levels);
    var last := |levels| - 1;
    var kids := Kids(t, Current(levels), Line(levels, last));
    if kids == [] { CurrentChanged(t, levels, DP); } else { BelowIsNext(t, levels, kids); }
  }

  /** What comes once all below the current node has been visited. */
  ghost function Back(t: Tree, levels: Levels): seq<Node>
    requires LevelsOk(t, levels)
  {
    [Current(levels).(info := DP)] + Beyond(t, levels)
  }

  lemma RestBelow(t: Tree, levels: Levels, kids: seq<Node>)
    requires LevelsOk(t, levels) && Current(levels).info == D && NodeOk(t, Current(levels), Line(levels, |levels| - 1))
    requires kids == Kids(t, Current(levels), Line(levels, |levels| - 1))
    ensures
      NodesOk(t, kids, Line(levels, |levels| - 1) + [Current(levels).id])
      && Rest(t, levels) == VisitAll(t, kids, Line(levels, |levels| - 1) + [Current(levels).id]) + Back(t, levels)
  {
  }

  lemma BeyondBelow(t: Tree, levels: Levels, kids: seq<Node>)
    requires LevelsOk(t, levels) && Current(levels).info == D && NodeOk(t, Current(levels), Line(levels, |levels| - 1))
    requires kids == Kids(t, Current(levels), Line(levels, |levels| - 1)) && kids != []
    ensures
      var line := Line(levels, |levels| - 1) + [Current(levels).id];
      && LevelsOk(t, levels + [kids]) && Line(levels + [kids], |levels|) == line && NodesOk(t, kids[1..], line)
      && Beyond(t, levels + [kids]) == VisitAll(t, kids[1..], line) + Back(t, levels)
  {
    DownKeeps(t, levels);
    BeyondIs(t, levels + [kids]);
    assert Above(t, levels + [kids]) == Back(t, levels);
  }

  lemma BelowIsNext(t: Tree, levels: Levels, kids: seq<Node>)
    requires LevelsOk(t, levels) && Current(levels).info == D && NodeOk(t, Current(levels), Line(levels, |levels| - 1))
    requires kids == Kids(t, Current(levels), Line(levels, |levels| - 1)) && kids != []
    ensures LevelsOk(t, levels + [kids]) && Rest(t, levels) == [kids[0]] + Rest(t, levels + [kids])
  {
    var line := Line(levels, |levels| - 1) + [Current(levels).id];
    RestBelow(t, levels, kids);
    BeyondBelow(t, levels, kids);
    OneNode(t, levels + [kids]);
    Assoc(Visit(t, kids[0], line), VisitAll(t, kids[1..], line), Back(t, levels));
  }

  /** Nothing of what is above the siblings changes when the walk goes to the next of them. */
  lemma AlongAbove(t: Tree, levels: Levels, levels': Levels, last: nat)
    requires LevelsOk(t, levels) && LevelsOk(t, levels') && last == |levels| - 1 && |levels'| == |levels|
    requires levels'[..last] == levels[..last]
    ensures Above(t, levels') == Above(t, levels)
  {
    if last > 0 { assert levels'[last - 1] == levels'[..last][last - 1] == levels[last - 1]; }
  }

  lemma AlongRest(t: Tree, levels: Levels, levels': Levels, last: nat)
    requires LevelsOk(t, levels) && LevelsOk(t, levels') && last == |levels| - 1 && |levels'| == |levels|
    requires levels'[..last] == levels[..last] && |levels[last]| > 1 && levels'[last] == levels[last][1..]
    requires Line(levels', last) == Line(levels, last)
    ensures Beyond(t, levels) == [Current(levels')] + Rest(t, levels')
  {
    var siblings, line := levels[last][1..], Line(levels, last);
    AlongAbove(t, levels, levels', last);
    BeyondIs(t, levels);
    BeyondIs(t, levels');
    OneNode(t, levels');
    Assoc(Visit(t, siblings[0], line), VisitAll(t, siblings[1..], line), Above(t, levels));
  }

  lemma AlongIsNext(t: Tree, levels: Levels)
    requires LevelsOk(t, levels) && Current(levels).info != D && |levels[|levels| - 1]| > 1
    ensures
      var r := Read(t, levels);
      r.Moved? && LevelsOk(t, r.levels) && Rest(t, levels) == [Current(r.levels)] + Rest(t, r.levels)
  {
    AlongKeeps(t, levels);
    var last := |levels| - 1;
    AlongRest(t, levels, levels[..last] + [levels[last][1..]], last);
  }

  lemma UpIsNext(t: Tree, levels: Levels)
    requires LevelsOk(t, levels) && Current(levels).info != D && |levels[|levels| - 1]| == 1 && |levels| > 1
    ensures
      var r := Read(t, levels);
      r.Moved? && LevelsOk(t, r.levels) && Rest(t, levels) == [Current(r.levels)] + Rest(t, r.levels)
  {
    UpOk(t, levels);
    CurrentChanged(t, levels[..|levels| - 1], DP);
  }

  // ----- the whole walk -----

  /** What is left of a path after its last slash, unless the path is a single slash. */
  function Base(path: string): string
  {
    if path == "/" then path else AfterSlash(path)
  }

  function AfterSlash(s: string): string
    decreases |s|
  {
    if s == "" then "" else if s[|s| - 1] == '/' then "" else AfterSlash(s[..|s| - 1]) + [s[|s| - 1]]
  }

  /** The nodes of the arguments; "." and ".." are real directories here. */
  function Roots(t: Tree, args: seq<Entry>): (r: seq<Node>)
    requires forall k :: 0 <= k < |args| ==> args[k].id in t.inodes
    ensures |r| == |args|
  {
    if args == [] then [] else [RootNode(t, args[0])] + Roots(t, args[1..])
  }

  function RootNode(t: Tree, arg: Entry): Node
    requires arg.id in t.inodes
  {
    var info := Stat(t, arg.name, arg.id, []);
    Node(Base(arg.name), arg.id, if info == DOT then D else info, arg.name)
  }

  lemma {:induction false} RootsSnoc(t: Tree, args: seq<Entry>, arg: Entry)
    requires arg.id in t.inodes && forall k :: 0 <= k < |args| ==> args[k].id in t.inodes
    ensures Roots(t, args + [arg]) == Roots(t, args) + [RootNode(t, arg)]
    decreases |args|
  {
    if args == [] {
      assert args + [arg] == [arg] && [arg][1..] == [];
    } else {
      RootsSnoc(t, args[1..], arg);
      assert (args + [arg])[1..] == args[1..] + [arg];
    }
  }

  lemma {:induction false} RootsOk(t: Tree, args: seq<Entry>)
    requires TreeOk(t) && forall k :: 0 <= k < |args| ==> args[k].id in t.inodes
    ensures NodesOk(t, Roots(t, args), [])
    decreases |args|
  {
    if args != [] { RootsOk(t, args[1..]); }
  }

  ghost predicate ArgsOk(t: Tree, args: seq<Entry>)
  {
    TreeOk(t) && args != [] && forall k :: 0 <= k < |args| ==> args[k].id in t.inodes && args[k].name != ""
  }

  ghost function Traversal(t: Tree, args: seq<Entry>): seq<Node>
    requires ArgsOk(t, args)
  {
    RootsOk(t, args);
    VisitAll(t, Roots(t, args), [])
  }

  /** The state after `k` calls: the first finds the first root. */
  ghost function AfterReads(t: Tree, args: seq<Entry>, k: nat): (r: Step)
    requires ArgsOk(t, args) && k > 0
    ensures r.Moved? ==> LevelsOk(t, r.levels)
  {
    if k == 1 then
      RootsOk(t, args);
      Opened(t, args);
      Moved([Roots(t, args)])
    else
      match AfterReads(t, args, k - 1)
      case Finished => Finished
      case Moved(levels) => ReadKeeps(t, levels); Read(t, levels)
  }

  lemma Opened(t: Tree, args: seq<Entry>)
    requires ArgsOk(t, args)
    ensures LevelsOk(t, [Roots(t, args)]) && Line([Roots(t, args)], 0) == []
    ensures Traversal(t, args) == [Current([Roots(t, args)])] + Rest(t, [Roots(t, args)])
  {
    RootsOk(t, args);
    var levels := [Roots(t, args)];
    assert Line(levels, 0) == [];
    assert LevelOk(t, levels, 0);
    OneNode(t, levels);
  }

  /**
   Call number k returns node number k of the traversal, and the calls after the last node
   return none: on every finite hierarchy, cyclic ones included, the end is reached.
   */
  lemma {:induction false} ReadsAreTraversal(t: Tree, args: seq<Entry>, k: nat)
    requires ArgsOk(t, args) && k > 0
    ensures
      var all := Traversal(t, args);
      match AfterReads(t, args, k)
      case Finished => k > |all|
      case Moved(levels) => k <= |all| && all[k - 1] == Current(levels) && all[k..] == Rest(t, levels)
  {
    var all := Traversal(t, args);
    Opened(t, args);
    if k > 1 {
      ReadsAreTraversal(t, args, k - 1);
      match AfterReads(t, args, k - 1)
      case Finished =>
      case Moved(levels) =>
        ReadIsNext(t, levels);
        assert all[k - 1..] == Rest(t, levels);
        match Read(t, levels)
        case Finished =>
        case Moved(levels') => assert all[k..] == all[k - 1..][1..];
    }
  }

  // ----- what the traversal is -----

  /**
   The directories open after the visits `s`: a pre-order visit opens a directory that is not
   open, a post-order visit closes the last one opened, and a cycle is reported exactly for a
   directory that is open.
   */
  function OpenAfter(s: seq<Node>, open: seq<Id>): (r: Option<seq<Id>>)
  {
    if s == [] then Some(open)
    else
      match s[0].info
      case D => if s[0].id in open then None else OpenAfter(s[1..], open + [s[0].id])
      case DP => if open == [] || open[|open| - 1] != s[0].id then None else OpenAfter(s[1..], open[..|open| - 1])
      case DC => if s[0].id in open then OpenAfter(s[1..], open) else None
      case _ => OpenAfter(s[1..], open)
  }

  lemma {:induction false} OpenAppend(a: seq<Node>, b: seq<Node>, open: seq<Id>)
    ensures OpenAfter(a + b, open) == match OpenAfter(a, open) case None => None case Some(o) => OpenAfter(b, o)
    decreases |a|
  {
    if a == [] {
      assert a + b == b;
    } else {
      assert (a + b)[1..] == a[1..] + b;
      match a[0].info
      case D => OpenAppend(a[1..], b, open + [a[0].id]);
      case DP => if open != [] { OpenAppend(a[1..], b, open[..|open| - 1]); }
      case _ => OpenAppend(a[1..], b, open);
    }
  }

  /** No node of a list has been left, and a cycle is shown exactly where it closes. */
  ghost predicate Unvisited(s: seq<Node>, ancestors: seq<Id>)
  {
    forall k :: 0 <= k < |s| ==> s[k].info != DP && (s[k].info == DC ==> s[k].id in ancestors)
  }

  lemma {:induction false} ListedUnvisited(t: Tree, entries: seq<Entry>, path: string, ancestors: seq<Id>)
    requires TreeOk(t) && forall k :: 0 <= k < |entries| ==> entries[k].id in t.inodes
    ensures Unvisited(Listed(t, entries, path, ancestors), ancestors)
    decreases |entries|
  {
    if entries != [] { ListedUnvisited(t, entries[1..], path, ancestors); }
  }

  lemma {:induction false} VisitNests(t: Tree, n: Node, ancestors: seq<Id>)
    requires TreeOk(t) && NodeOk(t, n, ancestors) && Unvisited([n], ancestors)
    ensures OpenAfter(Visit(t, n, ancestors), ancestors) == Some(ancestors)
    decreases Left(t, ancestors), 0, 0
  {
    assert [n][0] == n && [n][1..] == [];
    if n.info == D {
      Deeper(t, ancestors, n.id);
      var line := ancestors + [n.id];
      ListedUnvisited(t, t.inodes[n.id].entries, n.path, line);
      VisitAllNests(t, Kids(t, n, ancestors), line);
      BracketNests(n, VisitAll(t, Kids(t, n, ancestors), line), ancestors);
    }
  }

  /** A directory opened before visits that nest and closed after them. */
  lemma BracketNests(n: Node, inner: seq<Node>, open: seq<Id>)
    requires n.info == D && n.id !in open && OpenAfter(inner, open + [n.id]) == Some(open + [n.id])
    ensures OpenAfter([n] + inner + [n.(info := DP)], open) == Some(open)
  {
    var line, last := open + [n.id], [n.(info := DP)];
    OpenAppend([n] + inner, last, open);
    OpenAppend([n], inner, open);
    assert [n][1..] == [] && last[1..] == [] && line[..|line| - 1] == open;
    assert OpenAfter([n], open) == OpenAfter([], line);
    assert OpenAfter(last, line) == OpenAfter([], open);
  }

  lemma {:induction false} VisitAllNests(t: Tree, s: seq<Node>, ancestors: seq<Id>)
    requires TreeOk(t) && NodesOk(t, s, ancestors) && Unvisited(s, ancestors)
    ensures OpenAfter(VisitAll(t, s, ancestors), ancestors) == Some(ancestors)
    decreases Left(t, ancestors), 1, |s|
  {
    if s != [] {
      VisitNests(t, s[0], ancestors);
      VisitAllNests(t, s[1..], ancestors);
      OpenAppend(Visit(t, s[0], ancestors), VisitAll(t, s[1..], ancestors), ancestors);
    }
  }

  lemma {:induction false} RootsUnvisited(t: Tree, args: seq<Entry>)
    requires TreeOk(t) && forall k :: 0 <= k < |args| ==> args[k].id in t.inodes
    ensures Unvisited(Roots(t, args), [])
    decreases |args|
  {
    if args != [] { RootsUnvisited(t, args[1..]); }
  }

  /** The visits of directories nest, and at the end every directory opened has been closed. */
  lemma TraversalNests(t: Tree, args: seq<Entry>)
    requires ArgsOk(t, args)
    ensures OpenAfter(Traversal(t, args), []) == Some([])
  {
    RootsOk(t, args);
    RootsUnvisited(t, args);
    VisitAllNests(t, Roots(t, args), []);
  }

  // ----- paths -----

  ghost predicate Under(s: seq<Node>, path: string)
  {
    forall i :: 0 <= i < |s| ==> s[i].path == Join(path, s[i].name)
  }

  ghost predicate Named(s: seq<Node>)
  {
    forall i :: 0 <= i < |s| ==> s[i].path != ""
  }

  /** Every node is reached through its parent's path, and no path is empty. */
  ghost predicate PathsOk(levels: Levels)
  {
    forall d :: 0 <= d < |levels| ==> PathOk(levels, d)
  }

  ghost predicate PathOk(levels: Levels, d: nat)
    requires d < |levels|
  {
    Named(levels[d]) && (d > 0 && levels[d - 1] != [] ==> Under(levels[d], levels[d - 1][0].path))
  }

  lemma {:induction false} ListedPaths(t: Tree, entries: seq<Entry>, path: string, ancestors: seq<Id>)
    requires forall k :: 0 <= k < |entries| ==> entries[k].id in t.inodes
    ensures Under(Listed(t, entries, path, ancestors), path)
    decreases |entries|
  {
    if entries != [] {
      ListedPaths(t, entries[1..], path, ancestors);
      var rest, s := Listed(t, entries[1..], path, ancestors), Listed(t, entries, path, ancestors);
      assert s == rest || s[1..] == rest;
      forall i | 0 <= i < |s| ensures s[i].path == Join(path, s[i].name) {
        if s != rest && i > 0 { assert s[i] == rest[i - 1]; }
      }
    }
  }

  lemma CurrentPath(levels: Levels, info: Info)
    requires levels != [] && levels[|levels| - 1] != [] && PathsOk(levels)
    ensures PathsOk(WithCurrent(levels, Current(levels).(info := info)))
  {
    var levels' := WithCurrent(levels, Current(levels).(info := info));
    forall d | 0 <= d < |levels'| ensures PathOk(levels', d) {
      assert PathOk(levels, d);
    }
  }

  lemma DownPath(levels: Levels, kids: seq<Node>)
    requires levels != [] && levels[|levels| - 1] != [] && PathsOk(levels) && Under(kids, Current(levels).path)
    ensures PathsOk(levels + [kids])
  {
    forall d | 0 <= d < |levels + [kids]| ensures PathOk(levels + [kids], d) {
      if d < |levels| { assert PathOk(levels, d); }
    }
  }

  lemma AlongPath(levels: Levels)
    requires levels != [] && |levels[|levels| - 1]| > 1 && PathsOk(levels)
    ensures PathsOk(levels[..|levels| - 1] + [levels[|levels| - 1][1..]])
  {
    var levels' := levels[..|levels| - 1] + [levels[|levels| - 1][1..]];
    forall d | 0 <= d < |levels'| ensures PathOk(levels', d) {
      assert PathOk(levels, d);
    }
  }

  lemma UpPath(levels: Levels)
    requires levels != [] && PathsOk(levels)
    ensures PathsOk(levels[..|levels| - 1])
  {
    var up := levels[..|levels| - 1];
    forall d | 0 <= d < |up| ensures PathOk(up, d) {
      assert PathOk(levels, d);
    }
  }

  lemma ReadPaths(t: Tree, levels: Levels)
    requires LevelsOk(t, levels) && PathsOk(levels)
    ensures var r := Read(t, levels); r.Moved? ==> PathsOk(r.levels)
  {
    var last := |levels| - 1;
    var n := Current(levels);
    assert LevelOk(t, levels, last);
    if n.info == D {
      ListedPaths(t, t.inodes[n.id].entries, n.path, Line(levels, last) + [n.id]);
      CurrentPath(levels, DP);
      DownPath(levels, Kids(t, n, Line(levels, last)));
    } else if |levels[last]| > 1 {
      AlongPath(levels);
    } else if last > 0 {
      UpPath(levels);
      CurrentPath(levels[..last], DP);
    }
  }

  /** A path begins with that of its parent. */
  lemma JoinExtends(path: string, name: string)
    requires path != ""
    ensures |Join(path, name)| >= |path| && Join(path, name)[..|path|] == path
  {
  }
}
