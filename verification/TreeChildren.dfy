/** What the traversal shows below each directory: its entries, in their order. */
module TreeChildren {
  import opened Basics
  import opened TreeWalk

  /** The nodes seen `depth` directories up, until what holds them is closed. */
  function AtDepth(s: seq<Node>, depth: nat): seq<Node>
  {
    if s == [] then []
    else
      var here := if depth == 0 then [s[0]] else [];
      match s[0].info
      case D => here + AtDepth(s[1..], depth + 1)
      case DP => if depth == 0 then [] else AtDepth(s[1..], depth - 1)
      case _ => here + AtDepth(s[1..], depth)
  }

  function Here(s: seq<Node>, depth: nat): seq<Node>
  {
    if depth == 0 then s else []
  }

  /** A directory opened before `inner` and closed after it. */
  lemma BracketDepth(n: Node, inner: seq<Node>, more: seq<Node>, depth: nat)
    requires n.info == D
    ensures
      var last := [n.(info := DP)];
      && AtDepth([n] + inner + last + more, depth) == Here([n], depth) + AtDepth(inner + (last + more), depth + 1)
      && AtDepth(last + more, depth + 1) == AtDepth(more, depth)
  {
    var last := [n.(info := DP)];
    assert ([n] + inner + last + more)[1..] == inner + (last + more) && (last + more)[1..] == more;
  }

  lemma LeafDepth(n: Node, more: seq<Node>, depth: nat)
    requires n.info != D && n.info != DP
    ensures AtDepth([n] + more, depth) == Here([n], depth) + AtDepth(more, depth)
  {
    assert ([n] + more)[1..] == more;
  }

  lemma HereMore(s: seq<Node>, tail: seq<Node>, depth: nat)
    requires s != []
    ensures Here([s[0]], depth) + (Here(s[1..], depth) + tail) == Here(s, depth) + tail
  {
    assert [s[0]] + s[1..] == s;
  }

  lemma {:induction false} VisitDepth(t: Tree, n: Node, ancestors: seq<Id>, more: seq<Node>, depth: nat)
    requires TreeOk(t) && NodeOk(t, n, ancestors) && n.info != DP
    ensures AtDepth(Visit(t, n, ancestors) + more, depth) == Here([n], depth) + AtDepth(more, depth)
    decreases Left(t, ancestors), 0, 0
  {
    if n.info == D {
      Deeper(t, ancestors, n.id);
      var line, kids := ancestors + [n.id], Kids(t, n, ancestors);
      ListedUnvisited(t, t.inodes[n.id].entries, n.path, line);
      VisitAllDepth(t, kids, line, [n.(info := DP)] + more, depth + 1);
      BracketDepth(n, VisitAll(t, kids, line), more, depth);
    } else {
      LeafDepth(n, more, depth);
    }
  }

  lemma {:induction false} VisitAllDepth(t: Tree, s: seq<Node>, ancestors: seq<Id>, more: seq<Node>, depth: nat)
    requires TreeOk(t) && NodesOk(t, s, ancestors) && forall k :: 0 <= k < |s| ==> s[k].info != DP
    ensures AtDepth(VisitAll(t, s, ancestors) + more, depth) == Here(s, depth) + AtDepth(more, depth)
    decreases Left(t, ancestors), 1, |s|
  {
    if s == [] {
      assert [] + more == more;
    } else {
      var v, rest := Visit(t, s[0], ancestors), VisitAll(t, s[1..], ancestors);
      VisitDepth(t, s[0], ancestors, rest + more, depth);
      VisitAllDepth(t, s[1..], ancestors, more, depth);
      Assoc(v, rest, more);
      HereMore(s, AtDepth(more, depth), depth);
    }
  }

  /**
   At `i` of the visits `all`, with the directories `open` at their beginning, a directory is
   entered; `kids` come below it.
   */
  ghost predicate Entered(t: Tree, all: seq<Node>, open: seq<Id>, more: seq<Node>, i: nat, line: seq<Id>)
  {
    && TreeOk(t) && i < |all| && all[i].info == D && NodeOk(t, all[i], line) && OpenAfter(all[..i], open) == Some(line)
    && AtDepth((all + more)[i + 1..], 0) == Kids(t, all[i], line)
  }

  /** The directory itself is entered. */
  lemma EnteredFirst(t: Tree, n: Node, open: seq<Id>, more: seq<Node>)
    requires TreeOk(t) && NodeOk(t, n, open) && n.info == D
    ensures Entered(t, Visit(t, n, open), open, more, 0, open)
  {
    Deeper(t, open, n.id);
    var line, kids, last := open + [n.id], Kids(t, n, open), [n.(info := DP)];
    ListedUnvisited(t, t.inodes[n.id].entries, n.path, line);
    VisitAllDepth(t, kids, line, last + more, 0);
    ClosedAtOnce(n, more);
    After(n, VisitAll(t, kids, line), last, more, 0);
  }

  lemma ClosedAtOnce(n: Node, more: seq<Node>)
    ensures AtDepth([n.(info := DP)] + more, 0) == []
  {
  }

  lemma After(n: Node, inner: seq<Node>, last: seq<Node>, more: seq<Node>, i: nat)
    requires i <= |inner|
    ensures
      var v := [n] + inner + last;
      (v + more)[i + 1..] == (inner + (last + more))[i..] && v[..i] == if i == 0 then [] else [n] + inner[..i - 1]
  {
  }

  /** A directory below it is. */
  lemma EnteredBelow(t: Tree, n: Node, inner: seq<Node>, open: seq<Id>, more: seq<Node>, i: nat, line: seq<Id>)
    requires n.info == D && n.id !in open && Entered(t, inner, open + [n.id], [n.(info := DP)] + more, i, line)
    ensures Entered(t, [n] + inner + [n.(info := DP)], open, more, i + 1, line)
  {
    After(n, inner, [n.(info := DP)], more, i + 1);
    var first := [n] + inner[..i];
    assert first[1..] == inner[..i];
  }

  lemma {:induction false} VisitEnters(t: Tree, n: Node, ancestors: seq<Id>, more: seq<Node>, i: nat)
    returns (line: seq<Id>)
    requires TreeOk(t) && NodeOk(t, n, ancestors) && Unvisited([n], ancestors)
    requires i < |Visit(t, n, ancestors)| && Visit(t, n, ancestors)[i].info == D
    ensures Entered(t, Visit(t, n, ancestors), ancestors, more, i, line)
    decreases Left(t, ancestors), 0, 0
  {
    assert n.info == D;
    line := ancestors;
    if i == 0 {
      EnteredFirst(t, n, ancestors, more);
    } else {
      Deeper(t, ancestors, n.id);
      var below, kids := ancestors + [n.id], Kids(t, n, ancestors);
      ListedUnvisited(t, t.inodes[n.id].entries, n.path, below);
      var inner := VisitAll(t, kids, below);
      assert i <= |inner| && Visit(t, n, ancestors)[i] == inner[i - 1];
      line := VisitAllEnters(t, kids, below, [n.(info := DP)] + more, i - 1);
      EnteredBelow(t, n, inner, ancestors, more, i - 1, line);
    }
  }

  lemma Parts<T>(v: seq<T>, rest: seq<T>, more: seq<T>, i: nat)
    requires i < |rest|
    ensures (v + rest)[|v| + i] == rest[i] && (v + rest)[..|v| + i] == v + rest[..i]
    ensures (v + rest + more)[|v| + i + 1..] == (rest + more)[i + 1..]
  {
  }

  /** Visits before the directory is entered, which close what they open. */
  lemma EnteredLater(t: Tree, v: seq<Node>, rest: seq<Node>, open: seq<Id>, more: seq<Node>, i: nat, line: seq<Id>)
    requires OpenAfter(v, open) == Some(open) && Entered(t, rest, open, more, i, line)
    ensures Entered(t, v + rest, open, more, |v| + i, line)
  {
    OpenAppend(v, rest[..i], open);
    Parts(v, rest, more, i);
  }

  /** Or after it is left. */
  lemma EnteredBefore(t: Tree, v: seq<Node>, rest: seq<Node>, open: seq<Id>, more: seq<Node>, i: nat, line: seq<Id>)
    requires Entered(t, v, open, rest + more, i, line)
    ensures Entered(t, v + rest, open, more, i, line)
  {
    assert (v + rest)[..i] == v[..i] && v + rest + more == v + (rest + more);
  }

  lemma {:induction false} VisitAllEnters(t: Tree, s: seq<Node>, ancestors: seq<Id>, more: seq<Node>, i: nat)
    returns (line: seq<Id>)
    requires TreeOk(t) && NodesOk(t, s, ancestors) && Unvisited(s, ancestors)
    requires i < |VisitAll(t, s, ancestors)| && VisitAll(t, s, ancestors)[i].info == D
    ensures Entered(t, VisitAll(t, s, ancestors), ancestors, more, i, line)
    decreases Left(t, ancestors), 1, |s|
  {
    var v, rest := Visit(t, s[0], ancestors), VisitAll(t, s[1..], ancestors);
    if i < |v| {
      line := VisitEnters(t, s[0], ancestors, rest + more, i);
      EnteredBefore(t, v, rest, ancestors, more, i, line);
    } else {
      line := VisitAllEnters(t, s[1..], ancestors, more, i - |v|);
      VisitNests(t, s[0], ancestors);
      EnteredLater(t, v, rest, ancestors, more, i - |v|, line);
    }
  }

  /**
   `kids` are exactly the entries whose name is neither "." nor "..", in their order, `ks` saying which:
   each under its name and the path of the directory, a directory on the way down as a cycle.
   */
  ghost predicate ExactlyEntries(t: Tree, entries: seq<Entry>, at: string, line: seq<Id>, kids: seq<Node>, ks: seq<nat>)
  {
    && Picks(entries, ks) && |kids| == |ks|
    && forall j :: 0 <= j < |ks| ==> Shows(t, entries[ks[j]], at, line, kids[j])
  }

  /** `ks` are the places of the names other than "." and "..", from the first to the last. */
  ghost predicate Picks(entries: seq<Entry>, ks: seq<nat>)
  {
    && (forall j, k :: 0 <= j < k < |ks| ==> ks[j] < ks[k]) && (forall j :: 0 <= j < |ks| ==> ks[j] < |entries|)
    && (forall k :: 0 <= k < |entries| && entries[k].name != "." && entries[k].name != ".." ==> k in ks)
  }

  ghost predicate Shows(t: Tree, e: Entry, at: string, line: seq<Id>, n: Node)
  {
    && e.name != "." && e.name != ".." && n.name == e.name && n.id == e.id && e.id in t.inodes
    && n.path == (if at != "" && at[|at| - 1] == '/' then at + e.name else at + "/" + e.name)
    && n.info == match t.inodes[e.id] case Leaf(i) => i case Dir(_) => if e.id in line then DC else D
  }

  lemma {:induction false} ListedAreEntries(t: Tree, entries: seq<Entry>, at: string, line: seq<Id>)
    returns (ks: seq<nat>)
    requires forall k :: 0 <= k < |entries| ==> entries[k].id in t.inodes
    ensures ExactlyEntries(t, entries, at, line, Listed(t, entries, at, line), ks)
    decreases |entries|
  {
    ks := [];
    if entries != [] {
      var last := |entries| - 1;
      var e, init := entries[last], entries[..last];
      ks := ListedAreEntries(t, init, at, line);
      assert entries == init + [e];
      ListedSnoc(t, init, e, at, line);
      if e.name != "." && e.name != ".." {
        var n := Node(e.name, e.id, Stat(t, e.name, e.id, line), Join(at, e.name));
        EntryShown(t, init, e, at, line, n, Listed(t, init, at, line), ks);
        ks := ks + [last];
      } else {
        DotSkipped(t, init, e, at, line, Listed(t, init, at, line), ks);
        assert Listed(t, init, at, line) + [] == Listed(t, init, at, line);
      }
    }
  }

  lemma DotSkipped(t: Tree, init: seq<Entry>, e: Entry, at: string, line: seq<Id>, kids: seq<Node>, ks: seq<nat>)
    requires (e.name == "." || e.name == "..") && ExactlyEntries(t, init, at, line, kids, ks)
    ensures ExactlyEntries(t, init + [e], at, line, kids, ks)
  {
  }

  lemma EntryShown(t: Tree, init: seq<Entry>, e: Entry, at: string, line: seq<Id>, n: Node, kids: seq<Node>,
      ks: seq<nat>)
    requires Shows(t, e, at, line, n) && ExactlyEntries(t, init, at, line, kids, ks)
    ensures ExactlyEntries(t, init + [e], at, line, kids + [n], ks + [|init|])
  {
    var all := ks + [|init|];
    forall k | 0 <= k <= |init| && (init + [e])[k].name != "." && (init + [e])[k].name != ".." ensures k in all {
      if k == |init| { assert all[|ks|] == k; } else { assert k in ks; }
    }
  }

  /**
   Below a directory that fts_read enters it returns exactly the entries of that directory but "." and
   "..", in their order; nothing when the walk stays on the device of its root and this is another.
   */
  lemma BelowAreEntries(t: Tree, args: seq<Entry>, i: nat) returns (ks: seq<nat>)
    requires ArgsOk(t, args) && i < |Traversal(t, args)| && Traversal(t, args)[i].info == D
    ensures
      var all := Traversal(t, args);
      var n, kids, open := all[i], AtDepth(all[i + 1..], 0), OpenAfter(all[..i], []);
      && n.id in t.inodes && t.inodes[n.id].Dir? && open.Some?
      && var line := open.value + [n.id];
         if t.xdev && n.id.dev != line[0].dev then kids == []
         else ExactlyEntries(t, t.inodes[n.id].entries, n.path, line, kids, ks)
  {
    RootsOk(t, args);
    RootsUnvisited(t, args);
    var all := Traversal(t, args);
    var line := VisitAllEnters(t, Roots(t, args), [], [], i);
    assert all + [] == all;
    ks := ListedAreEntries(t, t.inodes[all[i].id].entries, all[i].path, line + [all[i].id]);
  }

  /** What is left of a path after its last slash; a single slash stays. */
  ghost predicate LastPart(path: string, name: string)
  {
    if path == "/" then name == "/"
    else '/' !in name && (path == name || exists dir: string :: path == dir + "/" + name)
  }

  lemma {:induction false} AfterSlashIsLast(s: string)
    ensures '/' !in AfterSlash(s) && (s == AfterSlash(s) || exists dir: string :: s == dir + "/" + AfterSlash(s))
    decreases |s|
  {
    if s != "" {
      var init := s[..|s| - 1];
      assert s == init + [s[|s| - 1]];
      if s[|s| - 1] == '/' {
        assert s == init + "/" + "";
      } else {
        AfterSlashIsLast(init);
        if init != AfterSlash(init) {
          var dir: string :| init == dir + "/" + AfterSlash(init);
          assert s == dir + "/" + AfterSlash(s);
        }
      }
    }
  }

  lemma {:induction false} RootAt(t: Tree, args: seq<Entry>, j: nat)
    requires j < |args| && forall k :: 0 <= k < |args| ==> args[k].id in t.inodes
    ensures Roots(t, args)[j] == RootNode(t, args[j])
    decreases |args|
  {
    if j > 0 { RootAt(t, args[1..], j - 1); }
  }

  /**
   At the top fts_read returns the arguments in their order, each under its last part; a directory
   is one even as "." or "..".
   */
  lemma TopAreArguments(t: Tree, args: seq<Entry>)
    requires ArgsOk(t, args)
    ensures
      var roots := AtDepth(Traversal(t, args), 0);
      && |roots| == |args|
      && forall j :: 0 <= j < |args| ==>
           && roots[j].path == args[j].name && LastPart(args[j].name, roots[j].name) && roots[j].id == args[j].id
           && roots[j].info == match t.inodes[args[j].id] case Leaf(i) => i case Dir(_) => D
  {
    RootsOk(t, args);
    RootsUnvisited(t, args);
    VisitAllDepth(t, Roots(t, args), [], [], 0);
    assert Traversal(t, args) + [] == Traversal(t, args);
    forall j | 0 <= j < |args|
      ensures
        && Roots(t, args)[j] == RootNode(t, args[j]) && LastPart(args[j].name, Base(args[j].name))
        && RootNode(t, args[j]).info == match t.inodes[args[j].id] case Leaf(i) => i case Dir(_) => D
    {
      RootAt(t, args, j);
      AfterSlashIsLast(args[j].name);
    }
  }
}
