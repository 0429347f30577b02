/** ProjectTimes and get_partition of partition.py: projects and their dependencies dealt out to shards by time. */
module Partition {
  import opened Basics
  import opened BuildOrder

  /** A project; `depNames` are the names of all it depends on, in the order in which its set is gone through. */
  datatype Project = Project(name: Name, time: nat, depNames: seq<Name>)

  /** The projects by name: a project depends on all that its dependencies depend on, and on nothing of its rank. */
  ghost predicate ProjectsOk(projects: map<Name, Project>, rank: map<Name, nat>)
  {
    forall n :: n in projects ==> ProjectOk(projects, rank, n)
  }

  ghost predicate ProjectOk(projects: map<Name, Project>, rank: map<Name, nat>, n: Name)
    requires n in projects
  {
    && projects[n].name == n && Distinct(projects[n].depNames)
    && forall d :: d in projects[n].depNames ==>
      d in projects && Rank(rank, d) < Rank(rank, n) && Names(projects[d].depNames) <= Names(projects[n].depNames)
  }

  /** What get_dependencies gives for every project makes them so. */
  lemma DependenciesOk(depends: map<Name, seq<Name>>, rank: map<Name, nat>, projects: map<Name, Project>)
    requires Ranked(depends, rank)
    requires forall n :: n in projects ==> n in depends && projects[n].name == n && Distinct(projects[n].depNames)
    requires forall n :: n in projects ==> Names(projects[n].depNames) == NeededBy(depends, rank, [n]) - Names([n])
    requires forall n, d :: n in projects && d in projects[n].depNames ==> d in projects
    ensures ProjectsOk(projects, rank)
  {
    forall n | n in projects ensures ProjectOk(projects, rank, n) {
      NeededByOne(depends, rank, n);
      forall d | d in projects[n].depNames
        ensures Rank(rank, d) < Rank(rank, n) && Names(projects[d].depNames) <= Names(projects[n].depNames)
      {
        assert d in Names(projects[n].depNames);
        NeededByOne(depends, rank, d);
        NeedsTransitive(depends, rank, n, d);
        if n in Needs(depends, rank, d) { NeedsTransitive(depends, rank, d, n); }
      }
    }
  }

  lemma NeededByOne(depends: map<Name, seq<Name>>, rank: map<Name, nat>, n: Name)
    requires Ranked(depends, rank) && n in depends
    ensures NeededBy(depends, rank, [n]) == Needs(depends, rank, n) && Names([n]) == {n}
  {
    assert [n][1..] == [];
  }

  // ----- times -----

  /** The time of all the projects of a list. */
  ghost function Total(projects: map<Name, Project>, names: seq<Name>): nat
  {
    if names == [] then 0 else TimeOf(projects, names[|names| - 1]) + Total(projects, names[..|names| - 1])
  }

  function TimeOf(projects: map<Name, Project>, n: Name): nat
  {
    if n in projects then projects[n].time else 0
  }

  /** The time of the names of a list that are not in `used`. */
  ghost function Unused(projects: map<Name, Project>, names: seq<Name>, used: set<Name>): nat
  {
    if names == [] then 0
    else (if names[0] in used then 0 else TimeOf(projects, names[0])) + Unused(projects, names[1..], used)
  }

  /** get_time: the project's own time and that of its dependencies that are not there yet. */
  ghost function GetTime(projects: map<Name, Project>, p: Project, used: set<Name>): nat
  {
    p.time + Unused(projects, p.depNames, used)
  }

  /** The loop of get_time. */
  method ProjectTime(projects: map<Name, Project>, p: Project, used: set<Name>) returns (time: nat)
    ensures time == GetTime(projects, p, used)
  {
    time := p.time;
    assert p.depNames[0..] == p.depNames;
    for i := 0 to |p.depNames|
      invariant time + Unused(projects, p.depNames[i..], used) == GetTime(projects, p, used)
    {
      assert p.depNames[i..][1..] == p.depNames[i + 1..];
      if p.depNames[i] !in used { time := time + TimeOf(projects, p.depNames[i]); }
    }
  }

  /** A project and all it depends on. */
  function WithDeps(p: Project): set<Name> { {p.name} + Names(p.depNames) }

  /** The time of a project with all its dependencies. */
  ghost function FullTime(projects: map<Name, Project>, p: Project): nat { GetTime(projects, p, {}) }

  lemma {:induction false} UnusedMonotone(projects: map<Name, Project>, names: seq<Name>, used: set<Name>,
      more: set<Name>)
    requires used <= more
    ensures Unused(projects, names, more) <= Unused(projects, names, used)
    decreases |names|
  {
    if names != [] { UnusedMonotone(projects, names[1..], used, more); }
  }

  lemma {:induction false} UnusedNone(projects: map<Name, Project>, names: seq<Name>, used: set<Name>)
    requires Names(names) <= used
    ensures Unused(projects, names, used) == 0
    decreases |names|
  {
    if names != [] {
      assert names[0] in Names(names) && Names(names[1..]) <= Names(names);
      UnusedNone(projects, names[1..], used);
    }
  }

  /** Using one more name of a list without repetition saves exactly its time. */
  lemma {:induction false} UnusedLess(projects: map<Name, Project>, names: seq<Name>, used: set<Name>, n: Name)
    requires Distinct(names) && n in names && n !in used
    ensures Unused(projects, names, used) == TimeOf(projects, n) + Unused(projects, names, used + {n})
    decreases |names|
  {
    if names[0] == n {
      assert n !in names[1..];
      UnusedSame(projects, names[1..], used, {n});
    } else {
      assert n in names[1..];
      UnusedLess(projects, names[1..], used, n);
    }
  }

  lemma {:induction false} UnusedSame(projects: map<Name, Project>, names: seq<Name>, used: set<Name>,
      others: set<Name>)
    requires forall x :: x in names ==> x !in others
    ensures Unused(projects, names, used + others) == Unused(projects, names, used)
    decreases |names|
  {
    if names != [] { UnusedSame(projects, names[1..], used, others); }
  }

  /** Using a set of names of the list saves the time of those that were not used. */
  lemma {:induction false} UnusedSplit(projects: map<Name, Project>, names: seq<Name>, part: seq<Name>, used: set<Name>)
    requires Distinct(names) && Distinct(part) && Names(part) <= Names(names)
    ensures Unused(projects, names, used) == Unused(projects, part, used) + Unused(projects, names, used + Names(part))
    decreases |part|
  {
    if part == [] {
      assert used + Names(part) == used;
    } else {
      var x, rest := part[0], part[1..];
      assert Names(part) == {x} + Names(rest) && x in names;
      if x in used {
        assert used + Names(part) == used + Names(rest);
        UnusedSplit(projects, names, rest, used);
      } else {
        UnusedLess(projects, names, used, x);
        UnusedSplit(projects, names, rest, used + {x});
        UnusedSame(projects, rest, used, {x});
        assert used + {x} + Names(rest) == used + Names(part);
      }
    }
  }

  // ----- a shard -----

  function NamesOf(ps: seq<Project>): (r: seq<Name>)
    ensures |r| == |ps| && forall i :: 0 <= i < |ps| ==> r[i] == ps[i].name
  {
    seq(|ps|, i requires 0 <= i < |ps| => ps[i].name)
  }

  /** No project twice, each after all it depends on, and the time is that of the projects there. */
  ghost predicate ShardOk(projects: map<Name, Project>, names: set<Name>, order: seq<Project>, total: nat)
  {
    && Distinct(NamesOf(order)) && names == Names(NamesOf(order)) && total == Total(projects, NamesOf(order))
    && (forall i :: 0 <= i < |order| ==> order[i].name in projects && projects[order[i].name] == order[i])
    && forall i, d :: 0 <= i < |order| && d in order[i].depNames ==> d in NamesOf(order)[..i]
  }

  lemma EmptyShard(projects: map<Name, Project>)
    ensures ShardOk(projects, {}, [], 0)
  {
  }

  /** A project may be listed once all it depends on is. */
  lemma ShardGrows(projects: map<Name, Project>, names: set<Name>, order: seq<Project>, total: nat, p: Project)
    requires ShardOk(projects, names, order, total) && p.name in projects && projects[p.name] == p
    requires p.name !in names && Names(p.depNames) <= names
    ensures ShardOk(projects, names + {p.name}, order + [p], total + p.time)
  {
    var more, known, all := order + [p], NamesOf(order), NamesOf(order) + [p.name];
    assert NamesOf(more) == all && all[..|order|] == known;
    assert Names(all) == names + {p.name};
    forall i, d | 0 <= i < |more| && d in more[i].depNames ensures d in all[..i] {
      if i < |order| {
        assert more[i] == order[i] && all[..i] == known[..i];
      } else {
        assert d in Names(p.depNames) && d in Names(known);
      }
    }
  }

  /** A dependency and all it depends on, as part of what the project depends on. */
  lemma DependencyAdded(projects: map<Name, Project>, rank: map<Name, nat>, n: Name, d: Name, used: set<Name>)
    requires ProjectsOk(projects, rank) && n in projects && d in projects[n].depNames && d !in used
    ensures d in projects && WithDeps(projects[d]) <= Names(projects[n].depNames)
    ensures
      var all := projects[n].depNames;
      Unused(projects, all, used) ==
        GetTime(projects, projects[d], used) + Unused(projects, all, used + WithDeps(projects[d]))
  {
    assert ProjectOk(projects, rank, n) && ProjectOk(projects, rank, d);
    var part := [d] + projects[d].depNames;
    assert d !in projects[d].depNames;
    assert part[1..] == projects[d].depNames;
    assert Names(part) == WithDeps(projects[d]);
    UnusedSplit(projects, projects[n].depNames, part, used);
  }

  class ProjectTimes {
    var projectNames: set<Name>
    var projects: seq<Project>
    var totalTime: nat

    constructor ()
      ensures projectNames == {} && projects == [] && totalTime == 0
    {
      projectNames, projects, totalTime := {}, [], 0;
    }

    ghost predicate Valid(all: map<Name, Project>)
      reads this
    {
      var ok := ShardOk(all, projectNames, projects, totalTime);
      ok
    }

    /** The total that get_total_time_with_project predicts. */
    ghost function GetTotalTimeWithProject(all: map<Name, Project>, project: Project): nat
      reads this
    {
      totalTime + GetTime(all, project, projectNames)
    }

    /** get_total_time_with_project */
    method Predict(all: map<Name, Project>, project: Project) returns (t: nat)
      ensures t == GetTotalTimeWithProject(all, project)
    {
      var more := ProjectTime(all, project, projectNames);
      t := totalTime + more;
    }

    /** has_project */
    predicate HasProject(project: Project)
      reads this
    {
      project.name in projectNames
    }

    /** add_project: the project comes after what it depends on, and the time is the one predicted. */
    method AddProject(all: map<Name, Project>, ghost rank: map<Name, nat>, project: Project)
      requires ProjectsOk(all, rank) && Valid(all) && project.name in all && all[project.name] == project
        && !HasProject(project)
      modifies this
      ensures Valid(all) && projectNames == old(projectNames) + WithDeps(project) && old(projects) <= projects
      ensures totalTime == old(GetTotalTimeWithProject(all, project))
      decreases Rank(rank, project.name), 2
    {
      assert ProjectOk(all, rank, project.name);
      AddDependencies(all, rank, project);
      UnusedNone(all, project.depNames, projectNames + {project.name});
      ShardGrows(all, projectNames, projects, totalTime, project);
      projectNames := projectNames + {project.name};
      projects := projects + [project];
      totalTime := Predict(all, project);
    }

    /** add_dependencies */
    method AddDependencies(all: map<Name, Project>, ghost rank: map<Name, nat>, project: Project)
      requires ProjectsOk(all, rank) && Valid(all) && project.name in all && all[project.name] == project
      modifies this
      ensures Valid(all) && projectNames == old(projectNames) + Names(project.depNames) && old(projects) <= projects
      ensures totalTime == old(totalTime) + Unused(all, project.depNames, old(projectNames))
      decreases Rank(rank, project.name), 1
    {
      var deps := project.depNames;
      assert ProjectOk(all, rank, project.name);
      for i := 0 to |deps|
        invariant Valid(all) && old(projects) <= projects
        invariant old(projectNames) + Names(deps[..i]) <= projectNames <= old(projectNames) + Names(deps)
        invariant totalTime + Unused(all, deps, projectNames) == old(totalTime + Unused(all, deps, projectNames))
      {
        NamesNext(deps, i);
        AddDependency(all, rank, project, deps[i]);
      }
      assert deps[..|deps|] == deps;
      UnusedNone(all, deps, projectNames);
    }

    /** One turn of the loop of add_dependencies. */
    method AddDependency(all: map<Name, Project>, ghost rank: map<Name, nat>, project: Project, d: Name)
      requires ProjectsOk(all, rank) && Valid(all) && project.name in all && all[project.name] == project
        && d in project.depNames
      modifies this
      ensures Valid(all) && old(projects) <= projects
      ensures old(projectNames) + {d} <= projectNames <= old(projectNames) + Names(project.depNames)
      ensures totalTime + Unused(all, project.depNames, projectNames) ==
        old(totalTime + Unused(all, project.depNames, projectNames))
      decreases Rank(rank, project.name), 0
    {
      assert ProjectOk(all, rank, project.name);
      if d !in projectNames {
        DependencyAdded(all, rank, project.name, d, projectNames);
        AddProject(all, rank, all[d]);
      }
    }

    /** topologically_sorted_project_names: the projects as they are listed, without repetition. */
    method TopologicallySortedProjectNames(all: map<Name, Project>, ghost rank: map<Name, nat>)
      returns (sorted: seq<Name>)
      requires ProjectsOk(all, rank) && Valid(all)
      ensures sorted == NamesOf(projects) && Distinct(sorted) && Names(sorted) == projectNames
      ensures forall i, d :: 0 <= i < |sorted| && d in all[sorted[i]].depNames ==> d in sorted[..i]
    {
      sorted := [];
      ghost var names := NamesOf(projects);
      for i := 0 to |projects|
        invariant sorted == names[..i]
      {
        assert projects[i].name in all;
        sorted := Helper(all, rank, projects[i], sorted);
        assert names[..i + 1] == names[..i] + [projects[i].name];
      }
      assert names[..|projects|] == names;
    }
  }

  /**
   The helper of topologically_sorted_project_names, which adds nothing but the project once its
   dependencies are listed.
   */
  method Helper(all: map<Name, Project>, ghost rank: map<Name, nat>, project: Project, before: seq<Name>)
    returns (sorted: seq<Name>)
    requires ProjectsOk(all, rank) && project.name in all && all[project.name] == project
    ensures before <= sorted && project.name in sorted && Names(project.depNames) <= Names(sorted)
    ensures Names(project.depNames) <= Names(before) ==> sorted == before + [project.name]
    decreases Rank(rank, project.name)
  {
    sorted := before;
    assert ProjectOk(all, rank, project.name);
    for i := 0 to |project.depNames|
      invariant before <= sorted && Names(project.depNames[..i]) <= Names(sorted)
      invariant Names(project.depNames) <= Names(before) ==> sorted == before
    {
      var d := project.depNames[i];
      NamesNext(project.depNames, i);
      if d !in sorted {
        var more := Helper(all, rank, all[d], sorted);
        PrefixNames(sorted, more);
        sorted := more;
      }
    }
    assert project.depNames[..|project.depNames|] == project.depNames;
    sorted := sorted + [project.name];
  }

  lemma UpTo<T>(s: seq<T>, i: nat)
    requires i < |s|
    ensures s[..i + 1] == s[..i] + [s[i]]
  {
  }

  lemma NamesNext(s: seq<Name>, i: nat)
    requires i < |s|
    ensures Names(s[..i + 1]) == Names(s[..i]) + {s[i]} && s[i] in Names(s)
  {
    assert s[..i + 1] == s[..i] + [s[i]];
  }

  lemma PrefixNames(a: seq<Name>, b: seq<Name>)
    requires a <= b
    ensures Names(a) <= Names(b)
  {
    forall x | x in a ensures x in b { assert b[..|a|] == a; }
  }

  // ----- the partition -----

  /** The greatest time of a project of the list with all its dependencies. */
  ghost function Largest(all: map<Name, Project>, ps: seq<Project>): nat
  {
    if ps == [] then 0
    else if FullTime(all, ps[0]) >= Largest(all, ps[1..]) then FullTime(all, ps[0]) else Largest(all, ps[1..])
  }

  lemma {:induction false} LargestBounds(all: map<Name, Project>, ps: seq<Project>, i: nat)
    requires i < |ps|
    ensures FullTime(all, ps[i]) <= Largest(all, ps)
    decreases |ps|
  {
    if i > 0 { LargestBounds(all, ps[1..], i - 1); }
  }

  /** It is that of one of them. */
  lemma {:induction false} LargestIsOne(all: map<Name, Project>, ps: seq<Project>) returns (i: nat)
    requires ps != []
    ensures i < |ps| && Largest(all, ps) == FullTime(all, ps[i])
    decreases |ps|
  {
    i := 0;
    if FullTime(all, ps[0]) < Largest(all, ps[1..]) {
      i := LargestIsOne(all, ps[1..]);
      i := i + 1;
    }
  }

  lemma {:induction false} TotalCons(projects: map<Name, Project>, n: Name, names: seq<Name>)
    ensures Total(projects, [n] + names) == TimeOf(projects, n) + Total(projects, names)
    decreases |names|
  {
    var all := [n] + names;
    if names == [] {
      assert all[..|all| - 1] == [];
    } else {
      assert all[..|all| - 1] == [n] + names[..|names| - 1];
      TotalCons(projects, n, names[..|names| - 1]);
    }
  }

  /** The time of a project with all its dependencies is the total of itself and them. */
  lemma FullTimeIs(projects: map<Name, Project>, p: Project)
    requires p.name in projects && projects[p.name] == p
    ensures FullTime(projects, p) == Total(projects, [p.name] + p.depNames)
  {
    UnusedAll(projects, p.depNames);
    TotalCons(projects, p.name, p.depNames);
  }

  lemma {:induction false} UnusedAll(projects: map<Name, Project>, names: seq<Name>)
    ensures Unused(projects, names, {}) == Total(projects, names)
    decreases |names|
  {
    if names != [] {
      UnusedAll(projects, names[1..]);
      TotalCons(projects, names[0], names[1..]);
      assert names == [names[0]] + names[1..];
    }
  }

  /** What holds of the shards when some projects have been dealt out. */
  ghost predicate Dealt(all: map<Name, Project>, parts: seq<ProjectTimes>, done: seq<Project>, most: nat)
    reads parts
  {
    var b := SoFar(all, parts, done, most);
    b
  }

  ghost predicate SoFar(all: map<Name, Project>, parts: seq<ProjectTimes>, done: seq<Project>, most: nat)
    reads parts
  {
    && (forall i, j :: 0 <= i < j < |parts| ==> parts[i] != parts[j])
    && (forall i :: 0 <= i < |parts| ==> parts[i].Valid(all))
    && (forall i, j :: 0 <= i < |parts| && 0 <= j < |parts| ==> parts[i].totalTime <= parts[j].totalTime + most)
    && (forall p :: p in done ==> Covered(parts, p))
  }

  ghost predicate Covered(parts: seq<ProjectTimes>, p: Project)
    reads parts
  {
    exists i :: 0 <= i < |parts| && parts[i].HasProject(p)
  }

  /** A shard keeps what it has. */
  twostate lemma StillCovered(parts: seq<ProjectTimes>)
    requires forall i :: 0 <= i < |parts| ==> old(parts[i].projectNames) <= parts[i].projectNames
    ensures forall p: Project :: old(Covered(parts, p)) ==> Covered(parts, p)
  {
    forall p: Project | old(Covered(parts, p)) ensures Covered(parts, p) {
      var i :| 0 <= i < |parts| && old(parts[i].HasProject(p));
      assert parts[i].HasProject(p);
    }
  }

  /** The names in each shard. */
  ghost function NamesIn(parts: seq<ProjectTimes>): seq<set<Name>>
    reads parts
  {
    seq(|parts|, i requires 0 <= i < |parts| reads parts => parts[i].projectNames)
  }

  /** A shard has been given a project and all it depends on. */
  ghost function WithNames(shards: seq<set<Name>>, k: nat, p: Project): seq<set<Name>>
    requires k < |shards|
  {
    shards[k := shards[k] + WithDeps(p)]
  }

  /** Each project is dealt to one shard, its home; a shard holds what the projects dealt to it need, and no more. */
  ghost predicate AtHome(shards: seq<set<Name>>, done: seq<Project>, homes: seq<nat>)
  {
    var b := |homes| == |done| && HasNeeded(shards, done, homes)
      && forall k: nat :: k < |shards| ==> NoMore(shards[k], done, homes, k);
    b
  }

  ghost predicate HasNeeded(shards: seq<set<Name>>, done: seq<Project>, homes: seq<nat>)
    requires |homes| == |done|
  {
    forall i :: 0 <= i < |done| ==> homes[i] < |shards| && WithDeps(done[i]) <= shards[homes[i]]
  }

  /** Every name in shard k is needed by a project whose home it is. */
  ghost predicate NoMore(shard: set<Name>, done: seq<Project>, homes: seq<nat>, k: nat)
    requires |homes| == |done|
  {
    forall n :: n in shard ==> exists i :: 0 <= i < |done| && homes[i] == k && n in WithDeps(done[i])
  }

  lemma KeepsNoMore(shard: set<Name>, done: seq<Project>, homes: seq<nat>, p: Project, home: nat, k: nat)
    requires |homes| == |done| && NoMore(shard, done, homes, k)
    ensures NoMore(shard, done + [p], homes + [home], k)
  {
    var done', homes' := done + [p], homes + [home];
    forall n | n in shard ensures exists i :: 0 <= i < |done'| && homes'[i] == k && n in WithDeps(done'[i]) {
      var i :| 0 <= i < |done| && homes[i] == k && n in WithDeps(done[i]);
      assert done'[i] == done[i] && homes'[i] == k;
    }
  }

  lemma NoMoreAtHome(shard: set<Name>, done: seq<Project>, homes: seq<nat>, p: Project, home: nat)
    requires |homes| == |done| && NoMore(shard, done, homes, home)
    ensures NoMore(shard + WithDeps(p), done + [p], homes + [home], home)
  {
    KeepsNoMore(shard, done, homes, p, home, home);
    assert (done + [p])[|done|] == p && (homes + [home])[|done|] == home;
  }

  lemma OneMoreNeeded(shards: seq<set<Name>>, done: seq<Project>, homes: seq<nat>, p: Project, home: nat)
    requires |homes| == |done| && HasNeeded(shards, done, homes) && home < |shards|
    ensures HasNeeded(WithNames(shards, home, p), done + [p], homes + [home])
  {
  }

  lemma OneMoreHome(shards: seq<set<Name>>, done: seq<Project>, homes: seq<nat>, p: Project, home: nat)
    requires AtHome(shards, done, homes) && home < |shards|
    ensures AtHome(WithNames(shards, home, p), done + [p], homes + [home])
  {
    OneMoreNeeded(shards, done, homes, p, home);
    var shards' := WithNames(shards, home, p);
    forall k: nat | k < |shards'| ensures NoMore(shards'[k], done + [p], homes + [home], k) {
      if k == home {
        NoMoreAtHome(shards[k], done, homes, p, home);
      } else {
        KeepsNoMore(shards[k], done, homes, p, home, k);
      }
    }
  }

  /** A shard that has a project has all it needs. */
  lemma HasAll(all: map<Name, Project>, part: ProjectTimes, p: Project)
    requires part.Valid(all) && part.HasProject(p) && p.name in all && all[p.name] == p
    ensures WithDeps(p) <= part.projectNames
  {
    var names := NamesOf(part.projects);
    assert p.name in Names(names);
    var i :| 0 <= i < |names| && names[i] == p.name;
    assert part.projects[i] == p;
    forall d | d in p.depNames ensures d in part.projectNames {
      assert d in names[..i];
      assert d in Names(names);
    }
  }

  /** To a shard that has the project nothing need be added for it. */
  lemma HomeIs(all: map<Name, Project>, parts: seq<ProjectTimes>, p: Project, done: seq<Project>, most: nat)
    returns (home: nat)
    requires Dealt(all, parts, done, most) && Covered(parts, p) && p.name in all && all[p.name] == p
    ensures home < |parts| && NamesIn(parts) == WithNames(NamesIn(parts), home, p)
    ensures Dealt(all, parts, done + [p], most)
  {
    home :| 0 <= home < |parts| && parts[home].HasProject(p);
    HasAll(all, parts[home], p);
    assert parts[home].projectNames + WithDeps(p) == parts[home].projectNames;
  }

  /** any(part.has_project(project) for part in parts) */
  method AnyHas(parts: seq<ProjectTimes>, project: Project) returns (any: bool)
    ensures any <==> Covered(parts, project)
  {
    for i := 0 to |parts|
      invariant forall j :: 0 <= j < i ==> !parts[j].HasProject(project)
    {
      if parts[i].HasProject(project) { return true; }
    }
    return false;
  }

  /** What each shard's total would be with the project. */
  ghost function Predictions(all: map<Name, Project>, parts: seq<ProjectTimes>, project: Project): seq<nat>
    reads parts
  {
    seq(|parts|, i requires 0 <= i < |parts| reads parts => parts[i].GetTotalTimeWithProject(all, project))
  }

  ghost predicate FirstLeast(s: seq<nat>, k: nat)
  {
    k < |s| && (forall j :: 0 <= j < |s| ==> s[k] <= s[j]) && forall j :: 0 <= j < k ==> s[k] < s[j]
  }

  /** The first shard whose total with the project would be the least. */
  method Least(all: map<Name, Project>, parts: seq<ProjectTimes>, project: Project) returns (k: nat)
    requires parts != []
    ensures FirstLeast(Predictions(all, parts, project), k)
  {
    ghost var totals := Predictions(all, parts, project);
    k := 0;
    var least := parts[0].Predict(all, project);
    for i := 1 to |parts|
      invariant k < i && least == totals[k]
      invariant (forall j :: 0 <= j < i ==> totals[k] <= totals[j]) && forall j :: 0 <= j < k ==> totals[k] < totals[j]
    {
      var t := parts[i].Predict(all, project);
      if t < least { k, least := i, t; }
    }
  }

  /** The project goes to a shard that stays, with it, within the bound of every other. */
  method Give(all: map<Name, Project>, ghost rank: map<Name, nat>, parts: seq<ProjectTimes>, k: nat, project: Project,
      ghost done: seq<Project>, ghost most: nat)
    requires ProjectsOk(all, rank) && project.name in all && all[project.name] == project
    requires k < |parts| && Dealt(all, parts, done, most) && !parts[k].HasProject(project)
    requires forall j :: 0 <= j < |parts| ==>
      parts[k].GetTotalTimeWithProject(all, project) <= parts[j].totalTime + most
    modifies parts[k]
    ensures Dealt(all, parts, done + [project], most)
    ensures NamesIn(parts) == WithNames(old(NamesIn(parts)), k, project)
    ensures parts[k].totalTime == old(parts[k].GetTotalTimeWithProject(all, project))
  {
    parts[k].AddProject(all, rank, project);
    StillCovered(parts);
    assert parts[k].HasProject(project);
  }

  /** A project that no shard has goes to the first with the least predicted total. */
  method Place(all: map<Name, Project>, ghost rank: map<Name, nat>, parts: seq<ProjectTimes>, project: Project,
      ghost done: seq<Project>, ghost most: nat) returns (k: nat)
    requires ProjectsOk(all, rank) && project.name in all && all[project.name] == project
    requires FullTime(all, project) <= most
    requires parts != [] && Dealt(all, parts, done, most) && !Covered(parts, project)
    modifies parts
    ensures Dealt(all, parts, done + [project], most)
    ensures k < |parts| && NamesIn(parts) == WithNames(old(NamesIn(parts)), k, project)
    ensures FirstLeast(old(Predictions(all, parts, project)), k)
  {
    k := Least(all, parts, project);
    LeastIsWithin(all, parts, k, project, most);
    assert !parts[k].HasProject(project);
    Give(all, rank, parts, k, project, done, most);
  }

  /**
   One project goes, with what it needs, to its home: a shard that has it already, which nothing is added
   to, or else the first with the least predicted total. No other shard gets anything.
   */
  method Deal(all: map<Name, Project>, ghost rank: map<Name, nat>, parts: seq<ProjectTimes>, project: Project,
      ghost done: seq<Project>, ghost most: nat) returns (ghost home: nat)
    requires ProjectsOk(all, rank) && project.name in all && all[project.name] == project
    requires FullTime(all, project) <= most
    requires parts != [] && Dealt(all, parts, done, most)
    modifies parts
    ensures Dealt(all, parts, done + [project], most)
    ensures home < |parts| && NamesIn(parts) == WithNames(old(NamesIn(parts)), home, project)
    ensures if old(Covered(parts, project)) then NamesIn(parts) == old(NamesIn(parts))
      else FirstLeast(old(Predictions(all, parts, project)), home)
  {
    var any := AnyHas(parts, project);
    if any {
      home := HomeIs(all, parts, project, done, most);
    } else {
      home := Place(all, rank, parts, project, done, most);
    }
  }

  /** The project is dealt, and its home is noted. */
  method DealNext(all: map<Name, Project>, ghost rank: map<Name, nat>, parts: seq<ProjectTimes>, project: Project,
      ghost done: seq<Project>, ghost most: nat, ghost homes: seq<nat>) returns (ghost homes': seq<nat>)
    requires ProjectsOk(all, rank) && project.name in all && all[project.name] == project
    requires FullTime(all, project) <= most
    requires parts != [] && Dealt(all, parts, done, most) && AtHome(NamesIn(parts), done, homes)
    modifies parts
    ensures Dealt(all, parts, done + [project], most) && AtHome(NamesIn(parts), done + [project], homes')
  {
    ghost var before := NamesIn(parts);
    ghost var home := Deal(all, rank, parts, project, done, most);
    OneMoreHome(before, done, homes, project, home);
    homes' := homes + [home];
  }

  /** With the project, that shard stays within the time of the project and all its dependencies of any other. */
  lemma LeastIsWithin(all: map<Name, Project>, parts: seq<ProjectTimes>, k: nat, project: Project, most: nat)
    requires FirstLeast(Predictions(all, parts, project), k) && FullTime(all, project) <= most
    ensures forall j :: 0 <= j < |parts| ==>
      parts[k].GetTotalTimeWithProject(all, project) <= parts[j].totalTime + most
  {
    var totals := Predictions(all, parts, project);
    forall j | 0 <= j < |parts|
      ensures parts[k].GetTotalTimeWithProject(all, project) <= parts[j].totalTime + most
    {
      UnusedMonotone(all, project.depNames, {}, parts[j].projectNames);
      assert totals[k] <= totals[j];
    }
  }

  method EmptyParts(all: map<Name, Project>, dims: nat, ghost most: nat) returns (parts: seq<ProjectTimes>)
    ensures |parts| == dims && fresh(parts) && Dealt(all, parts, [], most) && AtHome(NamesIn(parts), [], [])
  {
    parts := [];
    for i := 0 to dims
      invariant |parts| == i && fresh(parts)
      invariant forall j :: 0 <= j < i ==> parts[j].totalTime == 0 && parts[j].projectNames == {}
      invariant Dealt(all, parts, [], most)
    {
      var part := new ProjectTimes();
      EmptyShard(all);
      parts := parts + [part];
    }
  }

  /**
   get_partition: every project is dealt to one shard; a shard holds what the projects dealt to it need and
   no more, lists no project twice, lists what a project depends on before it, and its total is the time of
   what it lists; and no two totals differ by more than the largest time of a project with all its
   dependencies. This holds in whatever order the projects are dealt out.
   */
  method GetPartition(all: map<Name, Project>, ghost rank: map<Name, nat>, sortedProjects: seq<Project>, dims: nat)
    returns (parts: seq<ProjectTimes>, ghost homes: seq<nat>)
    requires ProjectsOk(all, rank) && (forall p :: p in sortedProjects ==> p.name in all && all[p.name] == p)
    requires dims > 0 || sortedProjects == []
    ensures |parts| == dims && Dealt(all, parts, sortedProjects, Largest(all, sortedProjects))
    ensures AtHome(NamesIn(parts), sortedProjects, homes)
  {
    ghost var most, done := Largest(all, sortedProjects), [];
    parts := EmptyParts(all, dims, most);
    homes := [];
    for i := 0 to |sortedProjects|
      invariant |parts| == dims && fresh(parts) && done == sortedProjects[..i]
      invariant Dealt(all, parts, done, most) && AtHome(NamesIn(parts), done, homes)
    {
      LargestBounds(all, sortedProjects, i);
      homes := DealNext(all, rank, parts, sortedProjects[i], done, most, homes);
      UpTo(sortedProjects, i);
      done := done + [sortedProjects[i]];
    }
    assert sortedProjects[..|sortedProjects|] == sortedProjects;
  }
}
