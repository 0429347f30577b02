/**
 The process table of the NaCl process manager: spawn, exit, waitpid, process groups, sessions,
 the foreground process and the pipes of each process. Every handler is one atomic step.
 */
module Processes {
  import opened Basics
  import P = Pipes

  const EPERM := 1
  const ESRCH := 3
  const EINVAL := 22
  const INIT_PID := 1

  datatype Process = Process(exitCode: Option<int>, pgid: int, ppid: int)
  datatype Group = Group(sid: int, members: set<int>)

  /** The page element of a process: `gone` once it has exited, and the element it was spawned from. */
  datatype Element = Element(gone: bool, parent: Option<int>)

  /** An exit status delivered to a waiting process. */
  datatype Delivery = Delivery(to: int, pid: int, status: int)

  datatype Kernel = Kernel(
    processes: map<int, Process>,
    groups: map<int, Group>,
    waiters: map<int, seq<int>>,
    nextPid: int,
    foreground: Option<int>,
    elements: map<int, Element>,
    pipes: P.Server,
    log: seq<Delivery>)

  predicate Live(k: Kernel, p: int)
  {
    Runs(k.processes, p)
  }

  predicate Exited(k: Kernel, p: int)
  {
    p in k.processes && k.processes[p].exitCode != None
  }

  function ParentPid(e: Element): int
  {
    match e.parent case Some(p) => p case None => INIT_PID
  }

  // ----- the invariant -----

  /** Pids are handed out in order; elements remember every process there was. */
  ghost predicate TableOk(k: Kernel)
  {
    && k.nextPid >= 2
    && (forall p :: p in k.elements <==> 2 <= p < k.nextPid)
    && (forall p :: p in k.processes ==> p in k.elements && k.processes[p].ppid == ParentPid(k.elements[p]))
    && (forall p :: p in k.elements ==> (k.elements[p].gone <==> !Live(k, p)))
    && (forall p :: p in k.elements && k.elements[p].parent.Some? ==> 2 <= k.elements[p].parent.value < p)
  }

  ghost predicate Member(groups: map<int, Group>, g: int, p: int)
  {
    g in groups && p in groups[g].members
  }

  predicate Runs(processes: map<int, Process>, p: int)
  {
    p in processes && processes[p].exitCode == None
  }

  /** The running processes other than `apart` and the members of the groups are the same, group by group. */
  ghost predicate AgreeBut(groups: map<int, Group>, processes: map<int, Process>, apart: int)
  {
    && (forall p :: Runs(processes, p) && p != apart ==> Member(groups, processes[p].pgid, p))
    && (forall g, p :: Member(groups, g, p) ==> Runs(processes, p) && p != apart && processes[p].pgid == g)
    && (forall g :: g in groups ==> groups[g].members != {})
  }

  /** No process has this pid. */
  const NOBODY := -1

  /** Live processes and group membership agree both ways, no group is empty, and group ids are allocated pids. */
  ghost predicate GroupsOk(k: Kernel)
  {
    && AgreeBut(k.groups, k.processes, NOBODY)
    && (forall g :: g in k.groups ==> 2 <= g < k.nextPid)
    && (forall p :: p in k.processes ==> 2 <= k.processes[p].pgid < k.nextPid)
  }

  /** A wait with this key would be answered by the exit of `p`. */
  predicate Answers(k: Kernel, key: int, p: int)
    requires p in k.processes
  {
    key == p || key == -1 || key == -k.processes[p].pgid
  }

  /** No exited child is left unreaped while its parent waits for it. */
  ghost predicate NoLostExit(k: Kernel)
  {
    forall p, key :: Exited(k, p) && key in k.waiters && Answers(k, key, p) ==> k.processes[p].ppid !in k.waiters[key]
  }

  ghost predicate ForegroundOk(k: Kernel)
  {
    k.foreground.Some? ==> Live(k, k.foreground.value)
  }

  /** Only live processes hold pipes. */
  ghost predicate PipesOk(k: Kernel)
  {
    P.Inv(k.pipes) && forall p, id :: P.On(k.pipes, p, id) ==> Live(k, p)
  }

  ghost predicate Inv(k: Kernel)
  {
    TableOk(k) && GroupsOk(k) && NoLostExit(k) && ForegroundOk(k) && PipesOk(k)
  }

  // ----- process groups -----

  /** deleteProcessFromGroup; the original throws when the process is not in its group. */
  function DeleteFromGroup(groups: map<int, Group>, pid: int, pgid: int): map<int, Group>
    requires pgid in groups && pid in groups[pgid].members
  {
    var rest := groups[pgid].members - {pid};
    if rest == {} then groups - {pgid} else groups[pgid := Group(groups[pgid].sid, rest)]
  }

  /** createProcessGroup: the member recorded is the id of the group; the original throws when the group exists. */
  function CreateGroup(groups: map<int, Group>, pid: int, sid: int): map<int, Group>
    requires pid !in groups
  {
    groups[pid := Group(sid, {pid})]
  }

  function AddToGroup(groups: map<int, Group>, pid: int, pgid: int): map<int, Group>
    requires pgid in groups
  {
    groups[pgid := Group(groups[pgid].sid, groups[pgid].members + {pid})]
  }

  // ----- the steps -----

  function RoutesStdin(specs: seq<P.PipeSpec>): bool
  {
    exists i :: 0 <= i < |specs| && specs[i].PipeSpec? && specs[i].fd == 0
  }

  /** The table part of spawn; `parent` is None for a process started from the page. */
  ghost function Spawn(k: Kernel, parent: Option<int>, specs: seq<P.PipeSpec>): Kernel
    requires Inv(k) && (parent.Some? ==> Live(k, parent.value))
  {
    var pid := k.nextPid;
    var pgid := if parent.Some? then k.processes[parent.value].pgid else pid;
    var ppid := if parent.Some? then parent.value else INIT_PID;
    var groups := if parent.None? then CreateGroup(k.groups, pid, pid) else k.groups;
    k.(
      nextPid := pid + 1,
      processes := k.processes[pid := Process(None, pgid, ppid)],
      groups := AddToGroup(groups, pid, pgid),
      elements := k.elements[pid := Element(false, parent)],
      pipes := P.Next(k.pipes, P.AddPipes(pid, specs)).server,
      foreground := if !RoutesStdin(specs) && (k.foreground.None? || k.foreground == parent) then Some(pid)
        else k.foreground)
  }

  /** The waiters other than `ppid`, in order. */
  function Others(queue: seq<int>, ppid: int): seq<int>
  {
    if queue == [] then []
    else (if queue[0] == ppid then [] else [queue[0]]) + Others(queue[1..], ppid)
  }

  function CountOf(queue: seq<int>, ppid: int): nat
  {
    if queue == [] then 0 else (if queue[0] == ppid then 1 else 0) + CountOf(queue[1..], ppid)
  }

  function Waiting(waiters: map<int, seq<int>>, key: int, ppid: int): nat
  {
    if key in waiters then CountOf(waiters[key], ppid) else 0
  }

  /** The queue for `key` without the waiters of `ppid`; an empty queue is removed. */
  function Answered(waiters: map<int, seq<int>>, key: int, ppid: int): map<int, seq<int>>
  {
    if key !in waiters then waiters
    else if Others(waiters[key], ppid) == [] then waiters - {key}
    else waiters[key := Others(waiters[key], ppid)]
  }

  function Repeat(d: Delivery, n: nat): seq<Delivery>
  {
    if n == 0 then [] else [d] + Repeat(d, n - 1)
  }

  /** The nearest element from `e` upwards whose process has not exited. */
  function NextForeground(elements: map<int, Element>, e: Option<int>): Option<int>
    requires forall p :: p in elements && elements[p].parent.Some? ==> 2 <= elements[p].parent.value < p
    requires e.Some? ==> e.value >= 2
    decreases if e.Some? then e.value else 0
  {
    if e.None? || e.value !in elements then None
    else if !elements[e.value].gone then e
    else NextForeground(elements, elements[e.value].parent)
  }

  /** How many waits an exit answers. */
  function AnsweredBy(k: Kernel, pid: int): nat
    requires pid in k.processes
  {
    var q := k.processes[pid];
    Waiting(k.waiters, pid, q.ppid) + Waiting(k.waiters, -1, q.ppid) + Waiting(k.waiters, -q.pgid, q.ppid)
  }

  ghost function Exit(k: Kernel, code: int, pid: int): Kernel
    requires Inv(k) && Live(k, pid)
  {
    var q := k.processes[pid];
    var reaped := AnsweredBy(k, pid);
    var elements := k.elements[pid := k.elements[pid].(gone := true)];
    k.(
      pipes := P.Next(k.pipes, P.DeleteProcess(pid)).server,
      groups := DeleteFromGroup(k.groups, pid, q.pgid),
      waiters := Answered(Answered(Answered(k.waiters, pid, q.ppid), -1, q.ppid), -q.pgid, q.ppid),
      log := k.log + Repeat(Delivery(q.ppid, pid, code), reaped),
      processes := if reaped > 0 then k.processes - {pid} else k.processes[pid := q.(exitCode := Some(code))],
      elements := elements,
      foreground := if k.foreground == Some(pid) then NextForeground(elements, k.elements[pid].parent)
        else k.foreground)
  }

  /** An exited child of `src` that a wait on the negative `key` may reap. */
  predicate Reapable(k: Kernel, p: int, key: int, src: int)
  {
    Exited(k, p) && k.processes[p].ppid == src && (key == -1 || k.processes[p].pgid == -key)
  }

  /** The first such child from `p` on. */
  function FirstReapable(k: Kernel, p: int, key: int, src: int): (r: Option<int>)
    ensures r.Some? ==> p <= r.value < k.nextPid && Reapable(k, r.value, key, src)
    decreases k.nextPid - p
  {
    if p >= k.nextPid then None
    else if Reapable(k, p, key, src) then Some(p)
    else FirstReapable(k, p + 1, key, src)
  }

  /** What a wait is told at once: an error, a status, nothing yet, or that it must stay queued. */
  datatype WaitReply = NoChild | Status(pid: int, status: int) | NotYet | Blocked

  function Reap(k: Kernel, p: int, src: int): Kernel
    requires Exited(k, p)
  {
    k.(processes := k.processes - {p}, log := k.log + [Delivery(src, p, k.processes[p].exitCode.value)])
  }

  /** The queue a wait joins. */
  function WaitKey(k: Kernel, pid: int, src: int): int
    requires pid == 0 ==> src in k.processes
  {
    if pid == 0 then -k.processes[src].pgid else pid
  }

  function WaitPid(k: Kernel, pid: int, nohang: bool, src: int): (Kernel, WaitReply)
    requires src == INIT_PID || Live(k, src)
  {
    if pid > 0 && (pid !in k.processes || k.processes[pid].ppid != src) then (k, NoChild)
    else if pid > 0 && Exited(k, pid) then (Reap(k, pid, src), Status(pid, k.processes[pid].exitCode.value))
    else if pid == 0 && src == INIT_PID then (k, NoChild)
    else
      var key := WaitKey(k, pid, src);
      var found := if key < 0 then FirstReapable(k, 2, key, src) else None;
      if found.Some? then (Reap(k, found.value, src), Status(found.value, k.processes[found.value].exitCode.value))
      else if nohang then (k, NotYet)
      else
        var queue := if key in k.waiters then k.waiters[key] else [];
        (k.(waiters := k.waiters[key := queue + [src]]), Blocked)
  }

  /** The process and the group a setpgid names; 0 stands for the caller and for the process itself. */
  function Named(arg: int, default: int): int { if arg == 0 then default else arg }

  /** setpgid: the result of the call, 0 or a negative error. */
  function SetPgidResult(k: Kernel, src: int, pidArg: int, pgidArg: int): int
    requires Live(k, src) && k.processes[src].pgid in k.groups
    requires forall p :: Live(k, p) ==> k.processes[p].pgid in k.groups
  {
    var pid := Named(pidArg, src);
    var newPgid := Named(pgidArg, pid);
    if newPgid < 0 then -EINVAL
    else if !Live(k, pid) || (src != pid && src != k.processes[pid].ppid) then -ESRCH
    else
      var sid := k.groups[k.processes[pid].pgid].sid;
      if newPgid in k.groups && k.groups[newPgid].sid != sid then -EPERM
      else if sid != k.groups[k.processes[src].pgid].sid then -EPERM
      else if sid == pid then -EPERM
      else 0
  }

  ghost function SetPgid(k: Kernel, src: int, pidArg: int, pgidArg: int): Kernel
    requires Inv(k) && Live(k, src)
  {
    if SetPgidResult(k, src, pidArg, pgidArg) != 0 then k
    else
      var pid := Named(pidArg, src);
      var newPgid := Named(pgidArg, pid);
      var oldPgid := k.processes[pid].pgid;
      var groups := DeleteFromGroup(k.groups, pid, oldPgid);
      k.(
        groups := if newPgid in groups then AddToGroup(groups, pid, newPgid)
                  else CreateGroup(groups, newPgid, k.groups[oldPgid].sid),
        processes := k.processes[pid := k.processes[pid].(pgid := newPgid)])
  }

  /** The group named has a member other than the process moved, or is the process's own. */
  ghost predicate GroupToJoin(k: Kernel, pid: int, newPgid: int)
  {
    newPgid == pid || (newPgid in k.groups && k.groups[newPgid].members - {pid} != {})
  }

  /** setsid; it is refused to the leader of a group. */
  ghost function SetSid(k: Kernel, src: int): Kernel
    requires Inv(k) && Live(k, src)
  {
    if src in k.groups then k
    else
      k.(
        groups := CreateGroup(DeleteFromGroup(k.groups, src, k.processes[src].pgid), src, src),
        processes := k.processes[src := k.processes[src].(pgid := src)])
  }
}
