/** What every step of the process manager keeps, and what follows for whole runs. */
module ProcessRuns {
  import opened Basics
  import opened Processes
  import P = Pipes

  lemma DeleteMembers(groups: map<int, Group>, pid: int, pgid: int)
    requires Member(groups, pgid, pid)
    ensures
      var groups' := DeleteFromGroup(groups, pid, pgid);
      && (forall g, p :: Member(groups', g, p) <==> Member(groups, g, p) && (g != pgid || p != pid))
      && (forall g :: g in groups' ==> g in groups && groups'[g].sid == groups[g].sid)
      && (forall g :: g in groups && g != pgid ==> g in groups' && groups'[g] == groups[g])
      && (pgid in groups' <==> groups[pgid].members - {pid} != {})
  {
    var rest := groups[pgid].members - {pid};
    assert forall p :: p in groups[pgid].members && p != pid ==> p in rest;
  }

  lemma DeleteAgrees(groups: map<int, Group>, processes: map<int, Process>, pid: int)
    requires AgreeBut(groups, processes, NOBODY) && Runs(processes, pid) && NOBODY !in processes
    ensures Member(groups, processes[pid].pgid, pid)
    ensures AgreeBut(DeleteFromGroup(groups, pid, processes[pid].pgid), processes, pid)
  {
    DeleteMembers(groups, pid, processes[pid].pgid);
  }

  /** The groups with a process apart put into group `g`, which keeps its members or is made for it. */
  function Joined(groups: map<int, Group>, pid: int, g: int, sid: int): map<int, Group>
  {
    if g in groups then AddToGroup(groups, pid, g) else groups[g := Group(sid, {pid})]
  }

  lemma JoinAgrees(groups: map<int, Group>, processes: map<int, Process>, pid: int, g: int, sid: int,
                   processes': map<int, Process>)
    requires AgreeBut(groups, processes, pid) && NOBODY !in processes'
    requires processes'.Keys == processes.Keys + {pid} && Runs(processes', pid) && processes'[pid].pgid == g
    requires forall p :: p in processes && p != pid ==> processes'[p] == processes[p]
    ensures AgreeBut(Joined(groups, pid, g, sid), processes', NOBODY)
  {
    var groups' := Joined(groups, pid, g, sid);
    assert forall i, p :: Member(groups', i, p) <==> Member(groups, i, p) || (i == g && p == pid);
    assert pid in groups'[g].members;
    forall i, p | Member(groups', i, p) ensures Runs(processes', p) && p != NOBODY && processes'[p].pgid == i {
      if p != pid { assert Member(groups, i, p); }
    }
  }

  lemma SpawnKeeps(k: Kernel, parent: Option<int>, specs: seq<P.PipeSpec>)
    requires Inv(k) && (parent.Some? ==> Live(k, parent.value))
    ensures Inv(Spawn(k, parent, specs))
  {
    SpawnTable(k, parent, specs);
    SpawnNotLost(k, parent, specs);
    SpawnGroups(k, parent, specs);
    SpawnPipes(k, parent, specs);
  }

  lemma SpawnTable(k: Kernel, parent: Option<int>, specs: seq<P.PipeSpec>)
    requires Inv(k) && (parent.Some? ==> Live(k, parent.value))
    ensures TableOk(Spawn(k, parent, specs)) && ForegroundOk(Spawn(k, parent, specs))
  {
    var k' := Spawn(k, parent, specs);
    assert forall p :: Live(k', p) <==> Live(k, p) || p == k.nextPid;
  }

  lemma SpawnNotLost(k: Kernel, parent: Option<int>, specs: seq<P.PipeSpec>)
    requires Inv(k) && (parent.Some? ==> Live(k, parent.value))
    ensures NoLostExit(Spawn(k, parent, specs))
  {
    var k' := Spawn(k, parent, specs);
    forall p, key | Exited(k', p) && key in k'.waiters && Answers(k', key, p)
      ensures k'.processes[p].ppid !in k'.waiters[key]
    {
      assert Exited(k, p) && Answers(k, key, p);
    }
  }

  lemma SpawnPipes(k: Kernel, parent: Option<int>, specs: seq<P.PipeSpec>)
    requires Inv(k) && (parent.Some? ==> Live(k, parent.value))
    ensures PipesOk(Spawn(k, parent, specs))
  {
    var k' := Spawn(k, parent, specs);
    P.NextKeeps(k.pipes, P.AddPipes(k.nextPid, specs));
    P.NextMembers(k.pipes, P.AddPipes(k.nextPid, specs));
    assert forall p :: Live(k', p) <==> Live(k, p) || p == k.nextPid;
  }

  lemma SpawnGroups(k: Kernel, parent: Option<int>, specs: seq<P.PipeSpec>)
    requires Inv(k) && (parent.Some? ==> Live(k, parent.value))
    ensures GroupsOk(Spawn(k, parent, specs))
  {
    var k' := Spawn(k, parent, specs);
    var pid := k.nextPid;
    var pgid := k'.processes[pid].pgid;
    if parent.Some? { assert Member(k.groups, pgid, parent.value); }
    assert {pid} + {pid} == {pid};
    assert k'.groups == Joined(k.groups, pid, pgid, pid);
    JoinAgrees(k.groups, k.processes, pid, pgid, pid, k'.processes);
  }

  lemma {:induction false} OthersFacts(queue: seq<int>, ppid: int)
    ensures ppid !in Others(queue, ppid)
    ensures forall w :: w in Others(queue, ppid) ==> w in queue
    ensures CountOf(queue, ppid) == 0 ==> ppid !in queue
    ensures forall w :: w != ppid ==> CountOf(Others(queue, ppid), w) == CountOf(queue, w)
    decreases |queue|
  {
    if queue != [] {
      OthersFacts(queue[1..], ppid);
      var rest := Others(queue[1..], ppid);
      assert ([queue[0]] + rest)[1..] == rest;
      assert [] + rest == rest;
      assert Others(queue, ppid) == if queue[0] == ppid then rest else [queue[0]] + rest;
    }
  }

  lemma AnsweredFacts(waiters: map<int, seq<int>>, key: int, ppid: int)
    ensures
      var w' := Answered(waiters, key, ppid);
      && (forall i :: i in w' ==> i in waiters && forall w :: w in w'[i] ==> w in waiters[i])
      && (key in w' ==> ppid !in w'[key])
      && (forall i :: i != key ==> (i in w' <==> i in waiters) && (i in w' ==> w'[i] == waiters[i]))
  {
    if key in waiters { OthersFacts(waiters[key], ppid); }
  }

  lemma AnsweredAll(k: Kernel, pid: int)
    requires pid in k.processes
    ensures
      var q := k.processes[pid];
      var w' := Answered(Answered(Answered(k.waiters, pid, q.ppid), -1, q.ppid), -q.pgid, q.ppid);
      && (forall i :: i in w' ==> i in k.waiters && forall w :: w in w'[i] ==> w in k.waiters[i])
      && (forall i :: i in w' && Answers(k, i, pid) ==> q.ppid !in w'[i])
  {
    var q := k.processes[pid];
    var w1 := Answered(k.waiters, pid, q.ppid);
    var w2 := Answered(w1, -1, q.ppid);
    AnsweredFacts(k.waiters, pid, q.ppid);
    AnsweredFacts(w1, -1, q.ppid);
    AnsweredFacts(w2, -q.pgid, q.ppid);
  }

  lemma {:induction false} ForegroundLive(elements: map<int, Element>, e: Option<int>)
    requires forall p :: p in elements && elements[p].parent.Some? ==> 2 <= elements[p].parent.value < p
    requires e.Some? ==> e.value >= 2
    ensures
      var r := NextForeground(elements, e);
      r.Some? ==> r.value in elements && !elements[r.value].gone
    decreases if e.Some? then e.value else 0
  {
    if e.Some? && e.value in elements && elements[e.value].gone { ForegroundLive(elements, elements[e.value].parent); }
  }

  lemma ExitGroups(k: Kernel, code: int, pid: int)
    requires Inv(k) && Live(k, pid)
    ensures GroupsOk(Exit(k, code, pid))
  {
    DeleteAgrees(k.groups, k.processes, pid);
  }

  lemma ExitPipes(k: Kernel, code: int, pid: int)
    requires Inv(k) && Live(k, pid)
    ensures PipesOk(Exit(k, code, pid))
  {
    var k' := Exit(k, code, pid);
    P.NextKeeps(k.pipes, P.DeleteProcess(pid));
    P.DeletedHoldsNothing(k.pipes, pid);
    assert forall p :: p != pid ==> (Live(k', p) <==> Live(k, p));
  }

  lemma ExitTable(k: Kernel, code: int, pid: int)
    requires Inv(k) && Live(k, pid)
    ensures TableOk(Exit(k, code, pid)) && ForegroundOk(Exit(k, code, pid))
  {
    var k' := Exit(k, code, pid);
    assert forall p :: p != pid ==> (Live(k', p) <==> Live(k, p));
    ForegroundLive(k'.elements, k.elements[pid].parent);
  }

  lemma ExitNotLost(k: Kernel, code: int, pid: int)
    requires Inv(k) && Live(k, pid)
    ensures NoLostExit(Exit(k, code, pid))
  {
    var k' := Exit(k, code, pid);
    AnsweredAll(k, pid);
    forall p, key | Exited(k', p) && key in k'.waiters && Answers(k', key, p)
      ensures k'.processes[p].ppid !in k'.waiters[key]
    {
      if p == pid { assert Answers(k, key, pid); } else { assert Exited(k, p) && Answers(k, key, p); }
    }
  }

  lemma ExitKeeps(k: Kernel, code: int, pid: int)
    requires Inv(k) && Live(k, pid)
    ensures Inv(Exit(k, code, pid))
  {
    ExitTable(k, code, pid);
    ExitGroups(k, code, pid);
    ExitNotLost(k, code, pid);
    ExitPipes(k, code, pid);
  }

  lemma {:induction false} FirstReapableNone(k: Kernel, p: int, key: int, src: int)
    requires FirstReapable(k, p, key, src).None?
    ensures forall q :: p <= q < k.nextPid ==> !Reapable(k, q, key, src)
    decreases k.nextPid - p
  {
    if p < k.nextPid { FirstReapableNone(k, p + 1, key, src); }
  }

  lemma ReapKeeps(k: Kernel, p: int, src: int)
    requires Inv(k) && Exited(k, p)
    ensures Inv(Reap(k, p, src))
  {
    var k' := Reap(k, p, src);
    assert forall q :: (Live(k', q) <==> Live(k, q)) && (Exited(k', q) ==> Exited(k, q));
  }

  lemma WaitKeeps(k: Kernel, pid: int, nohang: bool, src: int)
    requires Inv(k) && (src == INIT_PID || Live(k, src))
    ensures Inv(WaitPid(k, pid, nohang, src).0)
  {
    var (k', reply) := WaitPid(k, pid, nohang, src);
    match reply
    case Status(p, status) => ReapKeeps(k, p, src);
    case Blocked =>
      var key := WaitKey(k, pid, src);
      if key < 0 { FirstReapableNone(k, 2, key, src); }
      forall p, i | Exited(k', p) && i in k'.waiters && Answers(k', i, p)
        ensures k'.processes[p].ppid !in k'.waiters[i]
      {
        assert Exited(k, p) && Answers(k, i, p) && 2 <= p < k.nextPid;
        if i == key && key < 0 { assert !Reapable(k, p, key, src); }
      }
    case _ =>
  }

  /** Groups and one live process's group changed, in agreement: everything else is kept. */
  lemma RegroupKeeps(k: Kernel, groups: map<int, Group>, pid: int, g: int)
    requires Inv(k) && Live(k, pid) && 2 <= g < k.nextPid && (forall i :: i in groups ==> 2 <= i < k.nextPid)
    requires AgreeBut(groups, k.processes[pid := k.processes[pid].(pgid := g)], NOBODY)
    ensures Inv(k.(groups := groups, processes := k.processes[pid := k.processes[pid].(pgid := g)]))
  {
    var k' := k.(groups := groups, processes := k.processes[pid := k.processes[pid].(pgid := g)]);
    assert forall p :: Live(k', p) <==> Live(k, p);
    assert TableOk(k');
    assert NoLostExit(k') by {
      forall p, key | Exited(k', p) && key in k'.waiters && Answers(k', key, p)
        ensures k'.processes[p].ppid !in k'.waiters[key]
      {
        assert Exited(k, p) && Answers(k, key, p);
      }
    }
  }

  /** setpgid where the group is the process's own or one with another member. */
  lemma SetPgidAgrees(k: Kernel, pid: int, newPgid: int)
    requires Inv(k) && Live(k, pid) && GroupToJoin(k, pid, newPgid)
    ensures
      var groups := DeleteFromGroup(k.groups, pid, k.processes[pid].pgid);
      var sid := k.groups[k.processes[pid].pgid].sid;
      && (newPgid in groups || newPgid == pid)
      && AgreeBut(Joined(groups, pid, newPgid, sid), k.processes[pid := k.processes[pid].(pgid := newPgid)], NOBODY)
  {
    var pgid := k.processes[pid].pgid;
    var groups := DeleteFromGroup(k.groups, pid, pgid);
    DeleteAgrees(k.groups, k.processes, pid);
    DeleteMembers(k.groups, pid, pgid);
    JoinAgrees(groups, k.processes, pid, newPgid, k.groups[pgid].sid,
      k.processes[pid := k.processes[pid].(pgid := newPgid)]);
  }

  lemma SetPgidKeeps(k: Kernel, src: int, pidArg: int, pgidArg: int)
    requires Inv(k) && Live(k, src)
    requires
      var pid := Named(pidArg, src);
      SetPgidResult(k, src, pidArg, pgidArg) == 0 ==> GroupToJoin(k, pid, Named(pgidArg, pid))
    ensures Inv(SetPgid(k, src, pidArg, pgidArg))
  {
    if SetPgidResult(k, src, pidArg, pgidArg) == 0 {
      var pid := Named(pidArg, src);
      var newPgid := Named(pgidArg, pid);
      var groups := DeleteFromGroup(k.groups, pid, k.processes[pid].pgid);
      SetPgidAgrees(k, pid, newPgid);
      DeleteMembers(k.groups, pid, k.processes[pid].pgid);
      RegroupKeeps(k, Joined(groups, pid, newPgid, k.groups[k.processes[pid].pgid].sid), pid, newPgid);
    }
  }

  /**
   Exactly when setpgid keeps processes and groups in agreement: the group named is the
   process's own pid, or has a member other than the process. Otherwise the group is created
   with its own id as its member in place of the process.
   */
  lemma SetPgidConsistentIff(k: Kernel, src: int, pidArg: int, pgidArg: int)
    requires Inv(k) && Live(k, src) && SetPgidResult(k, src, pidArg, pgidArg) == 0
    ensures
      var pid := Named(pidArg, src);
      Inv(SetPgid(k, src, pidArg, pgidArg)) <==> GroupToJoin(k, pid, Named(pgidArg, pid))
  {
    var pid := Named(pidArg, src);
    var newPgid := Named(pgidArg, pid);
    if GroupToJoin(k, pid, newPgid) {
      SetPgidKeeps(k, src, pidArg, pgidArg);
    } else {
      SetPgidBreaks(k, src, pidArg, pgidArg);
    }
  }

  lemma SetPgidBreaks(k: Kernel, src: int, pidArg: int, pgidArg: int)
    requires Inv(k) && Live(k, src) && SetPgidResult(k, src, pidArg, pgidArg) == 0
    requires
      var pid := Named(pidArg, src);
      !GroupToJoin(k, pid, Named(pgidArg, pid))
    ensures
      var pid := Named(pidArg, src);
      var k' := SetPgid(k, src, pidArg, pgidArg);
      Live(k', pid) && !Member(k'.groups, k'.processes[pid].pgid, pid)
  {
    var pid := Named(pidArg, src);
    var newPgid := Named(pgidArg, pid);
    var k' := SetPgid(k, src, pidArg, pgidArg);
    var groups := DeleteFromGroup(k.groups, pid, k.processes[pid].pgid);
    DeleteAgrees(k.groups, k.processes, pid);
    DeleteMembers(k.groups, pid, k.processes[pid].pgid);
    if newPgid in k.groups { WithoutStranger(k.groups[newPgid].members, pid); }
    assert newPgid != k.processes[pid].pgid ==> !Member(k.groups, newPgid, pid);
    assert newPgid !in groups;
  }

  lemma WithoutStranger(s: set<int>, p: int)
    ensures p !in s ==> s - {p} == s
  {}

  lemma SetSidKeeps(k: Kernel, src: int)
    requires Inv(k) && Live(k, src)
    ensures Inv(SetSid(k, src))
  {
    if src !in k.groups {
      var pgid := k.processes[src].pgid;
      var groups := DeleteFromGroup(k.groups, src, pgid);
      var processes := k.processes[src := k.processes[src].(pgid := src)];
      DeleteAgrees(k.groups, k.processes, src);
      DeleteMembers(k.groups, src, pgid);
      JoinAgrees(groups, k.processes, src, src, src, processes);
      RegroupKeeps(k, Joined(groups, src, src, src), src, src);
    }
  }

  // ----- every status is delivered once -----

  /** How often the status of `p` was delivered. */
  function Times(log: seq<Delivery>, p: int): nat
  {
    if log == [] then 0 else (if log[0].pid == p then 1 else 0) + Times(log[1..], p)
  }

  lemma {:induction false} TimesMore(log: seq<Delivery>, d: Delivery, p: int)
    ensures Times(log + [d], p) == Times(log, p) + if d.pid == p then 1 else 0
    decreases |log|
  {
    if log == [] {
      assert Times([d], p) == (if d.pid == p then 1 else 0) + Times([], p);
    } else {
      TimesMore(log[1..], d, p);
      assert (log + [d])[1..] == log[1..] + [d];
    }
  }

  lemma {:induction false} TimesRepeat(log: seq<Delivery>, d: Delivery, n: nat, p: int)
    ensures Times(log + Repeat(d, n), p) == Times(log, p) + if d.pid == p then n else 0
    decreases n
  {
    if n == 0 {
      assert log + Repeat(d, n) == log;
    } else {
      TimesRepeat(log + [d], d, n - 1, p);
      TimesMore(log, d, p);
      assert log + Repeat(d, n) == log + [d] + Repeat(d, n - 1);
    }
  }

  lemma {:induction false} RepeatHolds(d: Delivery, n: nat)
    ensures forall e :: e in Repeat(d, n) ==> e == d
    decreases n
  {
    if n > 0 { RepeatHolds(d, n - 1); }
  }

  /** The pids handed out whose status was delivered are those no longer in the table, and it went to the parent. */
  ghost predicate LogOk(k: Kernel)
  {
    && (forall p :: 2 <= p < k.nextPid ==> (Times(k.log, p) == 0 <==> p in k.processes))
    && (forall d :: d in k.log ==> d.pid in k.elements && d.to == ParentPid(k.elements[d.pid]))
  }

  lemma {:induction false} TimesAbsent(log: seq<Delivery>, p: int)
    requires forall d :: d in log ==> d.pid != p
    ensures Times(log, p) == 0
    decreases |log|
  {
    if log != [] { TimesAbsent(log[1..], p); }
  }

  ghost predicate IsWaiting(k: Kernel, src: int)
  {
    exists key :: key in k.waiters && src in k.waiters[key]
  }

  /** No process has more than one wait queued, and no status was delivered twice. */
  ghost predicate Once(k: Kernel)
  {
    OneWait(k.waiters) && forall p :: 2 <= p < k.nextPid ==> Times(k.log, p) <= 1
  }

  /** No process has more than one wait queued. */
  ghost predicate OneWait(waiters: map<int, seq<int>>)
  {
    && (forall key, w :: key in waiters ==> CountOf(waiters[key], w) <= 1)
    && (forall key, other, w :: key in waiters && other in waiters && key != other && w in waiters[key] ==>
       w !in waiters[other])
  }

  lemma {:induction false} CountPositive(queue: seq<int>, w: int)
    ensures CountOf(queue, w) > 0 <==> w in queue
    decreases |queue|
  {
    if queue != [] { CountPositive(queue[1..], w); }
  }

  lemma {:induction false} CountMore(queue: seq<int>, src: int, w: int)
    ensures CountOf(queue + [src], w) == CountOf(queue, w) + if src == w then 1 else 0
    decreases |queue|
  {
    if queue == [] {
      assert CountOf([src], w) == (if src == w then 1 else 0) + CountOf([], w);
    } else {
      CountMore(queue[1..], src, w);
      assert (queue + [src])[1..] == queue[1..] + [src];
    }
  }

  /** With one wait per process, an exit answers at most one. */
  lemma AnsweredOnce(k: Kernel, pid: int)
    requires Inv(k) && Live(k, pid) && OneWait(k.waiters)
    ensures AnsweredBy(k, pid) <= 1
  {
    var q := k.processes[pid];
    assert 2 <= pid && 2 <= q.pgid;
    if pid in k.waiters { CountPositive(k.waiters[pid], q.ppid); }
    if -1 in k.waiters { CountPositive(k.waiters[-1], q.ppid); }
    if -q.pgid in k.waiters { CountPositive(k.waiters[-q.pgid], q.ppid); }
  }

  lemma AnsweredOneWait(waiters: map<int, seq<int>>, key: int, ppid: int)
    requires OneWait(waiters)
    ensures OneWait(Answered(waiters, key, ppid))
  {
    AnsweredFacts(waiters, key, ppid);
    if key in waiters {
      OthersFacts(waiters[key], ppid);
      CountPositive(Others(waiters[key], ppid), ppid);
    }
  }

  lemma ExitLog(k: Kernel, code: int, pid: int)
    requires Inv(k) && Live(k, pid) && LogOk(k)
    ensures LogOk(Exit(k, code, pid))
  {
    var k' := Exit(k, code, pid);
    var d := Delivery(k.processes[pid].ppid, pid, code);
    forall p | 2 <= p < k'.nextPid ensures Times(k'.log, p) == 0 <==> p in k'.processes {
      TimesRepeat(k.log, d, AnsweredBy(k, pid), p);
    }
    RepeatHolds(d, AnsweredBy(k, pid));
    forall e | e in k'.log ensures e.pid in k'.elements && e.to == ParentPid(k'.elements[e.pid]) {
      assert e in k.log || e == d;
    }
  }

  lemma ExitOnce(k: Kernel, code: int, pid: int)
    requires Inv(k) && Live(k, pid) && LogOk(k) && Once(k)
    ensures Once(Exit(k, code, pid))
  {
    var k' := Exit(k, code, pid);
    var q := k.processes[pid];
    AnsweredOnce(k, pid);
    forall p | 2 <= p < k'.nextPid ensures Times(k'.log, p) <= 1 {
      TimesRepeat(k.log, Delivery(q.ppid, pid, code), AnsweredBy(k, pid), p);
    }
    AnsweredOneWait(k.waiters, pid, q.ppid);
    AnsweredOneWait(Answered(k.waiters, pid, q.ppid), -1, q.ppid);
    AnsweredOneWait(Answered(Answered(k.waiters, pid, q.ppid), -1, q.ppid), -q.pgid, q.ppid);
  }

  lemma ReapLog(k: Kernel, p: int, src: int)
    requires Inv(k) && Exited(k, p) && LogOk(k) && k.processes[p].ppid == src
    ensures LogOk(Reap(k, p, src))
    ensures forall q :: 2 <= q < k.nextPid ==> Times(Reap(k, p, src).log, q) == if q == p then 1 else Times(k.log, q)
  {
    var d := Delivery(src, p, k.processes[p].exitCode.value);
    forall q | 2 <= q < k.nextPid ensures Times(k.log + [d], q) == if q == p then 1 else Times(k.log, q) {
      TimesMore(k.log, d, q);
    }
  }

  lemma WaitLog(k: Kernel, pid: int, nohang: bool, src: int)
    requires Inv(k) && LogOk(k) && (src == INIT_PID || Live(k, src))
    ensures LogOk(WaitPid(k, pid, nohang, src).0)
  {
    match WaitPid(k, pid, nohang, src).1
    case Status(p, status) => ReapLog(k, p, src);
    case _ =>
  }

  lemma WaitOnce(k: Kernel, pid: int, nohang: bool, src: int)
    requires Inv(k) && LogOk(k) && Once(k) && !IsWaiting(k, src) && (src == INIT_PID || Live(k, src))
    ensures Once(WaitPid(k, pid, nohang, src).0)
  {
    var (k', reply) := WaitPid(k, pid, nohang, src);
    match reply
    case Status(p, status) => ReapLog(k, p, src);
    case Blocked =>
      var key := WaitKey(k, pid, src);
      var queue := if key in k.waiters then k.waiters[key] else [];
      assert src !in queue;
      CountPositive(queue, src);
      forall w ensures CountOf(queue + [src], w) <= 1 { CountMore(queue, src, w); }
      forall i, w | i in k'.waiters && i != key ensures w in k'.waiters[i] ==> w !in queue + [src] {
        assert i in k.waiters;
      }
    case _ =>
  }

  // ----- runs -----

  datatype Event =
    | Spawned(parent: Option<int>, specs: seq<P.PipeSpec>)
    | Exits(pid: int, code: int)
    | Waits(src: int, pid: int, nohang: bool)
    | SetsPgid(src: int, pidArg: int, pgidArg: int)
    | SetsSid(src: int)
    | Pipe(e: P.Event)

  /**
   What may happen next: a live process acts, or the page spawns or waits; setpgid names a group it
   keeps in agreement.
   */
  ghost predicate Allowed(k: Kernel, e: Event)
    requires Inv(k)
  {
    match e
    case Spawned(parent, specs) => parent.Some? ==> Live(k, parent.value)
    case Exits(pid, code) => Live(k, pid)
    case Waits(src, pid, nohang) => src == INIT_PID || Live(k, src)
    case SetsPgid(src, pidArg, pgidArg) =>
      var pid := Named(pidArg, src);
      Live(k, src) && (SetPgidResult(k, src, pidArg, pgidArg) == 0 ==> GroupToJoin(k, pid, Named(pgidArg, pid)))
    case SetsSid(src) => Live(k, src)
    case Pipe(pe) => !pe.AddPipes? && !pe.DeleteProcess? && Live(k, pe.src)
  }

  ghost function Next(k: Kernel, e: Event): Kernel
    requires Inv(k) && Allowed(k, e)
  {
    match e
    case Spawned(parent, specs) => Spawn(k, parent, specs)
    case Exits(pid, code) => Exit(k, code, pid)
    case Waits(src, pid, nohang) => WaitPid(k, pid, nohang, src).0
    case SetsPgid(src, pidArg, pgidArg) => SetPgid(k, src, pidArg, pgidArg)
    case SetsSid(src) => SetSid(k, src)
    case Pipe(pe) => k.(pipes := P.Next(k.pipes, pe).server)
  }

  ghost predicate FullInv(k: Kernel)
  {
    Inv(k) && LogOk(k)
  }

  lemma PipeKeeps(k: Kernel, e: P.Event)
    requires Inv(k) && !e.AddPipes? && !e.DeleteProcess? && Live(k, e.src)
    ensures Inv(k.(pipes := P.Next(k.pipes, e).server))
  {
    P.NextKeeps(k.pipes, e);
    P.NextMembers(k.pipes, e);
    RestKeeps(k, P.Next(k.pipes, e).server);
  }

  lemma RestKeeps(k: Kernel, pipes: P.Server)
    requires Inv(k) && P.Inv(pipes) && (forall p, id :: P.On(pipes, p, id) ==> Live(k, p))
    ensures Inv(k.(pipes := pipes))
  {
    var k' := k.(pipes := pipes);
    assert forall p :: (Live(k', p) <==> Live(k, p)) && (Exited(k', p) <==> Exited(k, p));
    assert forall p, key :: p in k.processes ==> (Answers(k', key, p) <==> Answers(k, key, p));
  }

  lemma SpawnLog(k: Kernel, parent: Option<int>, specs: seq<P.PipeSpec>)
    requires Inv(k) && LogOk(k) && (parent.Some? ==> Live(k, parent.value))
    ensures LogOk(Spawn(k, parent, specs))
  {
    TimesAbsent(k.log, k.nextPid);
  }

  lemma NextKeeps(k: Kernel, e: Event)
    requires FullInv(k) && Allowed(k, e)
    ensures FullInv(Next(k, e))
  {
    match e
    case Spawned(parent, specs) => SpawnKeeps(k, parent, specs); SpawnLog(k, parent, specs);
    case Exits(pid, code) => ExitKeeps(k, code, pid); ExitLog(k, code, pid);
    case Waits(src, pid, nohang) => WaitKeeps(k, pid, nohang, src); WaitLog(k, pid, nohang, src);
    case SetsPgid(src, pidArg, pgidArg) => SetPgidKeeps(k, src, pidArg, pgidArg);
    case SetsSid(src) => SetSidKeeps(k, src);
    case Pipe(pe) => PipeKeeps(k, pe);
  }

  const START: Kernel := Kernel(map[], map[], map[], 2, None, map[], P.START, [])

  ghost predicate Reaches(k: Kernel, events: seq<Event>, end: Kernel)
    requires FullInv(k)
    decreases |events|
  {
    if events == [] then k == end
    else
      && Allowed(k, events[0])
      && (NextKeeps(k, events[0]); Reaches(Next(k, events[0]), events[1..], end))
  }

  lemma {:induction false} ReachesKeeps(k: Kernel, events: seq<Event>, end: Kernel)
    requires FullInv(k) && Reaches(k, events, end)
    ensures FullInv(end)
    decreases |events|
  {
    if events != [] {
      NextKeeps(k, events[0]);
      ReachesKeeps(Next(k, events[0]), events[1..], end);
    }
  }

  lemma StartOk()
    ensures FullInv(START)
  {}

  /**
   In every reachable state: no exited child stays unreaped while its parent waits for it, however
   many waits are queued; a pid handed out is in the table until its status has been delivered, which
   is to its parent; processes and groups agree both ways; only live processes hold pipes or the
   foreground; and every pipe there is keeps what `Pipes` says of one.
   */
  lemma EveryRun(events: seq<Event>, k: Kernel)
    requires FullInv(START) && Reaches(START, events, k)
    ensures forall p, key :: Exited(k, p) && key in k.waiters && Answers(k, key, p) ==>
      k.processes[p].ppid !in k.waiters[key]
    ensures forall p :: 2 <= p < k.nextPid ==> (p in k.processes <==> Times(k.log, p) == 0)
    ensures forall d :: d in k.log ==> d.pid in k.elements && d.to == ParentPid(k.elements[d.pid])
    ensures forall p, id :: P.On(k.pipes, p, id) ==> Live(k, p)
    ensures forall id :: id in k.pipes.pipes ==>
      id in k.pipes.streams && P.PipeOk(k.pipes.pipes[id]) && P.Conserves(k.pipes.pipes[id], k.pipes.streams[id])
    ensures forall p :: Live(k, p) ==> Member(k.groups, k.processes[p].pgid, p)
    ensures forall g, p :: Member(k.groups, g, p) ==> Live(k, p) && k.processes[p].pgid == g
    ensures forall g :: g in k.groups ==> k.groups[g].members != {} && 2 <= g < k.nextPid
    ensures k.foreground.Some? ==> Live(k, k.foreground.value)
  {
    ReachesKeeps(START, events, k);
    forall id | id in k.pipes.pipes
      ensures id in k.pipes.streams && P.PipeOk(k.pipes.pipes[id])
        && P.Conserves(k.pipes.pipes[id], k.pipes.streams[id])
    {
      assert id in k.pipes.pipes.Keys;
    }
  }

  /** Each wait of the run is made by a process that has none queued. */
  ghost predicate OneAtATime(k: Kernel, events: seq<Event>)
    requires FullInv(k)
    decreases |events|
  {
    events == [] ||
    (Allowed(k, events[0]) && (events[0].Waits? ==> !IsWaiting(k, events[0].src))
     && (NextKeeps(k, events[0]); OneAtATime(Next(k, events[0]), events[1..])))
  }

  lemma NextOnce(k: Kernel, e: Event)
    requires FullInv(k) && Once(k) && Allowed(k, e) && (e.Waits? ==> !IsWaiting(k, e.src))
    ensures Once(Next(k, e))
  {
    match e
    case Spawned(parent, specs) => SpawnLog(k, parent, specs);
    case Exits(pid, code) => ExitOnce(k, code, pid);
    case Waits(src, pid, nohang) => WaitOnce(k, pid, nohang, src);
    case SetsPgid(src, pidArg, pgidArg) =>
    case SetsSid(src) =>
    case Pipe(pe) =>
  }

  lemma {:induction false} RunOnce(k: Kernel, events: seq<Event>, end: Kernel)
    requires FullInv(k) && Once(k) && Reaches(k, events, end) && OneAtATime(k, events)
    ensures FullInv(end) && Once(end)
    decreases |events|
  {
    if events != [] {
      NextKeeps(k, events[0]);
      NextOnce(k, events[0]);
      RunOnce(Next(k, events[0]), events[1..], end);
    }
  }

  /**
   If no process waits while it is waiting, every pid handed out is in the table, or its status
   was delivered exactly once.
   */
  lemma EveryStatusOnce(events: seq<Event>, k: Kernel)
    requires FullInv(START) && Reaches(START, events, k) && OneAtATime(START, events)
    ensures forall p :: 2 <= p < k.nextPid ==> Times(k.log, p) == if p in k.processes then 0 else 1
  {
    RunOnce(START, events, k);
  }

  /** No status was delivered twice. */
  ghost predicate NoneTwice(k: Kernel)
  {
    forall p :: 2 <= p < k.nextPid ==> Times(k.log, p) <= 1
  }

  /** Each exit of the run finds at most one of its parent's waits to answer. */
  ghost predicate OneAnswerEach(k: Kernel, events: seq<Event>)
    requires FullInv(k)
    decreases |events|
  {
    events == [] ||
    (Allowed(k, events[0]) && (events[0].Exits? ==> AnsweredBy(k, events[0].pid) <= 1)
     && (NextKeeps(k, events[0]); OneAnswerEach(Next(k, events[0]), events[1..])))
  }

  lemma ExitTimes(k: Kernel, code: int, pid: int)
    requires FullInv(k) && Live(k, pid)
    ensures
      var k' := Exit(k, code, pid);
      k'.nextPid == k.nextPid
      && forall p :: 2 <= p < k.nextPid ==> Times(k'.log, p) == if p == pid then AnsweredBy(k, pid) else Times(k.log, p)
  {
    var d := Delivery(k.processes[pid].ppid, pid, code);
    forall p | 2 <= p < k.nextPid
      ensures Times(Exit(k, code, pid).log, p) == if p == pid then AnsweredBy(k, pid) else Times(k.log, p)
    {
      TimesRepeat(k.log, d, AnsweredBy(k, pid), p);
    }
  }

  /** A status is delivered again by nothing but an exit that answers two waits or more. */
  lemma NextTwice(k: Kernel, e: Event)
    requires FullInv(k) && Allowed(k, e)
    ensures NoneTwice(Next(k, e)) <==> NoneTwice(k) && (e.Exits? ==> AnsweredBy(k, e.pid) <= 1)
  {
    match e
    case Spawned(parent, specs) => SpawnTwice(k, parent, specs);
    case Exits(pid, code) => ExitTimes(k, code, pid);
    case Waits(src, pid, nohang) => WaitTwice(k, pid, nohang, src);
    case _ =>
  }

  lemma SpawnTwice(k: Kernel, parent: Option<int>, specs: seq<P.PipeSpec>)
    requires FullInv(k) && (parent.Some? ==> Live(k, parent.value))
    ensures NoneTwice(Spawn(k, parent, specs)) <==> NoneTwice(k)
  {
    TimesAbsent(k.log, k.nextPid);
  }

  lemma WaitTwice(k: Kernel, pid: int, nohang: bool, src: int)
    requires FullInv(k) && (src == INIT_PID || Live(k, src))
    ensures NoneTwice(WaitPid(k, pid, nohang, src).0) <==> NoneTwice(k)
  {
    match WaitPid(k, pid, nohang, src).1
    case Status(p, status) => ReapLog(k, p, src);
    case _ =>
  }

  /** A run leaves no status delivered twice exactly when none was before and no exit answers two waits. */
  lemma {:induction false} RunTwice(k: Kernel, events: seq<Event>, end: Kernel)
    requires FullInv(k) && Reaches(k, events, end)
    ensures NoneTwice(end) <==> NoneTwice(k) && OneAnswerEach(k, events)
    decreases |events|
  {
    if events != [] {
      NextKeeps(k, events[0]);
      NextTwice(k, events[0]);
      RunTwice(Next(k, events[0]), events[1..], end);
    }
  }

  /**
   Every pid handed out is in the table, or its status was delivered exactly once, if and only if
   every exit of the run found at most one wait to answer.
   */
  lemma StatusOnceIff(events: seq<Event>, k: Kernel)
    requires FullInv(START) && Reaches(START, events, k)
    ensures
      (forall p :: 2 <= p < k.nextPid ==> Times(k.log, p) == if p in k.processes then 0 else 1)
      <==> OneAnswerEach(START, events)
  {
    ReachesKeeps(START, events, k);
    RunTwice(START, events, k);
  }

  // ----- runs that show where the guarantees end -----

  /** The page spawns 2, which spawns 3. */
  const FAMILY: Kernel := Kernel(
    map[2 := Process(None, 2, INIT_PID), 3 := Process(None, 2, 2)], map[2 := Group(2, {2, 3})], map[], 4, Some(3),
    map[2 := Element(false, None), 3 := Element(false, Some(2))], P.START, [])

  const ALONE: Kernel := Kernel(
    map[2 := Process(None, 2, INIT_PID)], map[2 := Group(2, {2})], map[], 3, Some(2), map[2 := Element(false, None)],
      P.START, [])

  lemma FirstSpawned()
    ensures FullInv(START) && Allowed(START, Spawned(None, [])) && Next(START, Spawned(None, [])) == ALONE
  {
    assert {2} + {2} == {2};
  }

  lemma SecondSpawned()
    ensures FullInv(ALONE) && Allowed(ALONE, Spawned(Some(2), [])) && Next(ALONE, Spawned(Some(2), [])) == FAMILY
  {
    FirstSpawned();
    NextKeeps(START, Spawned(None, []));
    assert {2} + {3} == {2, 3};
  }

  lemma ReachesFrom(k: Kernel, e: Event, events: seq<Event>, end: Kernel)
    requires FullInv(k) && Allowed(k, e) && FullInv(Next(k, e)) && Reaches(Next(k, e), events, end)
    ensures Reaches(k, [e] + events, end)
  {
    assert ([e] + events)[1..] == events;
  }

  lemma FamilyReached()
    ensures FullInv(START) && Reaches(START, [Spawned(None, [])] + ([Spawned(Some(2), [])] + []), FAMILY)
      && FullInv(FAMILY)
  {
    FirstSpawned();
    SecondSpawned();
    NextKeeps(ALONE, Spawned(Some(2), []));
    ReachesFrom(ALONE, Spawned(Some(2), []), [], FAMILY);
    ReachesFrom(START, Spawned(None, []), [Spawned(Some(2), [])] + [], FAMILY);
  }

  /** Process 2 puts its child into a group that does not exist: the call succeeds and the child is in no group. */
  lemma SetPgidWitness()
    ensures FullInv(START) && Reaches(START, [Spawned(None, [])] + ([Spawned(Some(2), [])] + []), FAMILY)
      && FullInv(FAMILY)
    ensures SetPgidResult(FAMILY, 2, 3, 99) == 0 && !GroupToJoin(FAMILY, 3, 99)
    ensures
      var k := SetPgid(FAMILY, 2, 3, 99);
      !Inv(k) && Live(k, 3) && k.groups[99].members == {99} && !Member(k.groups, 2, 3) && !Member(k.groups, 99, 3)
  {
    FamilyReached();
    SetPgidBreaks(FAMILY, 2, 3, 99);
  }

  lemma FirstWait()
    ensures FullInv(FAMILY) && Next(FAMILY, Waits(2, 3, false)) == FAMILY.(waiters := map[3 := [2]])
  {
    FamilyReached();
    assert [] + [2] == [2] && map[][3 := [2]] == map[3 := [2]];
  }

  lemma SecondWait()
    ensures
      var once := FAMILY.(waiters := map[3 := [2]]);
      FullInv(once) && Next(once, Waits(2, 3, false)) == FAMILY.(waiters := map[3 := [2, 2]])
  {
    FirstWait();
    NextKeeps(FAMILY, Waits(2, 3, false));
    assert [2] + [2] == [2, 2] && map[3 := [2]][3 := [2, 2]] == map[3 := [2, 2]];
  }

  /** Process 2 waits twice for its child, which exits: both waits are answered, so the status is delivered twice. */
  lemma TwoWaitsTwice(code: int)
    ensures FullInv(FAMILY) && FullInv(FAMILY.(waiters := map[3 := [2]]))
      && FullInv(FAMILY.(waiters := map[3 := [2, 2]]))
    ensures Next(FAMILY, Waits(2, 3, false)) == FAMILY.(waiters := map[3 := [2]])
    ensures Next(FAMILY.(waiters := map[3 := [2]]), Waits(2, 3, false)) == FAMILY.(waiters := map[3 := [2, 2]])
    ensures Times(Next(FAMILY.(waiters := map[3 := [2, 2]]), Exits(3, code)).log, 3) == 2
  {
    FirstWait();
    SecondWait();
    NextKeeps(FAMILY.(waiters := map[3 := [2]]), Waits(2, 3, false));
    TwoCounted(2);
    TimesRepeat([], Delivery(2, 3, code), 2, 3);
  }

  lemma TwoCounted(w: int)
    ensures CountOf([w, w], w) == 2
  {
    CountMore([w], w, w);
    CountMore([], w, w);
    assert [] + [w] == [w] && [w] + [w] == [w, w];
  }

  /** The session of a live process. */
  ghost function SessionOf(k: Kernel, p: int): int
    requires Inv(k) && Live(k, p)
  {
    assert Member(k.groups, k.processes[p].pgid, p);
    k.groups[k.processes[p].pgid].sid
  }

  lemma ExitKeepsSession(k: Kernel, code: int, pid: int, p: int)
    requires Inv(k) && Live(k, pid) && Live(k, p) && p != pid && Inv(Exit(k, code, pid))
    ensures Live(Exit(k, code, pid), p) && SessionOf(Exit(k, code, pid), p) == SessionOf(k, p)
  {
    assert Member(k.groups, k.processes[p].pgid, p);
    DeleteAgrees(k.groups, k.processes, pid);
    DeleteMembers(k.groups, pid, k.processes[pid].pgid);
  }

  lemma SetPgidKeepsSession(k: Kernel, src: int, pidArg: int, pgidArg: int, p: int)
    requires Inv(k) && Live(k, src) && Live(k, p) && Inv(SetPgid(k, src, pidArg, pgidArg))
    ensures Live(SetPgid(k, src, pidArg, pgidArg), p)
    ensures SessionOf(SetPgid(k, src, pidArg, pgidArg), p) == SessionOf(k, p)
  {
    assert Member(k.groups, k.processes[p].pgid, p);
    if SetPgidResult(k, src, pidArg, pgidArg) == 0 {
      var pid := Named(pidArg, src);
      DeleteAgrees(k.groups, k.processes, pid);
      DeleteMembers(k.groups, pid, k.processes[pid].pgid);
    }
  }

  lemma SetSidKeepsSession(k: Kernel, src: int, p: int)
    requires Inv(k) && Live(k, src) && Live(k, p) && p != src && Inv(SetSid(k, src))
    ensures Live(SetSid(k, src), p) && SessionOf(SetSid(k, src), p) == SessionOf(k, p)
  {
    assert Member(k.groups, k.processes[p].pgid, p);
    if src !in k.groups {
      DeleteAgrees(k.groups, k.processes, src);
      DeleteMembers(k.groups, src, k.processes[src].pgid);
    }
  }

  lemma SpawnKeepsSession(k: Kernel, parent: Option<int>, specs: seq<P.PipeSpec>, p: int)
    requires Inv(k) && (parent.Some? ==> Live(k, parent.value)) && Live(k, p) && Inv(Spawn(k, parent, specs))
    ensures Live(Spawn(k, parent, specs), p) && SessionOf(Spawn(k, parent, specs), p) == SessionOf(k, p)
  {
    assert Member(k.groups, k.processes[p].pgid, p);
  }

  /** A live process changes its session only by its own setsid. */
  lemma SessionKept(k: Kernel, e: Event, p: int)
    requires FullInv(k) && Allowed(k, e) && Live(k, p) && Live(Next(k, e), p) && e != SetsSid(p)
    ensures Inv(Next(k, e)) && SessionOf(Next(k, e), p) == SessionOf(k, p)
  {
    NextKeeps(k, e);
    match e
    case Spawned(parent, specs) => SpawnKeepsSession(k, parent, specs, p);
    case Exits(pid, code) => ExitKeepsSession(k, code, pid, p);
    case SetsPgid(src, pidArg, pgidArg) => SetPgidKeepsSession(k, src, pidArg, pgidArg, p);
    case SetsSid(src) => SetSidKeepsSession(k, src, p);
    case _ =>
  }
}
