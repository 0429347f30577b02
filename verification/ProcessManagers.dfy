/** The handlers of naclprocess.js over the manager's fields, each equal to its step of `Processes`. */
module ProcessManagers {
  import opened Basics
  import opened Processes
  import opened ProcessRuns
  import P = Pipes
  import opened PipeServers

  class ProcessManager {
    var processes: map<int, Process>
    var processGroups: map<int, Group>
    var waiters: map<int, seq<int>>
    var pid: int
    var foregroundProcess: Option<int>
    var elements: map<int, Element>
    const pipeServer: PipeServer
    ghost var log: seq<Delivery>

    ghost function State(): Kernel
      reads this, pipeServer
    {
      Kernel(processes, processGroups, waiters, pid, foregroundProcess, elements, pipeServer.State(), log)
    }

    ghost predicate Valid()
      reads this, pipeServer
    {
      Inv(State())
    }

    constructor ()
      ensures State() == START && Valid() && fresh(pipeServer)
    {
      processes, processGroups, waiters, elements := map[], map[], map[], map[];
      pid := 2;
      foregroundProcess := None;
      pipeServer := new PipeServer();
      log := [];
    }

    /** createProcessGroup; its precondition is what the original throws without. */
    method CreateProcessGroup(pgid: int, sid: int)
      requires pgid !in processGroups
      modifies this`processGroups
      ensures processGroups == CreateGroup(old(processGroups), pgid, sid)
    {
      processGroups := processGroups[pgid := Group(sid, {})];
      processGroups := processGroups[pgid := Group(sid, processGroups[pgid].members + {pgid})];
      assert {} + {pgid} == {pgid};
    }

    /** deleteProcessFromGroup; its precondition is what the original throws without. */
    method DeleteProcessFromGroup(p: int)
      requires p in processes && Member(processGroups, processes[p].pgid, p)
      modifies this`processGroups
      ensures processGroups == DeleteFromGroup(old(processGroups), p, processes[p].pgid)
    {
      var pgid := processes[p].pgid;
      var group := processGroups[pgid];
      processGroups := processGroups[pgid := Group(group.sid, group.members - {p})];
      if processGroups[pgid].members == {} { processGroups := processGroups - {pgid}; }
    }

    /** The table part of spawn, for a new process. */
    method SpawnProcess(parent: Option<int>, specs: seq<P.PipeSpec>) returns (newPid: int)
      requires Valid() && (parent.Some? ==> Live(State(), parent.value))
      modifies this, pipeServer
      ensures Valid() && State() == Spawn(old(State()), parent, specs) && newPid == old(pid)
    {
      SpawnKeeps(State(), parent, specs);
      SpawnReady(State(), parent);
      ghost var k := State();
      newPid := Enter(parent, specs);
      EnteredIsSpawn(k, parent, specs, State());
    }

    /** The same without the invariant of the whole state. */
    method Enter(parent: Option<int>, specs: seq<P.PipeSpec>) returns (newPid: int)
      requires pipeServer.Valid() && SpawnOk(State(), parent)
      modifies this, pipeServer
      ensures newPid == old(pid) && Entered(old(State()), parent, specs, State())
      ensures pipeServer.State() == P.Next(old(pipeServer.State()), P.AddPipes(newPid, specs)).server
    {
      newPid := pid;
      pid := pid + 1;
      var pgid := if parent.Some? then processes[parent.value].pgid else newPid;
      var ppid := if parent.Some? then parent.value else INIT_PID;
      processes := processes[newPid := Process(None, pgid, ppid)];
      if parent.None? { CreateProcessGroup(newPid, newPid); }
      var group := processGroups[pgid];
      processGroups := processGroups[pgid := Group(group.sid, group.members + {newPid})];
      elements := elements[newPid := Element(false, parent)];
      var routesStdin := pipeServer.AddProcessPipes(newPid, specs);
      if !routesStdin && (foregroundProcess == None || foregroundProcess == parent) {
        foregroundProcess := Some(newPid);
      }
    }

    /** The waits of `ppid` queued under `key` are answered and removed. */
    method AnswerWaiters(key: int, ppid: int) returns (replies: nat)
      modifies this`waiters
      ensures waiters == Answered(old(waiters), key, ppid) && replies == Waiting(old(waiters), key, ppid)
    {
      if key !in waiters { return 0; }
      var queue, kept := waiters[key], [];
      replies := 0;
      for i := 0 to |queue|
        invariant replies + CountOf(queue[i..], ppid) == CountOf(queue, ppid)
        invariant kept + Others(queue[i..], ppid) == Others(queue, ppid)
      {
        assert queue[i..][1..] == queue[i + 1..];
        if queue[i] == ppid {
          replies := replies + 1;
        } else {
          kept := kept + [queue[i]];
        }
      }
      assert queue[|queue|..] == [] && kept + [] == kept;
      if kept == [] { assert waiters[key := kept] - {key} == waiters - {key}; }
      waiters := waiters[key := kept];
      if waiters[key] == [] { waiters := waiters - {key}; }
    }

    /** Every wait the exit of `p` answers, whatever its key. */
    method AnswerExit(p: int, ppid: int, pgid: int) returns (replies: nat)
      requires p >= 2 && pgid >= 2
      modifies this`waiters
      ensures waiters == Answered(Answered(Answered(old(waiters), p, ppid), -1, ppid), -pgid, ppid)
      ensures replies ==
        Waiting(old(waiters), p, ppid) + Waiting(old(waiters), -1, ppid) + Waiting(old(waiters), -pgid, ppid)
    {
      StillWaiting(waiters, p, ppid, pgid);
      var a := AnswerWaiters(p, ppid);
      var b := AnswerWaiters(-1, ppid);
      var c := AnswerWaiters(-pgid, ppid);
      replies := a + b + c;
    }

    /**
     The end of exit: the entry is removed when its status was delivered, its element is marked, the
     foreground moves up.
     */
    method Retire(code: int, p: int, replies: nat)
      requires Runs(processes, p) && Rooted(elements) && p in elements
      modifies this`processes, this`log, this`elements, this`foregroundProcess
      ensures elements == old(elements)[p := old(elements[p]).(gone := true)]
      ensures log == old(log) + Repeat(Delivery(old(processes[p]).ppid, p, code), replies)
      ensures processes == if replies > 0 then old(processes) - {p}
        else old(processes)[p := old(processes[p]).(exitCode := Some(code))]
      ensures foregroundProcess ==
              if old(foregroundProcess) == Some(p) then NextForeground(elements, old(elements[p]).parent)
                else old(foregroundProcess)
    {
      log := log + Repeat(Delivery(processes[p].ppid, p, code), replies);
      if replies > 0 {
        processes := processes - {p};
      } else {
        processes := processes[p := processes[p].(exitCode := Some(code))];
      }
      elements := elements[p := elements[p].(gone := true)];
      if foregroundProcess == Some(p) { foregroundProcess := Ancestor(elements[p].parent); }
    }

    /** exit */
    method ExitProcess(code: int, p: int)
      requires Valid() && Live(State(), p)
      modifies this, pipeServer
      ensures Valid() && State() == Exit(old(State()), code, p)
    {
      ExitKeeps(State(), code, p);
      ExitReady(State(), p);
      ghost var k := State();
      Leave(code, p);
      LeftIsExit(k, code, p, State());
    }

    /** The same without the invariant of the whole state. */
    method Leave(code: int, p: int)
      requires Runs(processes, p) && Member(processGroups, processes[p].pgid, p)
      requires p >= 2 && processes[p].pgid >= 2 && Rooted(elements) && p in elements
      modifies this, pipeServer
      requires pipeServer.Valid()
      ensures pipeServer.State() == P.Next(old(pipeServer.State()), P.DeleteProcess(p)).server && pid == old(pid)
      ensures Left(old(State()), code, p, State())
    {
      var ppid, pgid := processes[p].ppid, processes[p].pgid;
      var _ := pipeServer.Delete(p);
      DeleteProcessFromGroup(p);
      var replies := AnswerExit(p, ppid, pgid);
      Retire(code, p, replies);
    }

    /** The nearest element from `e` upwards whose process has not exited. */
    method Ancestor(e: Option<int>) returns (r: Option<int>)
      requires Rooted(elements) && (e.Some? ==> e.value >= 2 && e.value in elements)
      ensures r == NextForeground(elements, e)
    {
      r := e;
      while r.Some? && elements[r.value].gone
        invariant r.Some? ==> r.value >= 2 && r.value in elements
        invariant NextForeground(elements, r) == NextForeground(elements, e)
        decreases if r.Some? then r.value else 0
      {
        r := elements[r.value].parent;
      }
    }

    /** waitpid: the reply given at once, or Blocked when the wait is queued. */
    method Wait(waited: int, nohang: bool, src: int) returns (reply: WaitReply)
      requires Valid() && (src == INIT_PID || Live(State(), src))
      modifies this
      ensures Valid() && (State(), reply) == WaitPid(old(State()), waited, nohang, src)
    {
      ghost var k := State();
      WaitKeeps(k, waited, nohang, src);
      var key := waited;
      if key > 0 && (key !in processes || processes[key].ppid != src) { return NoChild; }
      if key > 0 && processes[key].exitCode != None {
        reply := ReapEntry(key, src);
        return;
      }
      if key == 0 && src == INIT_PID { return NoChild; }
      if key == 0 { key := -processes[src].pgid; }
      if key < 0 {
        var p := FindReapable(key, src);
        if p.Some? {
          reply := ReapEntry(p.value, src);
          return;
        }
      }
      if nohang { return NotYet; }
      Enqueue(key, src);
      return Blocked;
    }

    /** The search of waitpid for an exited child. */
    method FindReapable(key: int, src: int) returns (found: Option<int>)
      requires pid >= 2
      ensures found == FirstReapable(State(), 2, key, src)
    {
      var p := 2;
      while p < pid
        invariant FirstReapable(State(), 2, key, src) == FirstReapable(State(), p, key, src)
        decreases pid - p
      {
        if p in processes && processes[p].exitCode != None && processes[p].ppid == src
           && (key == -1 || processes[p].pgid == -key) {
          return Some(p);
        }
        p := p + 1;
      }
      return None;
    }

    method Enqueue(key: int, src: int)
      modifies this`waiters
      ensures waiters == old(waiters)[key := (if key in old(waiters) then old(waiters)[key] else []) + [src]]
    {
      if key !in waiters {
        assert waiters[key := []][key := [] + [src]] == waiters[key := [] + [src]];
        waiters := waiters[key := []];
      }
      waiters := waiters[key := waiters[key] + [src]];
    }

    /** The status of an exited process is handed to its parent and its entry removed. */
    method ReapEntry(p: int, src: int) returns (reply: WaitReply)
      requires Exited(State(), p)
      modifies this`processes, this`log
      ensures State() == Reap(old(State()), p, src) && reply == Status(p, old(processes[p].exitCode.value))
    {
      var exitCode := processes[p].exitCode.value;
      log := log + [Delivery(src, p, exitCode)];
      processes := processes - {p};
      return Status(p, exitCode);
    }

    /** handleMessageSetPGID_ */
    method SetPGID(src: int, pidArg: int, pgidArg: int) returns (result: int)
      requires Valid() && Live(State(), src)
      modifies this
      ensures State() == SetPgid(old(State()), src, pidArg, pgidArg)
      ensures result == SetPgidResult(old(State()), src, pidArg, pgidArg)
    {
      var p := if pidArg == 0 then src else pidArg;
      var newPgid := if pgidArg == 0 then p else pgidArg;
      if newPgid < 0 { return -EINVAL; }
      if p !in processes || processes[p].exitCode != None || (src != p && src != processes[p].ppid) { return -ESRCH; }
      var oldPgid := processes[p].pgid;
      assert Member(processGroups, oldPgid, p) && Member(processGroups, processes[src].pgid, src);
      var sid := processGroups[oldPgid].sid;
      if newPgid in processGroups && processGroups[newPgid].sid != sid { return -EPERM; }
      if sid != processGroups[processes[src].pgid].sid { return -EPERM; }
      if sid == p { return -EPERM; }
      DeleteProcessFromGroup(p);
      if newPgid in processGroups {
        var group := processGroups[newPgid];
        processGroups := processGroups[newPgid := Group(group.sid, group.members + {p})];
      } else {
        CreateProcessGroup(newPgid, sid);
      }
      processes := processes[p := processes[p].(pgid := newPgid)];
      return 0;
    }

    /** handleMessageSetSID_ */
    method SetSID(src: int) returns (sid: int)
      requires Valid() && Live(State(), src)
      modifies this
      ensures Valid() && State() == SetSid(old(State()), src)
      ensures sid == if src in old(processGroups) then -EPERM else src
    {
      ghost var k := State();
      SetSidKeeps(k, src);
      if src in processGroups { return -EPERM; }
      DeleteAgrees(k.groups, k.processes, src);
      DeleteMembers(k.groups, src, k.processes[src].pgid);
      DeleteProcessFromGroup(src);
      CreateProcessGroup(src, src);
      processes := processes[src := processes[src].(pgid := src)];
      return src;
    }
  }

  /** The element a process was spawned from is an earlier one. */
  ghost predicate Rooted(elements: map<int, Element>)
  {
    forall q :: q in elements && elements[q].parent.Some? ==>
      2 <= elements[q].parent.value < q && elements[q].parent.value in elements
  }

  /** What exit leaves of every field but the pipes, told apart from the invariant. */
  ghost predicate Left(k: Kernel, code: int, p: int, k': Kernel)
  {
    && Runs(k.processes, p) && Member(k.groups, k.processes[p].pgid, p) && p in k.elements
    && var q := k.processes[p];
    && var replies := AnsweredBy(k, p);
    && k'.nextPid == k.nextPid
    && k'.groups == DeleteFromGroup(k.groups, p, q.pgid)
    && k'.waiters == Answered(Answered(Answered(k.waiters, p, q.ppid), -1, q.ppid), -q.pgid, q.ppid)
    && k'.elements == k.elements[p := k.elements[p].(gone := true)]
    && k'.log == k.log + Repeat(Delivery(q.ppid, p, code), replies)
    && k'.processes == (if replies > 0 then k.processes - {p} else k.processes[p := q.(exitCode := Some(code))])
    && Rooted(k'.elements) && (k.elements[p].parent.Some? ==> k.elements[p].parent.value >= 2)
    && k'.foreground ==
       (if k.foreground == Some(p) then NextForeground(k'.elements, k.elements[p].parent) else k.foreground)
  }

  lemma LeftIsExit(k: Kernel, code: int, p: int, k': Kernel)
    requires Inv(k) && Live(k, p) && Left(k, code, p, k')
    requires k'.pipes == P.Next(k.pipes, P.DeleteProcess(p)).server
    ensures k' == Exit(k, code, p)
  {
  }

  /** What spawn reads is there, and the new pid names no group. */
  ghost predicate SpawnOk(k: Kernel, parent: Option<int>)
  {
    && k.nextPid !in k.groups
    && (parent.Some? ==> Runs(k.processes, parent.value) && k.processes[parent.value].pgid in k.groups)
  }

  lemma SpawnReady(k: Kernel, parent: Option<int>)
    requires Inv(k) && (parent.Some? ==> Live(k, parent.value))
    ensures SpawnOk(k, parent)
  {
    if parent.Some? { assert Member(k.groups, k.processes[parent.value].pgid, parent.value); }
  }

  /** What spawn leaves of every field but the pipes. */
  ghost predicate Entered(k: Kernel, parent: Option<int>, specs: seq<P.PipeSpec>, k': Kernel)
  {
    && SpawnOk(k, parent)
    && var pid := k.nextPid;
    && var pgid := if parent.Some? then k.processes[parent.value].pgid else pid;
    && k'.nextPid == pid + 1 && k'.waiters == k.waiters && k'.log == k.log
    && k'.processes == k.processes[pid := Process(None, pgid, if parent.Some? then parent.value else INIT_PID)]
    && k'.groups == AddToGroup(if parent.None? then CreateGroup(k.groups, pid, pid) else k.groups, pid, pgid)
    && k'.elements == k.elements[pid := Element(false, parent)]
    && k'.foreground ==
       if !RoutesStdin(specs) && (k.foreground.None? || k.foreground == parent) then Some(pid) else k.foreground
  }

  lemma EnteredIsSpawn(k: Kernel, parent: Option<int>, specs: seq<P.PipeSpec>, k': Kernel)
    requires Inv(k) && (parent.Some? ==> Live(k, parent.value)) && Entered(k, parent, specs, k')
    requires k'.pipes == P.Next(k.pipes, P.AddPipes(k.nextPid, specs)).server
    ensures k' == Spawn(k, parent, specs)
  {
  }

  lemma ExitReady(k: Kernel, p: int)
    requires Inv(k) && Live(k, p)
    ensures Member(k.groups, k.processes[p].pgid, p) && p >= 2 && k.processes[p].pgid >= 2 && Rooted(k.elements)
      && p in k.elements
  {
  }

  /** The three queues an exit looks at are distinct, so answering one leaves the others as they were. */
  lemma StillWaiting(waiters: map<int, seq<int>>, p: int, ppid: int, pgid: int)
    requires p >= 2 && pgid >= 2
    ensures
      var w1 := Answered(waiters, p, ppid);
      var w2 := Answered(w1, -1, ppid);
      Waiting(w1, -1, ppid) == Waiting(waiters, -1, ppid) && Waiting(w2, -pgid, ppid) == Waiting(waiters, -pgid, ppid)
  {
    AnsweredFacts(waiters, p, ppid);
    AnsweredFacts(Answered(waiters, p, ppid), -1, ppid);
  }
}
