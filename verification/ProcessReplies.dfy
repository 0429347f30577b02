/** What waitpid answers, and with which status, in one call and over whole runs. */
module ProcessReplies {
  import opened Basics
  import opened Processes
  import opened ProcessRuns

  /** `p` is a child of `src` that the wait names: by its pid, as any child, or by its group, 0 being the caller's. */
  ghost predicate Named(k: Kernel, p: int, pid: int, src: int)
  {
    && p in k.processes && k.processes[p].ppid == src
    && if pid > 0 then p == pid
       else if pid == 0 then src in k.processes && k.processes[p].pgid == k.processes[src].pgid
       else pid == -1 || k.processes[p].pgid == -pid
  }

  /** It has exited, so that it can be reaped. */
  ghost predicate Reaped(k: Kernel, p: int, pid: int, src: int)
  {
    Named(k, p, pid, src) && k.processes[p].exitCode.Some?
  }

  /** No such child can exist: the pid is not a child's, or the page asks for its own group. */
  ghost predicate Refused(k: Kernel, pid: int, src: int)
  {
    if pid > 0 then pid !in k.processes || k.processes[pid].ppid != src else pid == 0 && src == INIT_PID
  }

  lemma {:induction false} FirstIs(k: Kernel, p: int, key: int, src: int)
    ensures
      match FirstReapable(k, p, key, src)
      case Some(q) => Reapable(k, q, key, src) && forall r :: p <= r < q ==> !Reapable(k, r, key, src)
      case None => forall r :: p <= r < k.nextPid ==> !Reapable(k, r, key, src)
    decreases k.nextPid - p
  {
    if p < k.nextPid && !Reapable(k, p, key, src) { FirstIs(k, p + 1, key, src); }
  }

  /** For a wait that is not for one pid, the search looks for just these children. */
  lemma SearchIs(k: Kernel, pid: int, src: int, p: int)
    requires Inv(k) && (src == INIT_PID || Live(k, src)) && pid <= 0 && !Refused(k, pid, src)
    ensures WaitKey(k, pid, src) < 0
    ensures Reapable(k, p, WaitKey(k, pid, src), src) <==> Reaped(k, p, pid, src)
    ensures Reaped(k, p, pid, src) ==> 2 <= p < k.nextPid
  {
    assert INIT_PID !in k.elements;
    assert p in k.processes ==> p in k.elements && 2 <= k.processes[p].pgid;
  }

  /** A status is told exactly when such a child has exited: of the first of them, its own. */
  lemma StatusIs(k: Kernel, pid: int, nohang: bool, src: int)
    requires Inv(k) && (src == INIT_PID || Live(k, src))
    ensures
      var reply := WaitPid(k, pid, nohang, src).1;
      && (reply.Status? <==> exists p :: Reaped(k, p, pid, src))
      && (reply.Status? ==>
           && Reaped(k, reply.pid, pid, src) && k.processes[reply.pid].exitCode == Some(reply.status)
           && forall p :: p < reply.pid ==> !Reaped(k, p, pid, src))
  {
    if pid <= 0 && !Refused(k, pid, src) {
      var key := WaitKey(k, pid, src);
      FirstIs(k, 2, key, src);
      forall p ensures WaitKey(k, pid, src) < 0 && (Reapable(k, p, key, src) <==> Reaped(k, p, pid, src)) &&
          (Reaped(k, p, pid, src) ==> 2 <= p < k.nextPid)
      {
        SearchIs(k, pid, src, p);
      }
    } else if pid > 0 {
      if WaitPid(k, pid, nohang, src).1.Status? { assert Reaped(k, pid, pid, src); }
    } else {
      assert INIT_PID !in k.elements;
    }
  }

  /**
   Without such a child the wait is refused when there cannot be one, and otherwise it returns or
   waits as WNOHANG says.
   */
  lemma NoStatusIs(k: Kernel, pid: int, nohang: bool, src: int)
    requires Inv(k) && (src == INIT_PID || Live(k, src)) && !exists p :: Reaped(k, p, pid, src)
    ensures WaitPid(k, pid, nohang, src).1 ==
      if Refused(k, pid, src) then NoChild else if nohang then NotYet else Blocked
  {
    StatusIs(k, pid, nohang, src);
  }

  /**
   What a wait leaves behind: the child is gone and its status logged, or the caller is the last to
   wait, or nothing changes.
   */
  lemma WaitLeaves(k: Kernel, pid: int, nohang: bool, src: int)
    requires Inv(k) && (src == INIT_PID || Live(k, src))
    ensures
      var (k', reply) := WaitPid(k, pid, nohang, src);
      match reply
      case Status(p, status) => k' == k.(processes := k.processes - {p}, log := k.log + [Delivery(src, p, status)])
      case Blocked =>
        && (pid == 0 ==> src in k.processes)
        && var key := if pid == 0 then -k.processes[src].pgid else pid;
           k' == k.(waiters := k.waiters[key := (if key in k.waiters then k.waiters[key] else []) + [src]])
      case _ => k' == k
  {
    StatusIs(k, pid, nohang, src);
  }

  // ----- runs -----

  /** The statuses of the exited processes, and all that were delivered, are what `past` says they exited with. */
  ghost predicate Coded(k: Kernel, past: seq<Event>)
  {
    && (forall p :: Exited(k, p) ==> Exits(p, k.processes[p].exitCode.value) in past)
    && (forall d :: d in k.log ==> Exits(d.pid, d.status) in past)
  }

  lemma NextCoded(k: Kernel, e: Event, past: seq<Event>)
    requires FullInv(k) && Allowed(k, e) && Coded(k, past)
    ensures Coded(Next(k, e), past + [e])
  {
    match e
    case Exits(pid, code) => ExitCoded(k, code, pid, past);
    case Waits(src, pid, nohang) => WaitCoded(k, pid, nohang, src, past);
    case _ =>
      assert forall p :: Exited(Next(k, e), p) ==>
        Exited(k, p) && Next(k, e).processes[p].exitCode == k.processes[p].exitCode;
  }

  lemma ExitCoded(k: Kernel, code: int, pid: int, past: seq<Event>)
    requires FullInv(k) && Live(k, pid) && Coded(k, past)
    ensures Coded(Exit(k, code, pid), past + [Exits(pid, code)])
  {
    var d := Delivery(k.processes[pid].ppid, pid, code);
    RepeatHolds(d, AnsweredBy(k, pid));
    assert (past + [Exits(pid, code)])[|past|] == Exits(pid, code);
    forall e | e in Exit(k, code, pid).log ensures Exits(e.pid, e.status) in past + [Exits(pid, code)] {
      assert e in k.log || e == d;
    }
  }

  lemma WaitCoded(k: Kernel, pid: int, nohang: bool, src: int, past: seq<Event>)
    requires FullInv(k) && (src == INIT_PID || Live(k, src)) && Coded(k, past)
    ensures Coded(WaitPid(k, pid, nohang, src).0, past + [Waits(src, pid, nohang)])
  {
    WaitLeaves(k, pid, nohang, src);
    StatusIs(k, pid, nohang, src);
  }

  lemma {:induction false} RunCoded(k: Kernel, past: seq<Event>, events: seq<Event>, end: Kernel)
    requires FullInv(k) && Coded(k, past) && Reaches(k, events, end)
    ensures Coded(end, past + events)
    decreases |events|
  {
    if events == [] {
      assert past + events == past;
    } else {
      NextKeeps(k, events[0]);
      NextCoded(k, events[0], past);
      RunCoded(Next(k, events[0]), past + [events[0]], events[1..], end);
      assert past + [events[0]] + events[1..] == past + events;
    }
  }

  /** A pid that was handed out and is no longer running does not run again, so it exits at most once. */
  lemma {:induction false} NoSecondExit(k: Kernel, events: seq<Event>, end: Kernel, pid: int, j: nat)
    requires FullInv(k) && pid < k.nextPid && !Live(k, pid) && Reaches(k, events, end) && j < |events|
    ensures !(events[j].Exits? && events[j].pid == pid)
    decreases |events|
  {
    if j > 0 {
      NextKeeps(k, events[0]);
      StaysDown(k, events[0], pid);
      NoSecondExit(Next(k, events[0]), events[1..], end, pid, j - 1);
    }
  }

  lemma StaysDown(k: Kernel, e: Event, pid: int)
    requires FullInv(k) && Allowed(k, e) && pid < k.nextPid && !Live(k, pid)
    ensures pid < Next(k, e).nextPid && !Live(Next(k, e), pid)
  {
    match e
    case Waits(src, asked, nohang) => WaitLeaves(k, asked, nohang, src);
    case Exits(other, code) => DownAfterExit(k, code, other, pid);
    case _ =>
  }

  lemma DownAfterExit(k: Kernel, code: int, other: int, pid: int)
    requires Inv(k) && Live(k, other) && pid < k.nextPid && !Live(k, pid)
    ensures pid < Exit(k, code, other).nextPid && !Live(Exit(k, code, other), pid)
  {
  }

  lemma {:induction false} ExitsOnce(k: Kernel, events: seq<Event>, end: Kernel, i: nat, j: nat)
    requires FullInv(k) && Reaches(k, events, end) && i < j < |events| && events[i].Exits? && events[j].Exits?
    ensures events[i].pid != events[j].pid
    decreases |events|
  {
    NextKeeps(k, events[0]);
    if i > 0 {
      ExitsOnce(Next(k, events[0]), events[1..], end, i - 1, j - 1);
    } else if events[0].pid == events[j].pid {
      NoSecondExit(Next(k, events[0]), events[1..], end, events[0].pid, j - 1);
    }
  }

  ghost predicate TellsCode(reply: WaitReply, events: seq<Event>)
  {
    reply.Status? ==> Exits(reply.pid, reply.status) in events
  }

  /**
   In every run a process exits at most once, every status delivered to a waiting parent is the code its
   process exited with, and so is every status that a wait is told at once.
   */
  lemma StatusIsCode(events: seq<Event>, k: Kernel)
    requires FullInv(START) && Reaches(START, events, k)
    ensures forall i, j :: 0 <= i < j < |events| && events[i].Exits? && events[j].Exits? ==>
      events[i].pid != events[j].pid
    ensures forall d :: d in k.log ==> Exits(d.pid, d.status) in events
    ensures forall pid, nohang, src :: src == INIT_PID || Live(k, src) ==>
      TellsCode(WaitPid(k, pid, nohang, src).1, events)
  {
    ReachesKeeps(START, events, k);
    RunCoded(START, [], events, k);
    assert [] + events == events;
    forall i, j | 0 <= i < j < |events| && events[i].Exits? && events[j].Exits? ensures events[i].pid != events[j].pid {
      ExitsOnce(START, events, k, i, j);
    }
    forall pid, nohang, src | src == INIT_PID || Live(k, src)
      ensures TellsCode(WaitPid(k, pid, nohang, src).1, events)
    {
      StatusIs(k, pid, nohang, src);
    }
  }
}
