/**
 What spawn, exit, setpgid and setsid do, written out: who is in which group and session, who waits,
 who is in front.
 */
module ProcessSteps {
  import opened Basics
  import opened Processes
  import opened ProcessRuns
  import P = Pipes

  /** The session of a group. */
  function Sid(k: Kernel, g: int): int
    requires g in k.groups
  {
    k.groups[g].sid
  }

  // ----- setpgid and setsid -----

  /** A setpgid names the process `pid` and the group `pgid`, the caller and the process itself by 0. */
  ghost predicate Asks(src: int, pidArg: int, pgidArg: int, pid: int, pgid: int)
  {
    pid == (if pidArg == 0 then src else pidArg) && pgid == if pgidArg == 0 then pid else pgidArg
  }

  /** The process may be moved by the caller: it is the caller or its child, and runs. */
  ghost predicate Movable(k: Kernel, src: int, pid: int)
  {
    pid in k.processes && k.processes[pid].exitCode.None? && (pid == src || k.processes[pid].ppid == src)
  }

  /**
   The answer to setpgid: EINVAL for a negative group; ESRCH for a process that does not run or is neither
   the caller nor its child; EPERM for one of another session, one that leads its session or a group of
   another session; and otherwise 0.
   */
  lemma SetPgidAnswers(k: Kernel, src: int, pidArg: int, pgidArg: int, pid: int, pgid: int)
    requires Inv(k) && Live(k, src) && Asks(src, pidArg, pgidArg, pid, pgid)
    ensures k.processes[src].pgid in k.groups && (Movable(k, src, pid) ==> k.processes[pid].pgid in k.groups)
    ensures SetPgidResult(k, src, pidArg, pgidArg) ==
      if pgid < 0 then -22
      else if !Movable(k, src, pid) then -3
      else if Sid(k, k.processes[pid].pgid) == Sid(k, k.processes[src].pgid) != pid
        && (pgid in k.groups ==> Sid(k, pgid) == Sid(k, k.processes[src].pgid)) then 0
      else -1
  {
    assert Member(k.groups, k.processes[src].pgid, src);
    if Movable(k, src, pid) { assert Member(k.groups, k.processes[pid].pgid, pid); }
  }

  /** A refused setpgid changes nothing; one that succeeds makes `pgid` the group of the process and of no other. */
  lemma SetPgidMoves(k: Kernel, src: int, pidArg: int, pgidArg: int, pid: int, pgid: int)
    requires Inv(k) && Live(k, src) && Asks(src, pidArg, pgidArg, pid, pgid)
    ensures
      var k', result := SetPgid(k, src, pidArg, pgidArg), SetPgidResult(k, src, pidArg, pgidArg);
      if result != 0 then k' == k
      else
        && Live(k, pid) && k.processes[pid].pgid in k.groups
        && k' == k.(groups := k'.groups, processes := k.processes[pid := Process(None, pgid, k.processes[pid].ppid)])
        && pgid in k'.groups && Sid(k', pgid) == Sid(k, k.processes[pid].pgid)
        && (forall g :: g in k'.groups && g != pgid ==> g in k.groups && Sid(k', g) == Sid(k, g))
        && (GroupToJoin(k, pid, pgid) ==>
             forall g, p :: Member(k'.groups, g, p) <==> if p == pid then g == pgid else Member(k.groups, g, p))
        && (!GroupToJoin(k, pid, pgid) ==>
             forall g, p :: Member(k'.groups, g, p) <==>
               if g == pgid then p == pgid else p != pid && Member(k.groups, g, p))
  {
    SetPgidAnswers(k, src, pidArg, pgidArg, pid, pgid);
    if SetPgidResult(k, src, pidArg, pgidArg) == 0 {
      assert Member(k.groups, k.processes[pid].pgid, pid);
      LeftGroup(k, pid, pgid);
      Regrouped(k, src, pidArg, pgidArg, pid, pgid);
    }
  }

  /** The groups without the process, which is in one only. */
  lemma LeftGroup(k: Kernel, pid: int, pgid: int)
    requires Inv(k) && Live(k, pid) && Member(k.groups, k.processes[pid].pgid, pid)
    ensures
      var out := DeleteFromGroup(k.groups, pid, k.processes[pid].pgid);
      && (forall g, p :: Member(out, g, p) <==> p != pid && Member(k.groups, g, p))
      && (forall g :: g in out ==> g in k.groups && out[g].sid == k.groups[g].sid)
      && (pgid in out <==> pgid in k.groups && k.groups[pgid].members - {pid} != {})
  {
    DeleteMembers(k.groups, pid, k.processes[pid].pgid);
    if pgid in k.groups && pgid != k.processes[pid].pgid {
      assert !Member(k.groups, pgid, pid);
      WithoutStranger(k.groups[pgid].members, pid);
    }
  }

  lemma Regrouped(k: Kernel, src: int, pidArg: int, pgidArg: int, pid: int, pgid: int)
    requires Inv(k) && Live(k, src) && Asks(src, pidArg, pgidArg, pid, pgid)
      && SetPgidResult(k, src, pidArg, pgidArg) == 0
    requires Live(k, pid) && Member(k.groups, k.processes[pid].pgid, pid)
    ensures
      var k', out := SetPgid(k, src, pidArg, pgidArg), DeleteFromGroup(k.groups, pid, k.processes[pid].pgid);
      && (pgid in out ==> forall g, p :: Member(k'.groups, g, p) <==> Member(out, g, p) || (g == pgid && p == pid))
      && (pgid !in out ==> forall g, p :: Member(k'.groups, g, p) <==> Member(out, g, p) || (g == pgid && p == pgid))
  {
  }

  /** setsid is refused to a process whose pid names a group; any other leads a new session and group of its own. */
  lemma SetSidMoves(k: Kernel, src: int)
    requires Inv(k) && Live(k, src)
    ensures
      var k' := SetSid(k, src);
      if src in k.groups then k' == k
      else
        && k' == k.(groups := k'.groups, processes := k.processes[src := Process(None, src, k.processes[src].ppid)])
        && src in k'.groups && Sid(k', src) == src
        && (forall g :: g in k'.groups && g != src ==> g in k.groups && Sid(k', g) == Sid(k, g))
        && forall g, p :: Member(k'.groups, g, p) <==> if p == src then g == src else Member(k.groups, g, p)
  {
    if src !in k.groups {
      assert Member(k.groups, k.processes[src].pgid, src);
      LeftGroup(k, src, src);
      var out := DeleteFromGroup(k.groups, src, k.processes[src].pgid);
      assert forall g, p :: Member(SetSid(k, src).groups, g, p) <==> Member(out, g, p) || (g == src && p == src);
    }
  }

  // ----- spawn -----

  /**
   A new process gets the next pid, the caller as its parent and the caller's group, or from the page the
   init process and a group and session of its own. It comes to the front unless its input is a pipe or
   another than its parent is there.
   */
  lemma SpawnAdds(k: Kernel, parent: Option<int>, specs: seq<P.PipeSpec>)
    requires Inv(k) && (parent.Some? ==> Live(k, parent.value))
    ensures k.nextPid !in k.processes && k.nextPid !in k.groups
    ensures
      var k', pid := Spawn(k, parent, specs), k.nextPid;
      var pgid := if parent.Some? then k.processes[parent.value].pgid else pid;
      var piped := exists i :: 0 <= i < |specs| && specs[i].PipeSpec? && specs[i].fd == 0;
      && k'.nextPid == pid + 1 && k'.waiters == k.waiters && k'.log == k.log
      && k'.processes == k.processes[pid := Process(None, pgid, if parent.Some? then parent.value else 1)]
      && k'.elements == k.elements[pid := Element(false, parent)]
      && k'.groups.Keys == k.groups.Keys + {pgid}
      && (forall g :: g in k.groups ==> Sid(k', g) == Sid(k, g)) && (parent.None? ==> Sid(k', pid) == pid)
      && (forall g, p :: Member(k'.groups, g, p) <==> Member(k.groups, g, p) || (g == pgid && p == pid))
      && k'.foreground == if !piped && (k.foreground.None? || k.foreground == parent) then Some(pid) else k.foreground
  {
    assert k.nextPid !in k.elements;
    if parent.Some? { assert Member(k.groups, k.processes[parent.value].pgid, parent.value); }
  }

  // ----- exit -----

  /** The waits of `ppid` under a key. */
  ghost function WaitsUnder(k: Kernel, key: int, ppid: int): nat
  {
    if key in k.waiters then multiset(k.waiters[key])[ppid] else 0
  }

  lemma {:induction false} CountIs(queue: seq<int>, w: int)
    ensures CountOf(queue, w) == multiset(queue)[w]
    decreases |queue|
  {
    if queue != [] {
      CountIs(queue[1..], w);
      assert queue == [queue[0]] + queue[1..];
    }
  }

  /** `ks` are the places of the others in the queue, from the first to the last. */
  ghost predicate OthersAt(queue: seq<int>, ppid: int, left: seq<int>, ks: seq<nat>)
  {
    && |ks| == |left| && (forall i, j :: 0 <= i < j < |ks| ==> ks[i] < ks[j])
    && (forall i :: 0 <= i < |ks| ==> ks[i] < |queue| && left[i] == queue[ks[i]] != ppid)
    && (forall j :: 0 <= j < |queue| && queue[j] != ppid ==> j in ks)
  }

  lemma {:induction false} OthersSnoc(queue: seq<int>, w: int, ppid: int)
    ensures Others(queue + [w], ppid) == Others(queue, ppid) + if w == ppid then [] else [w]
    decreases |queue|
  {
    if queue == [] {
      assert [w][1..] == [] && queue + [w] == [w];
    } else {
      OthersSnoc(queue[1..], w, ppid);
      assert (queue + [w])[1..] == queue[1..] + [w];
    }
  }

  /** The waits of the parent are taken out of a queue, and all others keep their order. */
  lemma {:induction false} OthersKeepOrder(queue: seq<int>, ppid: int) returns (ks: seq<nat>)
    ensures OthersAt(queue, ppid, Others(queue, ppid), ks)
    decreases |queue|
  {
    ks := [];
    if queue != [] {
      var last := |queue| - 1;
      var init := queue[..last];
      ks := OthersKeepOrder(init, ppid);
      assert queue == init + [queue[last]];
      OthersSnoc(init, queue[last], ppid);
      if queue[last] != ppid {
        OneMoreWaits(init, queue[last], ppid, Others(init, ppid), ks);
        ks := ks + [last];
      } else {
        assert Others(init, ppid) + [] == Others(init, ppid);
      }
    }
  }

  lemma OneMoreWaits(init: seq<int>, w: int, ppid: int, left: seq<int>, ks: seq<nat>)
    requires w != ppid && OthersAt(init, ppid, left, ks)
    ensures OthersAt(init + [w], ppid, left + [w], ks + [|init|])
  {
    forall j | 0 <= j <= |init| && (init + [w])[j] != ppid ensures j in ks + [|init|] {
      if j == |init| { assert (ks + [|init|])[|ks|] == j; } else { assert j in ks; }
    }
  }

  /** The queue under a key without the waits of `ppid`; an empty one is gone. */
  ghost predicate QueueLeft(k: Kernel, k': Kernel, key: int, ppid: int)
  {
    if key !in k.waiters then key !in k'.waiters
    else
      var left := if key in k'.waiters then k'.waiters[key] else [];
      (key in k'.waiters ==> left != []) && exists ks :: OthersAt(k.waiters[key], ppid, left, ks)
  }

  lemma AnsweredQueue(waiters: map<int, seq<int>>, key: int, ppid: int)
    ensures
      var w' := Answered(waiters, key, ppid);
      && (forall i :: i != key ==> (i in w' <==> i in waiters) && (i in w' ==> w'[i] == waiters[i]))
      && (if key !in waiters then key !in w'
          else if Others(waiters[key], ppid) == [] then key !in w'
          else key in w' && w'[key] == Others(waiters[key], ppid))
  {
  }

  lemma ExitQueues(k: Kernel, code: int, pid: int)
    requires Inv(k) && Live(k, pid)
    ensures
      var k', q := Exit(k, code, pid), k.processes[pid];
      && QueueLeft(k, k', pid, q.ppid) && QueueLeft(k, k', -1, q.ppid) && QueueLeft(k, k', -q.pgid, q.ppid)
      && forall key :: key != pid && key != -1 && key != -q.pgid ==>
           (key in k'.waiters <==> key in k.waiters) && (key in k.waiters ==> k'.waiters[key] == k.waiters[key])
  {
    var k', q := Exit(k, code, pid), k.processes[pid];
    var w1 := Answered(k.waiters, pid, q.ppid);
    var w2 := Answered(w1, -1, q.ppid);
    assert 2 <= pid && 2 <= q.pgid;
    AnsweredQueue(k.waiters, pid, q.ppid);
    AnsweredQueue(w1, -1, q.ppid);
    AnsweredQueue(w2, -q.pgid, q.ppid);
    if pid in k.waiters { var ks := OthersKeepOrder(k.waiters[pid], q.ppid); }
    if -1 in k.waiters { var ks := OthersKeepOrder(k.waiters[-1], q.ppid); }
    if -q.pgid in k.waiters { var ks := OthersKeepOrder(k.waiters[-q.pgid], q.ppid); }
  }

  lemma {:induction false} RepeatIs(d: Delivery, n: nat)
    ensures |Repeat(d, n)| == n && forall i :: 0 <= i < n ==> Repeat(d, n)[i] == d
    decreases n
  {
    if n > 0 { RepeatIs(d, n - 1); }
  }

  /**
   An exit tells its code to every wait of the parent that names it, by its pid, as any child or by its
   group: as often as there are such waits, and never to others. Told to nobody, the process stays in the
   table with its code.
   */
  lemma ExitAnswers(k: Kernel, code: int, pid: int)
    requires Inv(k) && Live(k, pid)
    ensures
      var k', q := Exit(k, code, pid), k.processes[pid];
      var n := WaitsUnder(k, pid, q.ppid) + WaitsUnder(k, -1, q.ppid) + WaitsUnder(k, -q.pgid, q.ppid);
      && |k'.log| == |k.log| + n && k.log <= k'.log
      && (forall i :: |k.log| <= i < |k'.log| ==> k'.log[i] == Delivery(q.ppid, pid, code))
      && k'.processes ==
         (if n > 0 then k.processes - {pid} else k.processes[pid := Process(Some(code), q.pgid, q.ppid)])
  {
    var q := k.processes[pid];
    if pid in k.waiters { CountIs(k.waiters[pid], q.ppid); }
    if -1 in k.waiters { CountIs(k.waiters[-1], q.ppid); }
    if -q.pgid in k.waiters { CountIs(k.waiters[-q.pgid], q.ppid); }
    RepeatIs(Delivery(q.ppid, pid, code), AnsweredBy(k, pid));
  }

  /** `n` elements above `e`. */
  ghost function Up(elements: map<int, Element>, e: Option<int>, n: nat): Option<int>
    decreases n
  {
    if n == 0 then e
    else if e.None? || e.value !in elements then None
    else Up(elements, elements[e.value].parent, n - 1)
  }

  /** The element is there, and its process has not exited. */
  ghost predicate InFront(elements: map<int, Element>, e: Option<int>)
  {
    e.Some? && e.value in elements && !elements[e.value].gone
  }

  /** The nearest element upwards whose process has not exited, if there is any. */
  lemma {:induction false} ForegroundIs(elements: map<int, Element>, e: Option<int>) returns (n: nat)
    requires forall p :: p in elements && elements[p].parent.Some? ==> 2 <= elements[p].parent.value < p
    requires e.Some? ==> e.value >= 2
    ensures
      var r := NextForeground(elements, e);
      && (forall m: nat :: m < n ==> !InFront(elements, Up(elements, e, m)))
      && (r.Some? ==> r == Up(elements, e, n) && InFront(elements, r))
      && (r.None? ==> forall m: nat :: !InFront(elements, Up(elements, e, m)))
    decreases if e.Some? then e.value else 0
  {
    n := 0;
    if e.Some? && e.value in elements && elements[e.value].gone {
      var up := elements[e.value].parent;
      var k := ForegroundIs(elements, up);
      n := k + 1;
      forall m: nat | m < n || NextForeground(elements, e).None? ensures !InFront(elements, Up(elements, e, m)) {
        if m > 0 { assert Up(elements, e, m) == Up(elements, up, m - 1); }
      }
    } else if e.None? || e.value !in elements {
      forall m: nat ensures !InFront(elements, Up(elements, e, m)) {}
    }
  }

  /** The process leaves its group and its pipes; in front, it hands over to its nearest ancestor that runs. */
  lemma ExitLeaves(k: Kernel, code: int, pid: int) returns (n: nat)
    requires Inv(k) && Live(k, pid)
    ensures
      var k', up := Exit(k, code, pid), k.elements[pid].parent;
      && k'.nextPid == k.nextPid && k'.elements == k.elements[pid := Element(true, up)]
      && (forall g, p :: Member(k'.groups, g, p) <==> p != pid && Member(k.groups, g, p))
      && (forall g :: g in k'.groups ==> g in k.groups && Sid(k', g) == Sid(k, g))
      && (forall p, id :: P.On(k'.pipes, p, id) <==> p != pid && P.On(k.pipes, p, id))
      && if k.foreground != Some(pid) then k'.foreground == k.foreground
         else
           && (forall m: nat :: m < n ==> !InFront(k'.elements, Up(k'.elements, up, m)))
           && (k'.foreground.Some? ==> k'.foreground == Up(k'.elements, up, n) && InFront(k'.elements, k'.foreground))
           && (k'.foreground.None? ==> forall m: nat :: !InFront(k'.elements, Up(k'.elements, up, m)))
  {
    var k' := Exit(k, code, pid);
    assert Member(k.groups, k.processes[pid].pgid, pid);
    LeftGroup(k, pid, pid);
    P.DeletedHoldsNothing(k.pipes, pid);
    n := ForegroundIs(k'.elements, k.elements[pid].parent);
  }
}
