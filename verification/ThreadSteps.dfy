/** What each call does, written out on the queues: who is current afterwards, who waits where, and in what order. */
module ThreadSteps {
  import opened Basics
  import opened Threads
  import opened ThreadRuns

  type QueueMap = map<QueueId, seq<nat>>

  /** The queues once the first thread of `from`, if there is one, has joined the run queue. */
  function FirstReady(q: QueueMap, from: QueueId): QueueMap
    requires {from, RunQ} <= q.Keys
  {
    if q[from] == [] then q else q[from := q[from][1..]][RunQ := q[RunQ] + [q[from][0]]]
  }

  /** With the queues `q`, the caller gives way: the head of the run queue is current and the caller its tail. */
  ghost predicate GaveWay(k: Sched, k': Sched, q: QueueMap)
    requires RunQ in q
  {
    !k'.halted &&
    if q[RunQ] == [] then k'.cur == k.cur && k'.queues == q && k'.switches == k.switches
    else k'.cur == q[RunQ][0] && k'.queues == q[RunQ := q[RunQ][1..] + [k.cur]] && k'.switches == k.switches + 1
  }

  /** The caller stops: the head of the run queue is current, or nothing is. */
  ghost predicate Stopped(k: Sched, k': Sched, q: QueueMap)
    requires RunQ in q
  {
    if q[RunQ] == [] then k'.halted && k'.cur == k.cur && k'.queues == q && k'.switches == k.switches
    else
      !k'.halted && k'.cur == q[RunQ][0] && k'.queues == q[RunQ := q[RunQ][1..]] && k'.switches == k.switches + 1
  }

  /** The caller goes on. */
  ghost predicate WentOn(k: Sched, k': Sched, q: QueueMap)
  {
    !k'.halted && k'.cur == k.cur && k'.queues == q && k'.switches == k.switches
  }

  lemma YieldIs(k: Sched, c: Cont)
    requires RunQ in k.queues && !k.halted && k.cur in k.state && k.state[k.cur] == Runnable
    ensures
      var k' := Yield(k, c);
      GaveWay(k, k', k.queues) && k'.value == k.value && k'.cont == k.cont[k.cur := c] && k'.state == k.state
  {
    var run := k.queues[RunQ];
    assert k.state[k.cur := Runnable] == k.state;
    if run != [] {
      assert (run + [k.cur])[0] == run[0] && (run + [k.cur])[1..] == run[1..] + [k.cur];
      assert k.queues[RunQ := run + [k.cur]][RunQ := run[1..] + [k.cur]] == k.queues[RunQ := run[1..] + [k.cur]];
    }
  }

  lemma SleepIs(k: Sched)
    requires RunQ in k.queues && !k.halted
    ensures
      var k' := Sleep(k);
      Stopped(k, k', k.queues) && k'.value == k.value && k'.cont == k.cont && k'.state == k.state
  {
  }

  lemma DropIs(k: Sched, s: nat)
    requires s in k.value && {SemQ(s), RunQ} <= k.queues.Keys
    ensures
      var k', waiting := Drop(k, s), k.queues[SemQ(s)];
      && WentOn(k, k', FirstReady(k.queues, SemQ(s))) == !k.halted && k'.halted == k.halted
      && k'.queues == FirstReady(k.queues, SemQ(s))
      && k'.value == k.value[s := k.value[s] + 1] && k'.cont == k.cont
      && k'.state == if waiting == [] then k.state else k.state[waiting[0] := Runnable]
  {
    var q, waiting := k.queues, k.queues[SemQ(s)];
    if waiting != [] { assert q[SemQ(s) := waiting[1..]][RunQ] == q[RunQ]; }
  }

  /** A thread that waits for a unit is not the current one. */
  lemma NotCurrent(k: Sched, s: nat)
    requires Inv(k) && Runs(k) && s in k.value
    ensures k.queues[SemQ(s)] != [] ==> k.queues[SemQ(s)][0] != k.cur && k.queues[SemQ(s)][0] in k.place
    ensures k.cur in k.state && k.state[k.cur] == Runnable
  {
    if k.queues[SemQ(s)] != [] { assert k.queues[SemQ(s)][0] in k.queues[SemQ(s)]; }
  }

  // ----- the calls -----

  /** dthr_thread_yield */
  lemma YieldGivesWay(k: Sched)
    requires Inv(k) && Allowed(k, DoYield)
    ensures
      var k' := Next(k, DoYield);
      GaveWay(k, k', k.queues) && k'.value == k.value && k'.state == k.state && k'.cont == k.cont
  {
    NotCurrent(k, NEWQ_SEMA);
    YieldIs(k, User);
    assert k.cont[k.cur := User] == k.cont;
  }

  /** dthr_semaphore_try */
  lemma TryGoesOn(k: Sched, s: nat)
    requires Inv(k) && Allowed(k, Try(s))
    ensures Next(k, Try(s)) == if k.value[s] == 0 then k else k.(value := k.value[s := k.value[s] - 1])
  {
  }

  /** dthr_semaphore_take, up to the test of the value. */
  lemma TakeGivesWay(k: Sched, s: nat)
    requires Inv(k) && Allowed(k, DoTake(s))
    ensures
      var k' := Next(k, DoTake(s));
      && GaveWay(k, k', k.queues) && k'.value == k.value && k'.state == k.state
      && k'.cont == k.cont[k.cur := Taking(s, false, ToUser)]
  {
    NotCurrent(k, s);
    YieldIs(k, Taking(s, false, ToUser));
  }

  /** dthr_semaphore_drop: a unit more, the first waiting thread ready, and the caller behind it. */
  lemma DropGivesWay(k: Sched, s: nat)
    requires Inv(k) && Allowed(k, DoDrop(s))
    ensures
      var k', waiting := Next(k, DoDrop(s)), k.queues[SemQ(s)];
      && GaveWay(k, k', FirstReady(k.queues, SemQ(s))) && k'.value == k.value[s := k.value[s] + 1]
      && k'.state == (if waiting == [] then k.state else k.state[waiting[0] := Runnable]) && k'.cont == k.cont
  {
    NotCurrent(k, s);
    DropIs(k, s);
    YieldIs(Drop(k, s), User);
    assert k.cont[k.cur := User] == k.cont;
  }

  /** dthr_event_wait: the caller waits, the lock's first waiting thread is ready, and the caller stops. */
  lemma WaitStops(k: Sched, v: nat, s: nat)
    requires Inv(k) && Allowed(k, Wait(v, s))
    ensures
      var k', waiting := Next(k, Wait(v, s)), k.queues[SemQ(s)];
      && Stopped(k, k', FirstReady(k.queues[EvQ(v) := k.queues[EvQ(v)] + [k.cur]], SemQ(s)))
      && k'.value == k.value[s := k.value[s] + 1] && k'.cont == k.cont[k.cur := Taking(s, false, ToUser)]
      && k'.state == (if waiting == [] then k.state[k.cur := EventWait]
                      else k.state[k.cur := EventWait][waiting[0] := Runnable])
  {
    var k1 := Park(k, EvQ(v), EventWait, Taking(s, false, ToUser));
    DropIs(k1, s);
    SleepIs(Drop(k1, s));
  }

  /** The first waiting threads are ready in their order, and nothing else changes. */
  ghost predicate FirstReadied(k: Sched, k': Sched, v: nat, n: nat)
    requires EvQ(v) in k.queues && n <= |k.queues[EvQ(v)]|
  {
    && k'.value == k.value && k'.cont == k.cont && k'.state.Keys == k.state.Keys
    && forall t :: t in k.state ==> k'.state[t] == if t in k.queues[EvQ(v)][..n] then Runnable else k.state[t]
  }

  lemma OneMoreReady(k: Sched, v: nat, k': Sched, n: nat)
    requires {EvQ(v), RunQ} <= k.queues.Keys && k.queues[EvQ(v)] != [] && n < |k.queues[EvQ(v)]|
    requires k.queues[EvQ(v)][0] in k.state && FirstReadied(Wake(k, EvQ(v)), k', v, n)
    ensures FirstReadied(k, k', v, n + 1)
  {
    var waiting := k.queues[EvQ(v)];
    assert waiting[..n + 1] == [waiting[0]] + waiting[1..][..n];
    forall t ensures t in waiting[..n + 1] <==> t == waiting[0] || t in waiting[1..][..n] {}
  }

  lemma {:induction false} SignalIs(k: Sched, v: nat, max: nat)
    requires {EvQ(v), RunQ} <= k.queues.Keys && (forall t :: t in k.queues[EvQ(v)] ==> t in k.state)
    ensures
      var n := if max < |k.queues[EvQ(v)]| then max else |k.queues[EvQ(v)]|;
      FirstReadied(k, Signal(k, v, max), v, n) && Signal(k, v, max).halted == k.halted
    decreases max
  {
    var waiting := k.queues[EvQ(v)];
    if max > 0 && waiting != [] {
      SignalIs(Wake(k, EvQ(v)), v, max - 1);
      OneMoreReady(k, v, Signal(k, v, max), if max < |waiting| then max - 1 else |waiting| - 1);
    }
  }

  /**
   dthr_event_signal and dthr_event_broadcast: the first waiting threads are ready in their order, and
   the caller gives way if the call is one that yields.
   */
  lemma SignalReadies(k: Sched, v: nat, max: nat, yielding: bool)
    requires Inv(k) && Allowed(k, DoSignal(v, max, yielding))
    ensures
      var k', waiting := Next(k, DoSignal(v, max, yielding)), k.queues[EvQ(v)];
      var n := if max < |waiting| then max else |waiting|;
      var q := k.queues[EvQ(v) := waiting[n..]][RunQ := k.queues[RunQ] + waiting[..n]];
      FirstReadied(k, k', v, n) && if yielding then GaveWay(k, k', q) else WentOn(k, k', q)
  {
    NotCurrent(k, NEWQ_SEMA);
    assert forall t :: t in k.queues[EvQ(v)] ==> k.place[t] == Queued(EvQ(v));
    SignalMoves(k, v, max);
    SignalSame(k, v, max);
    SignalIs(k, v, max);
    if yielding {
      YieldIs(Signal(k, v, max), User);
      assert k.cont[k.cur := User] == k.cont;
    }
  }

  /** dthr_thread_run, up to the test of the launcher's lock. */
  lemma RunGoesOn(k: Sched, t: nat)
    requires Inv(k) && Allowed(k, Run(t))
    ensures Next(k, Run(t)) == k.(cont := k.cont[k.cur := Taking(NEWQ_SEMA, false, ToRun(t))])
  {
  }

  /** dthr_thread_exit */
  lemma ExitStops(k: Sched)
    requires Inv(k) && Allowed(k, Exit)
    ensures
      var k' := Next(k, Exit);
      Stopped(k, k', k.queues) && k'.value == k.value && k'.state == k.state[k.cur := Exited] && k'.cont == k.cont
  {
    SleepIs(Leave(k));
  }

  /** The test of a take: without a unit the caller joins the semaphore's queue and stops. */
  lemma TestStops(k: Sched, freeStack: bool)
    requires Inv(k) && Allowed(k, Resume(freeStack)) && k.cont[k.cur].Taking? && k.value[k.cont[k.cur].sema] == 0
    ensures
      var k', s := Next(k, Resume(freeStack)), k.cont[k.cur].sema;
      && Stopped(k, k', k.queues[SemQ(s) := k.queues[SemQ(s)] + [k.cur]]) && k'.value == k.value
      && k'.state == k.state[k.cur := SemaWait] && k'.cont == k.cont[k.cur := k.cont[k.cur].(woken := true)]
  {
    var s, after := k.cont[k.cur].sema, k.cont[k.cur].after;
    SleepIs(Park(k, SemQ(s), SemaWait, Taking(s, true, after)));
  }

  /** With a unit the caller takes it and goes on, to user code or to launch. */
  lemma TestGoesOn(k: Sched, freeStack: bool)
    requires Inv(k) && Allowed(k, Resume(freeStack)) && k.cont[k.cur].Taking? && !k.cont[k.cur].after.ToRun?
    requires k.value[k.cont[k.cur].sema] != 0
    ensures
      var s := k.cont[k.cur].sema;
      Next(k, Resume(freeStack)) == k.(
        value := k.value[s := k.value[s] - 1],
        cont := k.cont[k.cur := if k.cont[k.cur].after.ToUser? then User else Launching])
  {
  }

  /** `k'` is `k` once the launcher's event has been signalled. */
  ghost predicate Signalled(k: Sched, k': Sched)
    requires {EvQ(NEWQ_EVENT), RunQ} <= k.queues.Keys
  {
    var waiting := k.queues[EvQ(NEWQ_EVENT)];
    && k'.queues == FirstReady(k.queues, EvQ(NEWQ_EVENT)) && k'.value == k.value && k'.cont == k.cont
    && k'.cur == k.cur && k'.switches == k.switches && k'.halted == k.halted
    && k'.state == if waiting == [] then k.state else k.state[waiting[0] := Runnable]
  }

  lemma OneSignal(k: Sched)
    requires {EvQ(NEWQ_EVENT), RunQ} <= k.queues.Keys
    ensures Signalled(k, Signal(k, NEWQ_EVENT, 1))
  {
    assert Signal(Wake(k, EvQ(NEWQ_EVENT)), NEWQ_EVENT, 0) == Wake(k, EvQ(NEWQ_EVENT));
  }

  /** The launcher's lock is dropped and the caller gives way. */
  lemma StartIs(k: Sched, k2: Sched)
    requires {EvQ(NEWQ_EVENT), SemQ(NEWQ_SEMA), RunQ} <= k.queues.Keys && NEWQ_SEMA in k.value && !k.halted
    requires k.queues[SemQ(NEWQ_SEMA)] == [] && k.cur in k.state && k.state[k.cur] == Runnable && Signalled(k, k2)
    ensures
      var k' := Yield(Drop(k2, NEWQ_SEMA), User);
      && GaveWay(k, k', k2.queues) && k'.cont == k.cont[k.cur := User]
      && k'.value == k.value[NEWQ_SEMA := k.value[NEWQ_SEMA] + 1] && k'.state == k2.state
  {
    DropNobody(k2, NEWQ_SEMA);
    YieldIs(k2.(value := k.value[NEWQ_SEMA := k.value[NEWQ_SEMA] + 1]), User);
  }

  lemma DropNobody(k: Sched, s: nat)
    requires s in k.value && {SemQ(s), RunQ} <= k.queues.Keys && k.queues[SemQ(s)] == []
    ensures Drop(k, s) == k.(value := k.value[s := k.value[s] + 1])
  {
  }

  /**
   `t` joins the new threads, the launcher is ready if it slept, and the caller gives way with the lock as
   it was.
   */
  ghost predicate ThreadStarted(k: Sched, k': Sched, t: nat)
    requires {NewQ, EvQ(NEWQ_EVENT), RunQ} <= k.queues.Keys
  {
    var waiting := k.queues[EvQ(NEWQ_EVENT)];
    && GaveWay(k, k', FirstReady(k.queues[NewQ := k.queues[NewQ] + [t]], EvQ(NEWQ_EVENT)))
    && k'.value == k.value && k'.cont == k.cont[k.cur := User][t := User]
    && k'.state == if waiting == [] then k.state[t := Runnable] else k.state[t := Runnable][waiting[0] := Runnable]
  }

  lemma StartedBy(k: Sched, t: nat, k2: Sched)
    requires Domain(k) && !k.halted && k.state[k.cur] == Runnable && k.queues[SemQ(NEWQ_SEMA)] == [] && t != k.cur
    requires Signalled(Offer(Goto(Take(k, NEWQ_SEMA), User), t), k2)
    ensures ThreadStarted(k, Yield(Drop(k2, NEWQ_SEMA), User), t)
  {
    assert k.value[NEWQ_SEMA := k.value[NEWQ_SEMA] - 1][NEWQ_SEMA := k.value[NEWQ_SEMA]] == k.value;
    StartIs(Offer(Goto(Take(k, NEWQ_SEMA), User), t), k2);
  }

  /** With a unit of the launcher's lock a thread is started. */
  lemma RunGivesWay(k: Sched, freeStack: bool)
    requires Inv(k) && Allowed(k, Resume(freeStack)) && k.cont[k.cur].Taking? && k.cont[k.cur].after.ToRun?
    requires k.value[k.cont[k.cur].sema] != 0
    ensures ThreadStarted(k, Next(k, Resume(freeStack)), k.cont[k.cur].after.t)
  {
    NotCurrent(k, NEWQ_SEMA);
    var k2 := LockTaken(k, freeStack);
    StartedBy(k, k.cont[k.cur].after.t, k2);
  }

  lemma LockTaken(k: Sched, freeStack: bool) returns (k2: Sched)
    requires Inv(k) && Allowed(k, Resume(freeStack)) && k.cont[k.cur].Taking? && k.cont[k.cur].after.ToRun?
    requires k.value[k.cont[k.cur].sema] != 0
    ensures k.cont[k.cur].after.t != k.cur && k.queues[SemQ(NEWQ_SEMA)] == []
    ensures
      var k1 := Offer(Goto(Take(k, NEWQ_SEMA), User), k.cont[k.cur].after.t);
      && Signalled(k1, k2) && NEWQ_SEMA in k2.value && {SemQ(NEWQ_SEMA), RunQ} <= k2.queues.Keys
      && Next(k, Resume(freeStack)) == Yield(Drop(k2, NEWQ_SEMA), User)
  {
    var k1 := Offer(Goto(Take(k, NEWQ_SEMA), User), k.cont[k.cur].after.t);
    assert k.cont[k.cur].sema == NEWQ_SEMA;
    OneSignal(k1);
    k2 := Signal(k1, NEWQ_EVENT, 1);
  }

  /** The launcher without new threads drops its lock and waits for one. */
  lemma LauncherStops(k: Sched, freeStack: bool)
    requires Inv(k) && Allowed(k, Resume(freeStack)) && k.cont[k.cur].Launching? && k.queues[NewQ] == []
    ensures
      var k' := Next(k, Resume(freeStack));
      && Stopped(k, k', k.queues[EvQ(NEWQ_EVENT) := k.queues[EvQ(NEWQ_EVENT)] + [k.cur]])
      && k'.value == k.value[NEWQ_SEMA := 1] && k'.state == k.state[k.cur := EventWait]
      && k'.cont == k.cont[k.cur := Taking(NEWQ_SEMA, false, ToLaunch)]
  {
    var k1 := Park(k, EvQ(NEWQ_EVENT), EventWait, Taking(NEWQ_SEMA, false, ToLaunch));
    DropIs(k1, NEWQ_SEMA);
    SleepIs(Drop(k1, NEWQ_SEMA));
    assert k.cur == TOPMOST;
  }

  /** With one, it becomes ready; when the stack must grow for it, the lock is dropped and taken again. */
  lemma LauncherGoesOn(k: Sched, freeStack: bool)
    requires Inv(k) && Allowed(k, Resume(freeStack)) && k.cont[k.cur].Launching? && k.queues[NewQ] != []
    ensures
      var k', t := Next(k, Resume(freeStack)), k.queues[NewQ][0];
      && WentOn(k, k', FirstReady(k.queues, NewQ)) && k'.state == k.state[t := Runnable]
      && k'.value == (if freeStack then k.value else k.value[NEWQ_SEMA := 1])
      && k'.cont == if freeStack then k.cont else k.cont[k.cur := Taking(NEWQ_SEMA, false, ToLaunch)]
  {
    var t := k.queues[NewQ][0];
    assert k.cur == TOPMOST;
  }
}
