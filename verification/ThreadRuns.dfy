/** What holds of every run of the scheduler, however its threads behave. */
module ThreadRuns {
  import opened Basics
  import opened Threads

  /** dthr_thread_multithread: nothing has run, and the threads offered so far wait for the launcher. */
  ghost predicate StartOk(k: Sched)
  {
    && Domain(k) && Placed(k) && StateOk(k) && !k.halted
    && k.cur == TOPMOST && k.place[TOPMOST] == Current && k.cont[TOPMOST] == Taking(NEWQ_SEMA, false, ToLaunch)
    && (forall q :: q in k.queues && q != NewQ ==> k.queues[q] == [])
    && (forall t :: t in k.place && t != TOPMOST ==> k.place[t] == Queued(NewQ) && k.cont[t] == User)
    && k.value[NEWQ_SEMA] == 1 && NonNegative(k)
  }

  lemma StartKeeps(k: Sched)
    requires StartOk(k)
    ensures Inv(k)
  {
  }

  /** The steps `es` may be made from `k`, one after the other. */
  ghost predicate Possible(k: Sched, es: seq<Event>)
    requires Inv(k)
    decreases |es|
  {
    es == [] || (Allowed(k, es[0]) && (NextKeeps(k, es[0]); Possible(Next(k, es[0]), es[1..])))
  }

  ghost function After(k: Sched, es: seq<Event>): Sched
    requires Inv(k) && Possible(k, es)
    decreases |es|
  {
    if es == [] then k
    else
      NextKeeps(k, es[0]);
      After(Next(k, es[0]), es[1..])
  }

  lemma {:induction false} AfterKeeps(k: Sched, es: seq<Event>)
    requires Inv(k) && Possible(k, es)
    ensures Inv(After(k, es))
    decreases |es|
  {
    if es != [] {
      NextKeeps(k, es[0]);
      AfterKeeps(Next(k, es[0]), es[1..]);
    }
  }

  // ----- placement -----

  ghost predicate Standing(k: Sched, t: nat, p: Place)
  {
    match p
    case Current => !k.halted && t == k.cur
    case Queued(q) => q in k.queues && t in k.queues[q]
    case Gone => t in k.state && k.state[t] == Exited
  }

  /** A thread is started once it is offered to the launcher; the topmost thread always is. */
  predicate Started(k: Sched, t: nat) { t in k.state }

  /** Each started thread is in exactly one place, its state agrees, and no queue holds it twice. */
  lemma EveryRun(k: Sched, es: seq<Event>, t: nat)
    requires StartOk(k) && Inv(k) && Possible(k, es) && Started(After(k, es), t)
    ensures
      var k' := After(k, es);
      exists p :: Standing(k', t, p) && k'.state[t] == StateFor(p) && forall p' :: Standing(k', t, p') ==> p' == p
    ensures forall q :: q in After(k, es).queues ==> Distinct(After(k, es).queues[q])
  {
    AfterKeeps(k, es);
    OnePlace(After(k, es), t);
  }

  lemma OnePlace(k: Sched, t: nat)
    requires Inv(k) && Started(k, t)
    ensures exists p :: Standing(k, t, p) && k.state[t] == StateFor(p) && forall p' :: Standing(k, t, p') ==> p' == p
  {
    var p := k.place[t];
    assert Standing(k, t, p) && k.state[t] == StateFor(p);
    forall p' | Standing(k, t, p') ensures p' == p {
      match p'
      case Current =>
      case Queued(q) =>
      case Gone =>
        match p
        case Current =>
        case Queued(_) =>
        case Gone =>
    }
  }

  // ----- no wake-up is lost -----

  /** The threads on the run queue that were woken from the queue of a semaphore and have not tested it again. */
  ghost function OnTheirWay(k: Sched, s: nat): set<nat>
    requires Domain(k) && Placed(k)
  {
    set t | t in k.queues[RunQ] && k.cont[t].Taking? && k.cont[t].sema == s && k.cont[t].woken
  }

  /** The current thread is woken and has not yet tested the semaphore again. */
  predicate CurrentIsWoken(k: Sched, s: nat)
    requires Domain(k)
  {
    !k.halted && IsWoken(k, s, k.cur)
  }

  /**
   In every reachable state, as many woken threads are on the run queue, or about to test the semaphore
   again, as a contended semaphore has units: while user code runs or nothing does, all on the run queue.
   */
  lemma WakeupsKept(k: Sched, es: seq<Event>, s: nat)
    requires Inv(k) && Possible(k, es) && s in After(k, es).value
    ensures
      var k' := After(k, es);
      && Inv(k') && k'.value[s] >= 0
      && (k'.queues[SemQ(s)] != [] ==> k'.value[s] <= |OnTheirWay(k', s)| + if CurrentIsWoken(k', s) then 1 else 0)
      && (k'.halted || k'.cont[k'.cur] == User ==> !CurrentIsWoken(k', s))
  {
    AfterKeeps(k, es);
    var k' := After(k, es);
    assert Enough(k', s);
    var onCpu := if CurrentIsWoken(k', s) then {k'.cur} else {};
    forall t | t in Woken(k', s) ensures t in OnTheirWay(k', s) + onCpu {
      assert k'.place[t] == Queued(RunQ) || k'.place[t] == Current;
    }
    SubsetSize(Woken(k', s), OnTheirWay(k', s) + onCpu);
  }

  /**
   Nothing is runnable or new, the launcher sleeps, and `t` has exited or waits for a signal or for
   a unit that is not there.
   */
  ghost predicate Stuck(k: Sched, t: nat)
    requires Domain(k) && t in k.place
  {
    && k.queues[RunQ] == [] && k.queues[NewQ] == [] && k.place[TOPMOST] == Queued(EvQ(NEWQ_EVENT))
    && match k.place[t]
       case Gone => k.state[t] == Exited
       case Queued(EvQ(_)) => true
       case Queued(SemQ(s)) => s in k.value && k.value[s] == 0
       case _ => false
  }

  lemma LauncherSleeps(k: Sched)
    requires Inv(k) && k.halted
    ensures k.place[TOPMOST] == Queued(EvQ(NEWQ_EVENT)) && k.queues[NewQ] == []
  {
    assert ContFits(TOPMOST, k.place[TOPMOST], k.cont[TOPMOST]);
  }

  lemma NoUnitLeft(k: Sched, s: nat)
    requires Inv(k) && k.halted && s in k.value && k.queues[SemQ(s)] != []
    ensures k.value[s] == 0
  {
    forall t | t in Woken(k, s) ensures false {}
    assert Woken(k, s) == {};
    assert Enough(k, s);
  }

  /** The scheduler halts only in a deadlock. */
  lemma HaltsOnlyStuck(k: Sched, t: nat)
    requires Inv(k) && k.halted && Started(k, t)
    ensures Stuck(k, t)
  {
    LauncherSleeps(k);
    var p := k.place[t];
    if p.Queued? {
      assert t in k.queues[p.q];
      if p.q.SemQ? { NoUnitLeft(k, p.q.s); }
    }
  }

  lemma HaltsOnlyInDeadlock(k: Sched, es: seq<Event>, t: nat)
    requires Inv(k) && Possible(k, es) && After(k, es).halted && Started(After(k, es), t)
    ensures Inv(After(k, es)) && Stuck(After(k, es), t)
  {
    AfterKeeps(k, es);
    HaltsOnlyStuck(After(k, es), t);
  }

  // ----- units of a semaphore -----

  /** How many units a step adds to a semaphore of the program. */
  function Dropped(e: Event, s: nat): nat
  {
    match e
    case DoDrop(r) => if r == s then 1 else 0
    case Wait(_, r) => if r == s then 1 else 0
    case _ => 0
  }

  /** How many units it takes: the test of the value finds one. */
  function Taken(k: Sched, e: Event, s: nat): nat
    requires s in k.value && k.cur in k.cont
  {
    match e
    case Try(r) => if r == s && k.value[s] != 0 then 1 else 0
    case Resume(_) => var c := k.cont[k.cur]; if c.Taking? && c.sema == s && k.value[s] != 0 then 1 else 0
    case _ => 0
  }

  ghost function AllDropped(es: seq<Event>, s: nat): nat
  {
    if es == [] then 0 else Dropped(es[0], s) + AllDropped(es[1..], s)
  }

  ghost function AllTaken(k: Sched, es: seq<Event>, s: nat): nat
    requires Inv(k) && Possible(k, es) && s in k.value
    decreases |es|
  {
    if es == [] then 0
    else
      NextKeeps(k, es[0]);
      NextValue(k, es[0], s);
      Taken(k, es[0], s) + AllTaken(Next(k, es[0]), es[1..], s)
  }

  lemma SleepValue(k: Sched)
    requires RunQ in k.queues
    ensures Sleep(k).value == k.value
  {
  }

  lemma YieldValue(k: Sched, c: Cont)
    requires RunQ in k.queues
    ensures Yield(k, c).value == k.value
  {
    SleepValue(Park(k, RunQ, Runnable, c));
  }

  lemma DropValue(k: Sched, s: nat)
    requires s in k.value && {SemQ(s), RunQ} <= k.queues.Keys
    ensures Drop(k, s).value == k.value[s := k.value[s] + 1]
  {
  }

  /** A step on the launcher's side touches no unit of the program's semaphores. */
  lemma RunValue(k: Sched, t: nat)
    requires Domain(k)
    ensures Yield(Drop(Signal(Offer(k, t), NEWQ_EVENT, 1), NEWQ_SEMA), User).value ==
      k.value[NEWQ_SEMA := k.value[NEWQ_SEMA] + 1]
  {
    SignalSame(Offer(k, t), NEWQ_EVENT, 1);
    DropValue(Signal(Offer(k, t), NEWQ_EVENT, 1), NEWQ_SEMA);
    YieldValue(Drop(Signal(Offer(k, t), NEWQ_EVENT, 1), NEWQ_SEMA), User);
  }

  lemma WaitValue(k: Sched, v: nat, s: nat, c: Cont)
    requires Domain(k) && EvQ(v) in k.queues && s in k.value
    ensures Sleep(Drop(Park(k, EvQ(v), EventWait, c), s)).value == k.value[s := k.value[s] + 1]
  {
    DropValue(Park(k, EvQ(v), EventWait, c), s);
    SleepValue(Drop(Park(k, EvQ(v), EventWait, c), s));
  }

  lemma TestValue(k: Sched, s: nat, after: Then)
    requires Domain(k) && s in k.value
    ensures
      var v := TestAgain(k, s, after).value;
      if k.value[s] == 0 then v == k.value
      else if after.ToRun? then v == k.value[s := k.value[s] - 1][NEWQ_SEMA := v[NEWQ_SEMA]]
      else v == k.value[s := k.value[s] - 1]
  {
    if k.value[s] == 0 {
      SleepValue(Park(k, SemQ(s), SemaWait, Taking(s, true, after)));
    } else if after.ToRun? {
      RunValue(Goto(Take(k, s), User), after.t);
    }
  }

  lemma LaunchValue(k: Sched, freeStack: bool)
    requires Domain(k) && k.cur == TOPMOST
    ensures
      var v := Launch(k, freeStack).value;
      NEWQ_SEMA in v && v == k.value[NEWQ_SEMA := v[NEWQ_SEMA]]
  {
    if k.queues[NewQ] == [] { WaitValue(k, NEWQ_EVENT, NEWQ_SEMA, Taking(NEWQ_SEMA, false, ToLaunch)); }
  }

  lemma NextValue(k: Sched, e: Event, s: nat)
    requires Inv(k) && Allowed(k, e) && s in k.value
    ensures s in Next(k, e).value
    ensures s != NEWQ_SEMA ==> Next(k, e).value[s] == k.value[s] + Dropped(e, s) - Taken(k, e, s)
  {
    match e
    case DoYield => YieldValue(k, User);
    case Try(_) =>
    case DoTake(r) => YieldValue(k, Taking(r, false, ToUser));
    case DoDrop(r) =>
      DropValue(k, r);
      YieldValue(Drop(k, r), User);
    case Wait(v, r) => WaitValue(k, v, r, Taking(r, false, ToUser));
    case DoSignal(v, max, _) =>
      SignalSame(k, v, max);
      YieldValue(Signal(k, v, max), User);
    case Run(_) =>
    case Exit => SleepValue(Leave(k));
    case Resume(freeStack) =>
      assert ContFits(k.cur, Current, k.cont[k.cur]);
      if k.cont[k.cur] == Launching {
        LaunchValue(k, freeStack);
      } else {
        TestValue(k, k.cont[k.cur].sema, k.cont[k.cur].after);
      }
  }

  /** The value is the first one, plus the drops, less the successful takes. */
  lemma {:induction false} UnitsConserved(k: Sched, es: seq<Event>, s: nat)
    requires Inv(k) && Possible(k, es) && s in k.value && s != NEWQ_SEMA
    ensures s in After(k, es).value && After(k, es).value[s] == k.value[s] + AllDropped(es, s) - AllTaken(k, es, s)
    decreases |es|
  {
    if es != [] {
      NextKeeps(k, es[0]);
      NextValue(k, es[0], s);
      UnitsConserved(Next(k, es[0]), es[1..], s);
    }
  }

  // ----- bounded waiting -----

  /** From `k` to `k'`, threads only joined the tail of the run queue, and each context switch took its head. */
  ghost predicate Advanced(k: Sched, k': Sched)
  {
    RunQ in k.queues && RunQ in k'.queues && k'.switches >= k.switches &&
    var d := k'.switches - k.switches;
    var queue := k.queues[RunQ];
    && (d == 0 ==> k'.cur == k.cur)
    && (0 < d <= |queue| ==> k'.cur == queue[d - 1])
    && (d <= |queue| ==> queue[d..] <= k'.queues[RunQ])
  }

  lemma DroppedTwice(queue: seq<nat>, next: seq<nat>, last: seq<nat>, d: nat, f: nat)
    requires d + f <= |queue| && queue[d..] <= next && next[f..] <= last
    ensures queue[d + f..] <= last && (f > 0 ==> next[f - 1] == queue[d + f - 1])
  {
    assert queue[d + f..] == queue[d..][f..];
    assert queue[d..][f..] == next[f..][..|queue| - d - f];
    if f > 0 { assert next[f - 1] == queue[d..][f - 1]; }
  }

  lemma AdvancedTwice(a: Sched, b: Sched, c: Sched)
    requires Advanced(a, b) && Advanced(b, c)
    ensures Advanced(a, c)
  {
    var d, f := b.switches - a.switches, c.switches - b.switches;
    if d + f <= |a.queues[RunQ]| { DroppedTwice(a.queues[RunQ], b.queues[RunQ], c.queues[RunQ], d, f); }
  }

  lemma WakeAdvances(k: Sched, q: QueueId)
    requires RunQ in k.queues && q in k.queues && q != RunQ
    ensures Advanced(k, Wake(k, q))
  {
  }

  lemma SleepAdvances(k: Sched)
    requires RunQ in k.queues
    ensures Advanced(k, Sleep(k))
  {
  }

  lemma YieldAdvances(k: Sched, c: Cont)
    requires RunQ in k.queues
    ensures Advanced(k, Yield(k, c))
  {
    if k.queues[RunQ] != [] { SleepAdvances(Park(k, RunQ, Runnable, c)); }
  }

  lemma SignalAdvances(k: Sched, e: nat, max: nat)
    requires RunQ in k.queues && EvQ(e) in k.queues
    ensures Advanced(k, Signal(k, e, max))
  {
    var P := (x: Sched) => Advanced(k, x);
    forall x: Sched | P(x) && {EvQ(e), RunQ} <= x.queues.Keys ensures P(Wake(x, EvQ(e))) {
      WakeAdvances(x, EvQ(e));
      AdvancedTwice(k, x, Wake(x, EvQ(e)));
    }
    SignalInduct(P, k, e, max);
  }

  lemma DropAdvances(k: Sched, s: nat)
    requires s in k.value && {SemQ(s), RunQ} <= k.queues.Keys
    ensures Advanced(k, Drop(k, s))
  {
    WakeAdvances(Raised(k, s), SemQ(s));
  }

  lemma DropThenYieldAdvances(k: Sched, s: nat)
    requires s in k.value && {SemQ(s), RunQ} <= k.queues.Keys
    ensures Advanced(k, Yield(Drop(k, s), User))
  {
    DropAdvances(k, s);
    YieldAdvances(Drop(k, s), User);
    AdvancedTwice(k, Drop(k, s), Yield(Drop(k, s), User));
  }

  lemma OfferAdvances(k: Sched, t: nat)
    requires {RunQ, NewQ, EvQ(NEWQ_EVENT)} <= k.queues.Keys
    ensures Advanced(k, Signal(Offer(k, t), NEWQ_EVENT, 1)) && Signal(Offer(k, t), NEWQ_EVENT, 1).value == k.value
  {
    SignalAdvances(Offer(k, t), NEWQ_EVENT, 1);
    SignalSame(Offer(k, t), NEWQ_EVENT, 1);
  }

  lemma RunAdvances(k: Sched, t: nat)
    requires Domain(k)
    ensures Advanced(k, Yield(Drop(Signal(Offer(k, t), NEWQ_EVENT, 1), NEWQ_SEMA), User))
  {
    var k1 := Signal(Offer(k, t), NEWQ_EVENT, 1);
    OfferAdvances(k, t);
    DropThenYieldAdvances(k1, NEWQ_SEMA);
    AdvancedTwice(k, k1, Yield(Drop(k1, NEWQ_SEMA), User));
  }

  lemma WaitAdvances(k: Sched, v: nat, s: nat, c: Cont)
    requires Domain(k) && EvQ(v) in k.queues && s in k.value
    ensures Advanced(k, Sleep(Drop(Park(k, EvQ(v), EventWait, c), s)))
  {
    var k1 := Park(k, EvQ(v), EventWait, c);
    DropAdvances(k1, s);
    SleepAdvances(Drop(k1, s));
    AdvancedTwice(k1, Drop(k1, s), Sleep(Drop(k1, s)));
  }

  lemma NextAdvances(k: Sched, e: Event)
    requires Inv(k) && Allowed(k, e)
    ensures Advanced(k, Next(k, e))
  {
    match e
    case DoYield => YieldAdvances(k, User);
    case Try(_) =>
    case DoTake(r) => YieldAdvances(k, Taking(r, false, ToUser));
    case DoDrop(r) => DropThenYieldAdvances(k, r);
    case Wait(v, r) => WaitAdvances(k, v, r, Taking(r, false, ToUser));
    case DoSignal(v, max, yielding) =>
      SignalAdvances(k, v, max);
      if yielding {
        YieldAdvances(Signal(k, v, max), User);
        AdvancedTwice(k, Signal(k, v, max), Yield(Signal(k, v, max), User));
      }
    case Run(_) =>
    case Exit => SleepAdvances(Leave(k));
    case Resume(freeStack) =>
      assert ContFits(k.cur, Current, k.cont[k.cur]);
      if k.cont[k.cur] == Launching {
        LaunchAdvances(k, freeStack);
      } else {
        TestAdvances(k, k.cont[k.cur].sema, k.cont[k.cur].after);
      }
  }

  lemma LaunchAdvances(k: Sched, freeStack: bool)
    requires Domain(k) && k.cur == TOPMOST
    ensures Advanced(k, Launch(k, freeStack))
  {
    if k.queues[NewQ] == [] {
      WaitAdvances(k, NEWQ_EVENT, NEWQ_SEMA, Taking(NEWQ_SEMA, false, ToLaunch));
    } else if freeStack {
      WakeAdvances(k, NewQ);
    }
  }

  lemma TestAdvances(k: Sched, s: nat, after: Then)
    requires Domain(k) && s in k.value
    ensures Advanced(k, TestAgain(k, s, after))
  {
    if k.value[s] == 0 {
      SleepAdvances(Park(k, SemQ(s), SemaWait, Taking(s, true, after)));
    } else if after.ToRun? {
      RunAdvances(Goto(Take(k, s), User), after.t);
    }
  }

  lemma RunSwitches(k: Sched, t: nat)
    requires Domain(k)
    ensures Yield(Drop(Signal(Offer(k, t), NEWQ_EVENT, 1), NEWQ_SEMA), User).switches <= k.switches + 1
  {
    SignalSame(Offer(k, t), NEWQ_EVENT, 1);
    assert Drop(Signal(Offer(k, t), NEWQ_EVENT, 1), NEWQ_SEMA).switches == k.switches;
  }

  lemma LaunchSwitches(k: Sched, freeStack: bool)
    requires HasLauncher(k)
    ensures Launch(k, freeStack).switches <= k.switches + 1
  {
  }

  lemma TestSwitches(k: Sched, s: nat, after: Then)
    requires Domain(k) && s in k.value
    ensures TestAgain(k, s, after).switches <= k.switches + 1
  {
    if k.value[s] != 0 && after.ToRun? { RunSwitches(Goto(Take(k, s), User), after.t); }
  }

  /** No step holds two context switches, so a run passes through each number of them. */
  lemma OneSwitch(k: Sched, e: Event)
    requires Inv(k) && Allowed(k, e)
    ensures k.switches <= Next(k, e).switches <= k.switches + 1
  {
    NextAdvances(k, e);
    match e
    case DoSignal(v, max, _) => SignalSame(k, v, max);
    case Resume(freeStack) =>
      assert ContFits(k.cur, Current, k.cont[k.cur]);
      if k.cont[k.cur] == Launching {
        LaunchSwitches(k, freeStack);
      } else {
        TestSwitches(k, k.cont[k.cur].sema, k.cont[k.cur].after);
      }
    case _ =>
  }

  lemma {:induction false} RunsAdvance(k: Sched, es: seq<Event>)
    requires Inv(k) && Possible(k, es)
    ensures Advanced(k, After(k, es))
    decreases |es|
  {
    if es != [] {
      NextKeeps(k, es[0]);
      NextAdvances(k, es[0]);
      RunsAdvance(Next(k, es[0]), es[1..]);
      AdvancedTwice(k, Next(k, es[0]), After(k, es));
    }
  }

  /**
   The thread at index `i` of the run queue becomes current at the context switch numbered i + 1
   and not before, whatever the other threads do; until then it moves up one place per switch.
   */
  lemma BoundedWaiting(k: Sched, es: seq<Event>, i: nat)
    requires Inv(k) && Possible(k, es) && i < |k.queues[RunQ]|
    ensures
      var k' := After(k, es);
      var d := k'.switches - k.switches;
      && 0 <= d && RunQ in k'.queues
      && (d <= i ==> i - d < |k'.queues[RunQ]| && k'.queues[RunQ][i - d] == k.queues[RunQ][i])
      && (d == i + 1 ==> k'.cur == k.queues[RunQ][i])
  {
    RunsAdvance(k, es);
    MovesUp(k, After(k, es), i);
  }

  lemma MovesUp(k: Sched, k': Sched, i: nat)
    requires Advanced(k, k') && i < |k.queues[RunQ]|
    ensures
      var d := k'.switches - k.switches;
      && (d <= i ==> i - d < |k'.queues[RunQ]| && k'.queues[RunQ][i - d] == k.queues[RunQ][i])
      && (d == i + 1 ==> k'.cur == k.queues[RunQ][i])
  {
    var d := k'.switches - k.switches;
    if d <= i { assert k.queues[RunQ][d..][i - d] == k.queues[RunQ][i]; }
  }

  // ----- signals -----

  /** The queues once the first `n` threads that wait for the event have joined the run queue. */
  function Promoted(queues: map<QueueId, seq<nat>>, e: nat, n: nat): map<QueueId, seq<nat>>
    requires {EvQ(e), RunQ} <= queues.Keys && n <= |queues[EvQ(e)]|
  {
    queues[EvQ(e) := queues[EvQ(e)][n..]][RunQ := queues[RunQ] + queues[EvQ(e)][..n]]
  }

  lemma PromotedStep(queues: map<QueueId, seq<nat>>, e: nat, n: nat)
    requires {EvQ(e), RunQ} <= queues.Keys && n <= |queues[EvQ(e)]|
    ensures n == 0 ==> Promoted(queues, e, n) == queues
    ensures n > 0 ==> Promoted(Promoted(queues, e, 1), e, n - 1) == Promoted(queues, e, n)
  {
    var waiting, run := queues[EvQ(e)], queues[RunQ];
    if n == 0 {
      assert waiting[0..] == waiting && run + waiting[..0] == run;
    } else {
      assert waiting[1..][n - 1..] == waiting[n..];
      assert run + waiting[..1] + waiting[1..][..n - 1] == run + waiting[..n];
    }
  }

  /** dthr_eventq_to_runq: the first `max` waiting threads, or all, join the run queue in the order they waited. */
  lemma {:induction false} SignalMoves(k: Sched, e: nat, max: nat)
    requires {EvQ(e), RunQ} <= k.queues.Keys
    ensures
      var n := if max < |k.queues[EvQ(e)]| then max else |k.queues[EvQ(e)]|;
      Signal(k, e, max).queues == Promoted(k.queues, e, n)
    decreases max
  {
    var n := if max < |k.queues[EvQ(e)]| then max else |k.queues[EvQ(e)]|;
    PromotedStep(k.queues, e, n);
    if n > 0 {
      WakePromotes(k, e);
      SignalMoves(Wake(k, EvQ(e)), e, max - 1);
    }
  }

  lemma WakePromotes(k: Sched, e: nat)
    requires {EvQ(e), RunQ} <= k.queues.Keys && k.queues[EvQ(e)] != []
    ensures Wake(k, EvQ(e)).queues == Promoted(k.queues, e, 1)
      && |Wake(k, EvQ(e)).queues[EvQ(e)]| == |k.queues[EvQ(e)]| - 1
  {
    assert [k.queues[EvQ(e)][0]] == k.queues[EvQ(e)][..1];
  }

  /** Each of them is runnable afterwards. */
  lemma {:induction false} SignalledRun(k: Sched, e: nat, max: nat, i: nat)
    requires {EvQ(e), RunQ} <= k.queues.Keys && i < max && i < |k.queues[EvQ(e)]|
    ensures
      var t, state := k.queues[EvQ(e)][i], Signal(k, e, max).state;
      t in state && state[t] == Runnable
    decreases max
  {
    var next := Wake(k, EvQ(e));
    if i == 0 { SignalLeaves(next, e, max - 1, k.queues[EvQ(e)][0]); } else { SignalledRun(next, e, max - 1, i - 1); }
  }

  /** A runnable thread stays runnable. */
  lemma {:induction false} SignalLeaves(k: Sched, e: nat, max: nat, t: nat)
    requires {EvQ(e), RunQ} <= k.queues.Keys && t in k.state && k.state[t] == Runnable
    ensures t in Signal(k, e, max).state && Signal(k, e, max).state[t] == Runnable
    decreases max
  {
    if max != 0 && k.queues[EvQ(e)] != [] { SignalLeaves(Wake(k, EvQ(e)), e, max - 1, t); }
  }

  /** dthr_event_broadcast wakes every waiting thread, as long as its count of them fits an unsigned int. */
  lemma BroadcastWakesAll(k: Sched, e: nat)
    requires {EvQ(e), RunQ} <= k.queues.Keys
    ensures Signal(k, e, UINT_MAX).queues[EvQ(e)] == [] <==> |k.queues[EvQ(e)]| <= UINT_MAX
  {
    SignalMoves(k, e, UINT_MAX);
  }
}
