/**
 The scheduler of dread.c. A step is what the current thread does up to the next point at which
 another thread may run; `cont` is where each thread goes on when it next runs.
 */
module Threads {
  import opened Basics

  const TOPMOST: nat := 0
  const NEWQ_SEMA: nat := 0
  const NEWQ_EVENT: nat := 0
  const UINT_MAX: nat := 0xFFFF_FFFF

  datatype QueueId = RunQ | NewQ | SemQ(s: nat) | EvQ(e: nat)

  datatype Place = Current | Queued(q: QueueId) | Gone

  datatype ThreadState = Runnable | SemaWait | EventWait | Exited

  /** What follows a successful dthr_semaphore_take_no_yield. */
  datatype Then = ToUser | ToRun(t: nat) | ToLaunch

  /** `woken` tells the threads that waited in the semaphore's own queue. */
  datatype Cont = User | Taking(sema: nat, woken: bool, after: Then) | Launching

  /** `place` and `switches` only record history; no step reads them. */
  datatype Sched = Sched(
    cur: nat,
    halted: bool,
    queues: map<QueueId, seq<nat>>,
    state: map<nat, ThreadState>,
    cont: map<nat, Cont>,
    value: map<nat, int>,
    place: map<nat, Place>,
    switches: nat)

  // ----- the invariant -----

  ghost predicate Domain(k: Sched)
  {
    && {RunQ, NewQ, EvQ(NEWQ_EVENT)} <= k.queues.Keys && NEWQ_SEMA in k.value
    && (forall s :: s in k.value <==> SemQ(s) in k.queues)
    && k.state.Keys == k.place.Keys && k.cont.Keys == k.place.Keys && k.cur in k.place && TOPMOST in k.place
  }

  /** A thread is in the one queue, if any, that its place names, once. */
  ghost predicate Held(queues: map<QueueId, seq<nat>>, place: map<nat, Place>)
  {
    && (forall q, t :: q in queues && t in queues[q] ==> t in place && place[t] == Queued(q))
    && (forall t :: t in place && place[t].Queued? ==> place[t].q in queues && t in queues[place[t].q])
    && (forall q :: q in queues ==> Distinct(queues[q]))
  }

  ghost predicate Placed(k: Sched)
  {
    Held(k.queues, k.place) && forall t :: t in k.place && k.place[t] == Current ==> t == k.cur
  }

  function StateFor(p: Place): ThreadState
  {
    match p
    case Queued(SemQ(_)) => SemaWait
    case Queued(EvQ(_)) => EventWait
    case Gone => Exited
    case _ => Runnable
  }

  ghost predicate StateOk(k: Sched)
    requires Domain(k)
  {
    forall t :: t in k.place ==> k.state[t] == StateFor(k.place[t])
  }

  ghost predicate Struct(k: Sched)
  {
    Domain(k) && Placed(k) && StateOk(k)
  }

  predicate ContFits(t: nat, p: Place, c: Cont)
  {
    && (match p
        case Current => true
        case Gone => c == User && t != TOPMOST
        case Queued(NewQ) => c == User && t != TOPMOST
        case Queued(RunQ) => !c.Launching? && !(c.Taking? && c.after.ToRun?)
        case Queued(SemQ(s)) => c.Taking? && c.sema == s && c.woken && !c.after.ToRun?
        case Queued(EvQ(e)) => c.Taking? && !c.woken && !c.after.ToRun? && (e == NEWQ_EVENT <==> t == TOPMOST))
    && match c
       case User => t != TOPMOST
       case Launching => t == TOPMOST
       case Taking(s, _, after) =>
         if t == TOPMOST then s == NEWQ_SEMA && after.ToLaunch?
         else if after.ToRun? then s == NEWQ_SEMA else after.ToUser? && s != NEWQ_SEMA
  }

  /** A thread resumes where it can have stopped, and a thread being started is not yet anywhere. */
  ghost predicate Conts(k: Sched)
    requires Domain(k)
  {
    && (forall t :: t in k.place ==> ContFits(t, k.place[t], k.cont[t]))
    && (forall t :: t in k.place && k.cont[t].Taking? ==> k.cont[t].sema in k.value)
    && (forall t :: t in k.place && k.cont[t].Taking? && k.cont[t].after.ToRun? ==> k.cont[t].after.t !in k.place)
  }

  /** There is a current thread unless the scheduler has halted, which it does only when none is runnable. */
  ghost predicate Driven(k: Sched)
    requires Domain(k)
  {
    if k.halted then k.queues[RunQ] == [] && k.place[k.cur] != Current else k.place[k.cur] == Current
  }

  ghost predicate NonNegative(k: Sched)
  {
    forall s :: s in k.value ==> k.value[s] >= 0
  }

  predicate IsWoken(k: Sched, s: nat, t: nat)
    requires t in k.place && t in k.cont
  {
    (k.place[t] == Current || k.place[t] == Queued(RunQ)) && k.cont[t].Taking? && k.cont[t].sema == s && k.cont[t].woken
  }

  /** The threads woken from the queue of a semaphore that have not tested its value again. */
  ghost function Woken(k: Sched, s: nat): set<nat>
    requires Domain(k)
  {
    set t | t in k.place && IsWoken(k, s, t)
  }

  /** While threads wait for a semaphore, as many woken ones are on their way as it has units. */
  ghost predicate NoLostWakeup(k: Sched)
    requires Domain(k)
  {
    forall s :: s in k.value ==> Enough(k, s)
  }

  ghost predicate Enough(k: Sched, s: nat)
    requires Domain(k) && s in k.value
  {
    k.queues[SemQ(s)] != [] ==> k.value[s] <= |Woken(k, s)|
  }

  /** The launcher holds its lock exactly while it launches, never waits for it, and sleeps only when nothing is new. */
  ghost predicate LauncherOk(k: Sched)
    requires Domain(k)
  {
    && k.value[NEWQ_SEMA] == (if k.cont[TOPMOST] == Launching then 0 else 1)
    && k.queues[SemQ(NEWQ_SEMA)] == []
    && (k.queues[NewQ] != [] ==> k.place[TOPMOST] != Queued(EvQ(NEWQ_EVENT)))
  }

  ghost predicate Core(k: Sched)
  {
    Struct(k) && Conts(k) && NonNegative(k) && NoLostWakeup(k)
  }

  ghost predicate Inv(k: Sched)
  {
    Core(k) && LauncherOk(k) && Driven(k)
  }

  // ----- the pieces of a step -----

  /** The head of `q`, if there is one, becomes runnable. */
  function Wake(k: Sched, q: QueueId): (r: Sched)
    requires q in k.queues && RunQ in k.queues
    ensures r.queues.Keys == k.queues.Keys
  {
    if k.queues[q] == [] then k
    else
      var t := k.queues[q][0];
      var queues := k.queues[q := k.queues[q][1..]];
      k.(queues := queues[RunQ := queues[RunQ] + [t]], state := k.state[t := Runnable],
        place := k.place[t := Queued(RunQ)])
  }

  /** The current thread joins the tail of `q`; it is to go on at `c`. */
  function Park(k: Sched, q: QueueId, state: ThreadState, c: Cont): Sched
    requires q in k.queues
  {
    k.(queues := k.queues[q := k.queues[q] + [k.cur]], state := k.state[k.cur := state],
       cont := k.cont[k.cur := c], place := k.place[k.cur := Queued(q)])
  }

  /** dthr_thread_sleep: the head of the run queue becomes current; without one the scheduler halts. */
  function Sleep(k: Sched): Sched
    requires RunQ in k.queues
  {
    if k.queues[RunQ] == [] then k.(halted := true)
    else
      var t := k.queues[RunQ][0];
      k.(queues := k.queues[RunQ := k.queues[RunQ][1..]], cur := t, place := k.place[t := Current],
        switches := k.switches + 1)
  }

  /** dthr_thread_yield: nothing happens when no other thread is runnable. */
  function Yield(k: Sched, c: Cont): Sched
    requires RunQ in k.queues
  {
    if k.queues[RunQ] == [] then k.(cont := k.cont[k.cur := c]) else Sleep(Park(k, RunQ, Runnable, c))
  }

  /** One more unit, before anyone is woken for it. */
  function Raised(k: Sched, s: nat): Sched
    requires s in k.value
  {
    k.(value := k.value[s := k.value[s] + 1])
  }

  /** dthr_semaphore_drop_no_yield */
  function Drop(k: Sched, s: nat): Sched
    requires s in k.value && SemQ(s) in k.queues && RunQ in k.queues
  {
    Wake(Raised(k, s), SemQ(s))
  }

  /** A unit of the semaphore is taken. */
  function Take(k: Sched, s: nat): Sched
    requires s in k.value
  {
    k.(value := k.value[s := k.value[s] - 1])
  }

  /** dthr_eventq_to_runq */
  function Signal(k: Sched, e: nat, max: nat): (r: Sched)
    requires EvQ(e) in k.queues && RunQ in k.queues
    ensures r.queues.Keys == k.queues.Keys
    decreases max
  {
    if max == 0 || k.queues[EvQ(e)] == [] then k else Signal(Wake(k, EvQ(e)), e, max - 1)
  }

  /** A thread is offered to the launcher. */
  function Offer(k: Sched, t: nat): Sched
    requires NewQ in k.queues
  {
    k.(queues := k.queues[NewQ := k.queues[NewQ] + [t]], state := k.state[t := Runnable], cont := k.cont[t := User],
       place := k.place[t := Queued(NewQ)])
  }

  /** The current thread goes on at `c`. */
  function Goto(k: Sched, c: Cont): Sched { k.(cont := k.cont[k.cur := c]) }

  /** The current thread's place after dthr_thread_exit. */
  function Leave(k: Sched): Sched
  {
    k.(state := k.state[k.cur := Exited], place := k.place[k.cur := Gone])
  }

  // ----- the steps -----

  /** What the code of a thread may call; `Resume` is the rest of a call after a context switch. */
  datatype Event =
    | DoYield
    | Try(s: nat)
    | DoTake(s: nat)
    | DoDrop(s: nat)
    | Wait(e: nat, s: nat)
    | DoSignal(e: nat, max: nat, yielding: bool)
    | Run(t: nat)
    | Exit
    | Resume(freeStack: bool)

  /**
   The current thread may do this: user code knows neither the launcher's lock nor its event, and
   starts a thread once.
   */
  ghost predicate Allowed(k: Sched, e: Event)
    requires Domain(k)
  {
    && !k.halted
    && (e.Resume? <==> k.cont[k.cur] != User)
    && match e
       case Try(s) => s in k.value && s != NEWQ_SEMA
       case DoTake(s) => s in k.value && s != NEWQ_SEMA
       case DoDrop(s) => s in k.value && s != NEWQ_SEMA
       case Wait(v, s) => s in k.value && s != NEWQ_SEMA && EvQ(v) in k.queues && v != NEWQ_EVENT
       case DoSignal(v, _, _) => EvQ(v) in k.queues && v != NEWQ_EVENT
       case Run(t) => t !in k.place
       case _ => true
  }

  /** The queues, the lock and the event of the launcher are there. */
  ghost predicate HasLauncher(k: Sched)
  {
    {RunQ, NewQ, EvQ(NEWQ_EVENT), SemQ(NEWQ_SEMA)} <= k.queues.Keys && NEWQ_SEMA in k.value
  }

  /** The launcher: the next new thread gets a stack, a free one or by growing the launcher's own. */
  ghost function Launch(k: Sched, freeStack: bool): Sched
    requires HasLauncher(k)
  {
    if k.queues[NewQ] == [] then
      Sleep(Drop(Park(k, EvQ(NEWQ_EVENT), EventWait, Taking(NEWQ_SEMA, false, ToLaunch)), NEWQ_SEMA))
    else if freeStack then Wake(k, NewQ)
    else Grow(k)
  }

  /** The lock is dropped before the stack grows and taken again by the new launcher. */
  ghost function Grow(k: Sched): Sched
    requires HasLauncher(k) && k.queues[NewQ] != []
  {
    var t := k.queues[NewQ][0];
    var out := Drop(k.(queues := k.queues[NewQ := k.queues[NewQ][1..]], state := k.state[t := Runnable]), NEWQ_SEMA);
    Goto(out.(queues := out.queues[RunQ := out.queues[RunQ] + [t]], place := out.place[t := Queued(RunQ)]),
      Taking(NEWQ_SEMA, false, ToLaunch))
  }

  /** The loop test of dthr_semaphore_take_no_yield, and what follows it. */
  ghost function TestAgain(k: Sched, s: nat, after: Then): Sched
    requires HasLauncher(k) && s in k.value && SemQ(s) in k.queues
  {
    if k.value[s] == 0 then Sleep(Park(k, SemQ(s), SemaWait, Taking(s, true, after)))
    else
      var k' := Take(k, s);
      match after
      case ToUser => Goto(k', User)
      case ToLaunch => Goto(k', Launching)
      case ToRun(t) => Yield(Drop(Signal(Offer(Goto(k', User), t), NEWQ_EVENT, 1), NEWQ_SEMA), User)
  }

  /** A call that goes on has a semaphore to test, and only the topmost thread launches. */
  ghost predicate Resumable(k: Sched)
    requires Domain(k)
  {
    match k.cont[k.cur]
    case User => true
    case Launching => k.cur == TOPMOST
    case Taking(s, _, _) => s in k.value
  }

  ghost function Next(k: Sched, e: Event): Sched
    requires Domain(k) && Resumable(k) && Allowed(k, e)
  {
    match e
    case DoYield => Yield(k, User)
    case Try(s) => if k.value[s] == 0 then k else Take(k, s)
    case DoTake(s) => Yield(k, Taking(s, false, ToUser))
    case DoDrop(s) => Yield(Drop(k, s), User)
    case Wait(v, s) => Sleep(Drop(Park(k, EvQ(v), EventWait, Taking(s, false, ToUser)), s))
    case DoSignal(v, max, yielding) => var k' := Signal(k, v, max); if yielding then Yield(k', User) else k'
    case Run(t) => Goto(k, Taking(NEWQ_SEMA, false, ToRun(t)))
    case Exit => Sleep(Leave(k))
    case Resume(freeStack) =>
      match k.cont[k.cur]
      case Launching => Launch(k, freeStack)
      case Taking(s, _, after) => TestAgain(k, s, after)
  }

  // ----- every piece keeps the invariant -----

  lemma {:induction false} SubsetSize(a: set<nat>, b: set<nat>)
    requires a <= b
    ensures |a| <= |b|
  {
    if a != {} {
      var x :| x in a;
      SubsetSize(a - {x}, b - {x});
    }
  }

  lemma WokenKept(k: Sched, k': Sched, s: nat)
    requires Domain(k) && Domain(k')
    requires forall t :: t in k.place && IsWoken(k, s, t) ==> t in k'.place && IsWoken(k', s, t)
    ensures |Woken(k, s)| <= |Woken(k', s)|
  {
    SubsetSize(Woken(k, s), Woken(k', s));
  }

  lemma WokenGains(k: Sched, k': Sched, s: nat, x: nat)
    requires Domain(k) && Domain(k') && x in k.place && !IsWoken(k, s, x) && x in k'.place && IsWoken(k', s, x)
    requires forall t :: t in k.place && IsWoken(k, s, t) ==> t in k'.place && IsWoken(k', s, t)
    ensures |Woken(k, s)| + 1 <= |Woken(k', s)|
  {
    SubsetSize(Woken(k, s) + {x}, Woken(k', s));
  }

  lemma WokenLoses(k: Sched, k': Sched, s: nat, x: nat)
    requires Domain(k) && Domain(k')
    requires forall t :: t in k.place && IsWoken(k, s, t) && t != x ==> t in k'.place && IsWoken(k', s, t)
    ensures |Woken(k, s)| <= |Woken(k', s)| + 1
  {
    SubsetSize(Woken(k, s) - {x}, Woken(k', s));
  }

  lemma DistinctEnds(s: seq<nat>, t: nat)
    requires Distinct(s)
    ensures t !in s ==> Distinct(s + [t])
    ensures s != [] ==> Distinct(s[1..]) && forall x :: x in s[1..] <==> x in s && x != s[0]
  {
    if s != [] {
      forall x | x in s && x != s[0] ensures x in s[1..] {
        var i :| 0 <= i < |s| && s[i] == x;
        assert s[1..][i - 1] == x;
      }
    }
  }

  lemma PushHeld(queues: map<QueueId, seq<nat>>, place: map<nat, Place>, q: QueueId, t: nat)
    requires Held(queues, place) && q in queues && (t in place ==> !place[t].Queued?)
    ensures Held(queues[q := queues[q] + [t]], place[t := Queued(q)])
  {
    DistinctEnds(queues[q], t);
  }

  lemma PopHeld(queues: map<QueueId, seq<nat>>, place: map<nat, Place>, q: QueueId, p: Place)
    requires Held(queues, place) && q in queues && queues[q] != [] && !p.Queued?
    ensures queues[q][0] in place && place[queues[q][0]] == Queued(q)
    ensures Held(queues[q := queues[q][1..]], place[queues[q][0] := p])
  {
    DistinctEnds(queues[q], 0);
    assert queues[q][0] in queues[q];
  }

  lemma WakeStruct(k: Sched, q: QueueId)
    requires Struct(k) && q in k.queues && q != RunQ
    ensures Struct(Wake(k, q))
  {
    if k.queues[q] != [] {
      var t := k.queues[q][0];
      var queues := k.queues[q := k.queues[q][1..]];
      PopHeld(k.queues, k.place, q, Current);
      PushHeld(queues, k.place[t := Current], RunQ, t);
      assert k.place[t := Current][t := Queued(RunQ)] == k.place[t := Queued(RunQ)];
    }
  }

  lemma ParkStruct(k: Sched, q: QueueId, state: ThreadState, c: Cont)
    requires Struct(k) && q in k.queues && k.place[k.cur] == Current && state == StateFor(Queued(q))
    ensures Struct(Park(k, q, state, c))
  {
    PushHeld(k.queues, k.place, q, k.cur);
  }

  lemma SleepStruct(k: Sched)
    requires Struct(k) && k.place[k.cur] != Current
    ensures Struct(Sleep(k))
  {
    if k.queues[RunQ] != [] { PopHeld(k.queues, k.place, RunQ, Current); }
  }

  /** The current thread is placed where it is, and stays there. */
  ghost predicate Runs(k: Sched)
  {
    !k.halted && k.cur in k.place && k.place[k.cur] == Current
  }

  /** The head of `q`, if there is one, is placed there. */
  ghost predicate HeadPlaced(k: Sched, q: QueueId)
  {
    q in k.queues && q != RunQ
      && (k.queues[q] != [] ==> k.queues[q][0] in k.place && k.place[k.queues[q][0]] == Queued(q))
  }

  lemma Headed(k: Sched, q: QueueId)
    requires Placed(k) && q in k.queues && q != RunQ
    ensures HeadPlaced(k, q)
  {
    if k.queues[q] != [] { assert k.queues[q][0] in k.queues[q]; }
  }

  lemma WakeDomain(k: Sched, q: QueueId)
    requires Domain(k) && HeadPlaced(k, q)
    ensures Domain(Wake(k, q)) && (Runs(k) ==> Runs(Wake(k, q)))
  {
  }

  lemma WakeConts(k: Sched, q: QueueId)
    requires Domain(k) && Conts(k) && HeadPlaced(k, q)
    ensures Domain(Wake(k, q)) && Conts(Wake(k, q))
  {
    WakeDomain(k, q);
    if k.queues[q] != [] { assert ContFits(k.queues[q][0], Queued(q), k.cont[k.queues[q][0]]); }
  }

  /** Waking loses no woken thread, and the head of a semaphore's queue becomes one. */
  lemma WakeWoken(k: Sched, q: QueueId, s: nat)
    requires Domain(k) && Conts(k) && HeadPlaced(k, q)
    ensures Domain(Wake(k, q))
      && |Woken(k, s)| + (if q == SemQ(s) && k.queues[q] != [] then 1 else 0) <= |Woken(Wake(k, q), s)|
  {
    WakeDomain(k, q);
    if q == SemQ(s) && k.queues[q] != [] {
      var t := k.queues[q][0];
      assert ContFits(t, Queued(q), k.cont[t]);
      WokenGains(k, Wake(k, q), s, t);
    } else {
      WokenKept(k, Wake(k, q), s);
    }
  }

  lemma WakeEnough(k: Sched, q: QueueId, s: nat)
    requires Domain(k) && Conts(k) && HeadPlaced(k, q) && s in k.value && Enough(k, s)
    ensures Domain(Wake(k, q)) && Enough(Wake(k, q), s)
  {
    WakeWoken(k, q, s);
  }

  lemma WakeKeeps(k: Sched, q: QueueId)
    requires Core(k) && q in k.queues && q != RunQ
    ensures Core(Wake(k, q)) && (Runs(k) ==> Runs(Wake(k, q)))
  {
    Headed(k, q);
    WakeStruct(k, q);
    WakeDomain(k, q);
    WakeConts(k, q);
    forall s | s in k.value ensures Enough(Wake(k, q), s) { WakeEnough(k, q, s); }
  }

  lemma DropEnough(k: Sched, s: nat, r: nat)
    requires Domain(k) && Conts(k) && s in k.value && HeadPlaced(k, SemQ(s)) && r in k.value && Enough(k, r)
    ensures Domain(Drop(k, s)) && Enough(Drop(k, s), r)
  {
    assert Woken(Raised(k, s), r) == Woken(k, r);
    WakeWoken(Raised(k, s), SemQ(s), r);
  }

  lemma RaisedKeeps(k: Sched, s: nat)
    requires Core(k) && s in k.value
    ensures Struct(Raised(k, s)) && Conts(Raised(k, s)) && NonNegative(Raised(k, s))
  {
  }

  lemma DropKeeps(k: Sched, s: nat)
    requires Core(k) && s in k.value
    ensures Core(Drop(k, s)) && (Runs(k) ==> Runs(Drop(k, s)))
  {
    RaisedKeeps(k, s);
    Headed(k, SemQ(s));
    WakeStruct(Raised(k, s), SemQ(s));
    WakeDomain(Raised(k, s), SemQ(s));
    WakeConts(Raised(k, s), SemQ(s));
    forall r | r in k.value ensures Enough(Drop(k, s), r) { DropEnough(k, s, r); }
  }

  lemma SleepKeeps(k: Sched)
    requires Core(k) && !k.halted && k.place[k.cur] != Current
    ensures Core(Sleep(k)) && Driven(Sleep(k))
  {
    var k' := Sleep(k);
    SleepStruct(k);
    if k.queues[RunQ] != [] { assert k.queues[RunQ][0] in k.queues[RunQ]; }
    forall s | s in k.value ensures Enough(k', s) {
      WokenKept(k, k', s);
    }
  }

  /** The current thread may join `q`: only a thread without a unit to take joins the queue of a semaphore. */
  ghost predicate MayPark(k: Sched, q: QueueId, c: Cont)
    requires Domain(k)
  {
    && Runs(k) && q in k.queues && ContFits(k.cur, Queued(q), c) && (c.Taking? ==> c.sema in k.value)
    && (k.cont[k.cur].Taking? ==> q == SemQ(k.cont[k.cur].sema))
    && (q.SemQ? ==> q.s in k.value && k.value[q.s] == 0)
  }

  lemma ParkConts(k: Sched, q: QueueId, state: ThreadState, c: Cont)
    requires Domain(k) && Conts(k) && MayPark(k, q, c)
    ensures Domain(Park(k, q, state, c)) && Conts(Park(k, q, state, c))
  {
  }

  lemma ParkEnough(k: Sched, q: QueueId, state: ThreadState, c: Cont, s: nat)
    requires Domain(k) && MayPark(k, q, c) && s in k.value && Enough(k, s)
    ensures Domain(Park(k, q, state, c)) && Enough(Park(k, q, state, c), s)
  {
    if q != SemQ(s) { WokenKept(k, Park(k, q, state, c), s); }
  }

  lemma ParkKeeps(k: Sched, q: QueueId, state: ThreadState, c: Cont)
    requires Core(k) && MayPark(k, q, c) && state == StateFor(Queued(q))
    ensures Core(Park(k, q, state, c))
  {
    ParkStruct(k, q, state, c);
    ParkConts(k, q, state, c);
    forall s | s in k.value ensures Enough(Park(k, q, state, c), s) { ParkEnough(k, q, state, c, s); }
  }

  lemma YieldKeeps(k: Sched, c: Cont)
    requires Core(k) && Runs(k) && k.cont[k.cur] == User && ContFits(k.cur, Queued(RunQ), c)
      && (c.Taking? ==> c.sema in k.value)
    ensures Core(Yield(k, c)) && Driven(Yield(k, c))
  {
    if k.queues[RunQ] == [] {
      GotoKeeps(k, c);
    } else {
      ParkKeeps(k, RunQ, Runnable, c);
      SleepKeeps(Park(k, RunQ, Runnable, c));
    }
  }

  /** A thread that was not woken goes on somewhere else. */
  lemma GotoKeeps(k: Sched, c: Cont)
    requires Core(k) && Runs(k) && !k.cont[k.cur].Taking? && ContFits(k.cur, Current, c)
      && (c.Taking? ==> c.sema in k.value)
    requires c.Taking? && c.after.ToRun? ==> c.after.t !in k.place
    ensures Core(Goto(k, c)) && Runs(Goto(k, c))
  {
    var k' := Goto(k, c);
    forall s | s in k.value ensures Enough(k', s) {
      WokenKept(k, k', s);
    }
  }

  /** A unit is taken by user code that found one. */
  lemma TryKeeps(k: Sched, s: nat)
    requires Core(k) && s in k.value && k.value[s] > 0
    ensures Core(Take(k, s))
  {
    var k' := Take(k, s);
    forall r | r in k.value ensures Enough(k', r) {
      WokenKept(k, k', r);
    }
  }

  /** A unit is taken after the test of the loop succeeded. */
  lemma TakenEnough(k: Sched, s: nat, c: Cont, r: nat)
    requires Domain(k) && Runs(k) && s in k.value && k.value[s] > 0 && (c == User || c == Launching)
    requires k.cont[k.cur].Taking? && k.cont[k.cur].sema == s && r in k.value && Enough(k, r)
    ensures Domain(Goto(Take(k, s), c)) && Enough(Goto(Take(k, s), c), r)
  {
    if r == s {
      WokenLoses(k, Goto(Take(k, s), c), r, k.cur);
    } else {
      WokenKept(k, Goto(Take(k, s), c), r);
    }
  }

  lemma TakenConts(k: Sched, s: nat, c: Cont)
    requires Struct(k) && Conts(k) && Runs(k) && s in k.value
    requires (c == User && k.cur != TOPMOST) || (c == Launching && k.cur == TOPMOST)
    ensures Struct(Goto(Take(k, s), c)) && Conts(Goto(Take(k, s), c)) && Runs(Goto(Take(k, s), c))
  {
  }

  lemma TakenKeeps(k: Sched, s: nat, c: Cont)
    requires Core(k) && Runs(k) && s in k.value && k.value[s] > 0 && k.cont[k.cur].Taking? && k.cont[k.cur].sema == s
    requires (c == User && k.cur != TOPMOST) || (c == Launching && k.cur == TOPMOST)
    ensures Core(Goto(Take(k, s), c)) && Runs(Goto(Take(k, s), c))
  {
    TakenConts(k, s, c);
    assert NonNegative(Goto(Take(k, s), c));
    forall r | r in k.value ensures Enough(Goto(Take(k, s), c), r) { TakenEnough(k, s, c, r); }
  }

  lemma OfferStruct(k: Sched, t: nat)
    requires Struct(k) && Runs(k) && t !in k.place
    ensures Struct(Offer(k, t)) && Runs(Offer(k, t))
  {
    PushHeld(k.queues, k.place, NewQ, t);
  }

  lemma OfferConts(k: Sched, t: nat)
    requires Domain(k) && Conts(k) && Placed(k) && Runs(k) && k.cont[k.cur] == User && t !in k.place
    ensures Domain(Offer(k, t)) && Conts(Offer(k, t))
  {
    forall u | u in k.place && k.cont[u].Taking? ensures !k.cont[u].after.ToRun? {
      assert ContFits(u, k.place[u], k.cont[u]);
    }
  }

  lemma OfferKeeps(k: Sched, t: nat)
    requires Core(k) && Runs(k) && k.cont[k.cur] == User && t !in k.place
    ensures Core(Offer(k, t)) && Runs(Offer(k, t))
  {
    OfferStruct(k, t);
    OfferConts(k, t);
    forall s | s in k.value ensures Enough(Offer(k, t), s) { WokenKept(k, Offer(k, t), s); }
  }

  /** Whatever waking one thread of the queue keeps, signalling keeps. */
  lemma {:induction false} SignalInduct(P: Sched -> bool, k: Sched, e: nat, max: nat)
    requires P(k) && {EvQ(e), RunQ} <= k.queues.Keys
    requires forall x: Sched {:trigger Wake(x, EvQ(e))} :: P(x) && {EvQ(e), RunQ} <= x.queues.Keys ==>
      P(Wake(x, EvQ(e)))
    ensures P(Signal(k, e, max))
    decreases max
  {
    if max != 0 && k.queues[EvQ(e)] != [] { SignalInduct(P, Wake(k, EvQ(e)), e, max - 1); }
  }

  lemma SignalKeeps(k: Sched, e: nat, max: nat)
    requires Core(k) && Runs(k) && EvQ(e) in k.queues
    ensures Core(Signal(k, e, max)) && Runs(Signal(k, e, max))
  {
    var P := (x: Sched) => Core(x) && Runs(x);
    forall x: Sched | P(x) && EvQ(e) in x.queues ensures P(Wake(x, EvQ(e))) { WakeKeeps(x, EvQ(e)); }
    SignalInduct(P, k, e, max);
  }

  lemma LeaveStruct(k: Sched)
    requires Struct(k) && Runs(k)
    ensures Struct(Leave(k))
  {
  }

  lemma LeaveKeeps(k: Sched)
    requires Core(k) && Runs(k) && k.cont[k.cur] == User
    ensures Core(Leave(k)) && !Leave(k).halted && Leave(k).place[k.cur] != Current
  {
    LeaveStruct(k);
    forall s | s in k.value ensures Enough(Leave(k), s) { WokenKept(k, Leave(k), s); }
  }

  lemma GrowIsWake(k: Sched)
    requires Domain(k) && k.queues[NewQ] != [] && k.queues[SemQ(NEWQ_SEMA)] == []
    ensures Grow(k) == Goto(Raised(Wake(k, NewQ), NEWQ_SEMA), Taking(NEWQ_SEMA, false, ToLaunch))
    ensures Drop(Wake(k, NewQ), NEWQ_SEMA) == Raised(Wake(k, NewQ), NEWQ_SEMA)
  {
    var t := k.queues[NewQ][0];
    var queues := k.queues[NewQ := k.queues[NewQ][1..]];
    assert Wake(k, NewQ).queues == queues[RunQ := k.queues[RunQ] + [t]];
    assert Grow(k).queues == queues[RunQ := k.queues[RunQ] + [t]];
  }

  /** Nobody waits for the launcher's lock, so growing its stack is waking the new thread and raising the lock. */
  lemma GrowKeeps(k: Sched)
    requires Core(k) && Runs(k) && k.cont[k.cur] == Launching && k.queues[NewQ] != [] && k.queues[SemQ(NEWQ_SEMA)] == []
    ensures Core(Grow(k)) && Runs(Grow(k))
  {
    GrowIsWake(k);
    WakeKeeps(k, NewQ);
    DropKeeps(Wake(k, NewQ), NEWQ_SEMA);
    GrowContinues(k);
    GotoKeeps(Drop(Wake(k, NewQ), NEWQ_SEMA), Taking(NEWQ_SEMA, false, ToLaunch));
  }

  lemma GrowContinues(k: Sched)
    requires Domain(k) && k.queues[SemQ(NEWQ_SEMA)] == []
    ensures
      var k' := Drop(Wake(k, NewQ), NEWQ_SEMA);
      k'.cont == k.cont && k'.cur == k.cur && k'.value.Keys == k.value.Keys
  {
  }

  // ----- the launcher -----

  /** The launcher's lock, its queues and its own continuation are there. */
  ghost predicate Wired(k: Sched)
  {
    NEWQ_SEMA in k.value && TOPMOST in k.cont && TOPMOST in k.place && {RunQ, NewQ, SemQ(NEWQ_SEMA)} <= k.queues.Keys
  }

  /**
   A step of a thread leaves the launcher's lock, its queues and its continuation alone, and puts it
   to sleep never.
   */
  ghost predicate Quiet(k: Sched, k': Sched)
  {
    && Wired(k) && Wired(k') && k'.value[NEWQ_SEMA] == k.value[NEWQ_SEMA] && k'.cont[TOPMOST] == k.cont[TOPMOST]
    && k'.queues[SemQ(NEWQ_SEMA)] == k.queues[SemQ(NEWQ_SEMA)] && k'.queues[NewQ] == k.queues[NewQ]
    && (k'.place[TOPMOST] == Queued(EvQ(NEWQ_EVENT)) ==> k.place[TOPMOST] == Queued(EvQ(NEWQ_EVENT)))
  }

  lemma WakeQuiet(k: Sched, q: QueueId)
    requires Wired(k) && q in k.queues && q != RunQ && q != NewQ && q != SemQ(NEWQ_SEMA)
    ensures Quiet(k, Wake(k, q))
  {
  }

  lemma DropQuiet(k: Sched, s: nat)
    requires Wired(k) && s in k.value && SemQ(s) in k.queues && s != NEWQ_SEMA
    ensures Quiet(k, Drop(k, s))
  {
    WakeQuiet(Raised(k, s), SemQ(s));
  }

  lemma ParkQuiet(k: Sched, q: QueueId, state: ThreadState, c: Cont)
    requires Wired(k) && q in k.queues && k.cur != TOPMOST && q != NewQ && q != SemQ(NEWQ_SEMA)
    ensures Quiet(k, Park(k, q, state, c))
  {
  }

  lemma SleepQuiet(k: Sched)
    requires Wired(k)
    ensures Quiet(k, Sleep(k))
  {
  }

  lemma YieldQuiet(k: Sched, c: Cont)
    requires Wired(k) && k.cur != TOPMOST
    ensures Quiet(k, Yield(k, c))
  {
    ParkQuiet(k, RunQ, Runnable, c);
    SleepQuiet(Park(k, RunQ, Runnable, c));
  }

  lemma {:induction false} SignalQuiet(k: Sched, e: nat, max: nat)
    requires Wired(k) && EvQ(e) in k.queues
    ensures Quiet(k, Signal(k, e, max))
    decreases max
  {
    if max != 0 && k.queues[EvQ(e)] != [] {
      WakeQuiet(k, EvQ(e));
      SignalQuiet(Wake(k, EvQ(e)), e, max - 1);
    }
  }

  /** Once a new thread is offered and the event signalled, the launcher is not asleep, for it alone waits there. */
  lemma OfferWakes(k: Sched, t: nat)
    requires Struct(k) && Conts(k) && t !in k.place && NewQ in k.queues
    ensures
      var k' := Signal(Offer(k, t), NEWQ_EVENT, 1);
      && Wired(k') && k'.place[TOPMOST] != Queued(EvQ(NEWQ_EVENT)) && k'.value == k.value
      && k'.queues[SemQ(NEWQ_SEMA)] == k.queues[SemQ(NEWQ_SEMA)] && k'.cont[TOPMOST] == k.cont[TOPMOST]
      && k'.cur == k.cur
  {
    var k1 := Offer(k, t);
    assert Signal(k1, NEWQ_EVENT, 1) == Wake(k1, EvQ(NEWQ_EVENT)) by {
      assert Signal(Wake(k1, EvQ(NEWQ_EVENT)), NEWQ_EVENT, 0) == Wake(k1, EvQ(NEWQ_EVENT));
    }
    if k.place[TOPMOST] == Queued(EvQ(NEWQ_EVENT)) {
      var queue := k.queues[EvQ(NEWQ_EVENT)];
      assert TOPMOST in queue;
      assert queue[0] in queue;
      assert ContFits(queue[0], Queued(EvQ(NEWQ_EVENT)), k.cont[queue[0]]);
      assert queue[0] == TOPMOST;
    }
  }

  // ----- every step keeps the invariant -----

  lemma TopmostIsLauncher(k: Sched)
    requires Domain(k) && Conts(k) && k.cont[k.cur] == User
    ensures k.cur != TOPMOST
  {
    assert ContFits(k.cur, k.place[k.cur], k.cont[k.cur]);
  }

  lemma WaitCore(k: Sched, v: nat, s: nat, c: Cont)
    requires Core(k) && Runs(k) && !k.cont[k.cur].Taking? && EvQ(v) in k.queues && s in k.value
    requires ContFits(k.cur, Queued(EvQ(v)), c) && c.Taking? && c.sema == s
    ensures
      var k' := Sleep(Drop(Park(k, EvQ(v), EventWait, c), s));
      Core(k') && Driven(k')
  {
    var k1 := Park(k, EvQ(v), EventWait, c);
    ParkKeeps(k, EvQ(v), EventWait, c);
    DropKeeps(k1, s);
    WakePlace(Raised(k1, s), SemQ(s));
    SleepKeeps(Drop(k1, s));
  }

  /** Waking a thread makes none current. */
  lemma WakePlace(k: Sched, q: QueueId)
    requires Domain(k) && q in k.queues && !k.halted && k.place[k.cur] != Current
    ensures
      var k' := Wake(k, q);
      !k'.halted && k'.cur == k.cur && k'.cur in k'.place && k'.place[k'.cur] != Current
  {
  }

  lemma WaitQuiet(k: Sched, v: nat, s: nat, c: Cont)
    requires Wired(k) && k.cur != TOPMOST && EvQ(v) in k.queues && s in k.value && SemQ(s) in k.queues
    requires s != NEWQ_SEMA
    ensures Quiet(k, Sleep(Drop(Park(k, EvQ(v), EventWait, c), s)))
  {
    ParkQuiet(k, EvQ(v), EventWait, c);
    DropQuiet(Park(k, EvQ(v), EventWait, c), s);
    SleepQuiet(Drop(Park(k, EvQ(v), EventWait, c), s));
  }

  lemma DropSame(k: Sched, s: nat)
    requires Domain(k) && s in k.value
    ensures
      var k' := Drop(k, s);
      k'.cur == k.cur && k'.cont == k.cont && k'.value.Keys == k.value.Keys
  {
  }

  lemma {:induction false} SignalSame(k: Sched, e: nat, max: nat)
    requires EvQ(e) in k.queues && RunQ in k.queues
    ensures
      var k' := Signal(k, e, max);
      k'.cur == k.cur && k'.cont == k.cont && k'.value == k.value && k'.switches == k.switches
    decreases max
  {
    if max != 0 && k.queues[EvQ(e)] != [] { SignalSame(Wake(k, EvQ(e)), e, max - 1); }
  }

  /** The lock dropped once the launcher is awake: the thread that took it goes on, and others may run. */
  lemma RunCore(k: Sched, t: nat)
    requires Core(k) && Runs(k) && k.cont[k.cur] == User && t !in k.place
    ensures
      var k' := Yield(Drop(Signal(Offer(k, t), NEWQ_EVENT, 1), NEWQ_SEMA), User);
      Core(k') && Driven(k')
  {
    var k1 := Offer(k, t);
    OfferKeeps(k, t);
    SignalKeeps(k1, NEWQ_EVENT, 1);
    SignalSame(k1, NEWQ_EVENT, 1);
    var k2 := Signal(k1, NEWQ_EVENT, 1);
    DropKeeps(k2, NEWQ_SEMA);
    DropSame(k2, NEWQ_SEMA);
    assert t != k.cur;
    TopmostIsLauncher(k);
    YieldKeeps(Drop(k2, NEWQ_SEMA), User);
  }

  lemma RunLauncher(k: Sched, t: nat)
    requires Struct(k) && Conts(k) && k.cont[k.cur] == User && t !in k.place && k.value[NEWQ_SEMA] == 0
    requires k.queues[SemQ(NEWQ_SEMA)] == [] && k.cont[TOPMOST] != Launching
    ensures
      var k' := Yield(Drop(Signal(Offer(k, t), NEWQ_EVENT, 1), NEWQ_SEMA), User);
      Wired(k') && (Domain(k') ==> LauncherOk(k'))
  {
    TopmostIsLauncher(k);
    OfferWakes(k, t);
    YieldQuiet(Drop(Signal(Offer(k, t), NEWQ_EVENT, 1), NEWQ_SEMA), User);
  }

  /** The launcher's lock is free whenever a thread is about to take it, so dthr_thread_run never blocks. */
  lemma LockIsFree(k: Sched)
    requires Inv(k) && !k.halted && k.cont[k.cur].Taking? && k.cont[k.cur].sema == NEWQ_SEMA
    ensures k.value[NEWQ_SEMA] == 1
  {
    assert ContFits(TOPMOST, k.place[TOPMOST], k.cont[TOPMOST]);
  }

  lemma TestCore(k: Sched)
    requires Inv(k) && !k.halted && k.cont[k.cur].Taking?
    ensures
      var k' := TestAgain(k, k.cont[k.cur].sema, k.cont[k.cur].after);
      Core(k') && Driven(k')
  {
    var s, after := k.cont[k.cur].sema, k.cont[k.cur].after;
    assert ContFits(k.cur, Current, k.cont[k.cur]);
    if k.value[s] == 0 {
      if s == NEWQ_SEMA { LockIsFree(k); }
      ParkKeeps(k, SemQ(s), SemaWait, Taking(s, true, after));
      SleepKeeps(Park(k, SemQ(s), SemaWait, Taking(s, true, after)));
    } else if after.ToRun? {
      TakenKeeps(k, s, User);
      RunCore(Goto(Take(k, s), User), after.t);
    } else {
      TakenKeeps(k, s, if after.ToUser? then User else Launching);
    }
  }

  lemma TestLauncher(k: Sched)
    requires Inv(k) && !k.halted && k.cont[k.cur].Taking?
    ensures
      var k' := TestAgain(k, k.cont[k.cur].sema, k.cont[k.cur].after);
      Wired(k') && (Domain(k') ==> LauncherOk(k'))
  {
    var s, after := k.cont[k.cur].sema, k.cont[k.cur].after;
    assert ContFits(k.cur, Current, k.cont[k.cur]);
    if s == NEWQ_SEMA { LockIsFree(k); }
    if k.value[s] == 0 {
      ParkQuiet(k, SemQ(s), SemaWait, Taking(s, true, after));
      SleepQuiet(Park(k, SemQ(s), SemaWait, Taking(s, true, after)));
    } else if after.ToRun? {
      TakenConts(k, s, User);
      RunLauncher(Goto(Take(k, s), User), after.t);
    }
  }

  lemma LaunchCore(k: Sched, freeStack: bool)
    requires Inv(k) && !k.halted && k.cont[k.cur] == Launching
    ensures k.cur == TOPMOST && Core(Launch(k, freeStack)) && Driven(Launch(k, freeStack))
  {
    assert ContFits(k.cur, Current, k.cont[k.cur]);
    if k.queues[NewQ] == [] {
      WaitCore(k, NEWQ_EVENT, NEWQ_SEMA, Taking(NEWQ_SEMA, false, ToLaunch));
    } else if freeStack {
      WakeKeeps(k, NewQ);
    } else {
      GrowKeeps(k);
    }
  }

  lemma LaunchLauncher(k: Sched, freeStack: bool)
    requires Domain(k) && LauncherOk(k) && k.cur == TOPMOST && k.cont[k.cur] == Launching && k.place[k.cur] == Current
    ensures Wired(Launch(k, freeStack)) && (Domain(Launch(k, freeStack)) ==> LauncherOk(Launch(k, freeStack)))
  {
    if k.queues[NewQ] != [] && !freeStack {
      GrowIsWake(k);
    }
  }

  lemma NextCore(k: Sched, e: Event)
    requires Inv(k) && Allowed(k, e)
    ensures Core(Next(k, e)) && Driven(Next(k, e))
  {
    if !e.Resume? { TopmostIsLauncher(k); }
    match e
    case DoYield => YieldKeeps(k, User);
    case Try(s) => if k.value[s] != 0 { TryKeeps(k, s); }
    case DoTake(s) => YieldKeeps(k, Taking(s, false, ToUser));
    case DoDrop(s) =>
      DropKeeps(k, s);
      DropSame(k, s);
      YieldKeeps(Drop(k, s), User);
    case Wait(v, s) => WaitCore(k, v, s, Taking(s, false, ToUser));
    case DoSignal(v, max, yielding) =>
      SignalKeeps(k, v, max);
      SignalSame(k, v, max);
      if yielding { YieldKeeps(Signal(k, v, max), User); }
    case Run(t) => GotoKeeps(k, Taking(NEWQ_SEMA, false, ToRun(t)));
    case Exit =>
      LeaveKeeps(k);
      SleepKeeps(Leave(k));
    case Resume(freeStack) =>
      if k.cont[k.cur] == Launching { LaunchCore(k, freeStack); } else { TestCore(k); }
  }

  lemma NextLauncher(k: Sched, e: Event)
    requires Inv(k) && Allowed(k, e)
    ensures Wired(Next(k, e)) && (Domain(Next(k, e)) ==> LauncherOk(Next(k, e)))
  {
    if !e.Resume? { TopmostIsLauncher(k); }
    match e
    case DoYield => YieldQuiet(k, User);
    case Try(s) =>
    case DoTake(s) => YieldQuiet(k, Taking(s, false, ToUser));
    case DoDrop(s) =>
      DropQuiet(k, s);
      YieldQuiet(Drop(k, s), User);
    case Wait(v, s) => WaitQuiet(k, v, s, Taking(s, false, ToUser));
    case DoSignal(v, max, yielding) =>
      SignalQuiet(k, v, max);
      SignalSame(k, v, max);
      if yielding { YieldQuiet(Signal(k, v, max), User); }
    case Run(t) =>
    case Exit => SleepQuiet(Leave(k));
    case Resume(freeStack) =>
      if k.cont[k.cur] == Launching {
        assert ContFits(k.cur, Current, k.cont[k.cur]);
        LaunchLauncher(k, freeStack);
      } else {
        TestLauncher(k);
      }
  }

  lemma NextKeeps(k: Sched, e: Event)
    requires Inv(k) && Allowed(k, e)
    ensures Inv(Next(k, e))
  {
    NextCore(k, e);
    NextLauncher(k, e);
  }
}
