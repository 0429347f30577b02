/** The functions of dread.c over the scheduler's own variables, each equal to its step of `Threads`. */
module Schedulers {
  import opened Basics
  import opened Threads
  import opened ThreadQueues
  import opened ThreadRuns

  class Scheduler {
    const queues: Queues
    var cur: nat
    var halted: bool
    var state: map<nat, ThreadState>
    var value: map<nat, int>
    /** Where each thread goes on: its saved context. */
    var cont: map<nat, Cont>
    ghost var place: map<nat, Place>
    ghost var switches: nat

    ghost function State(): Sched
      reads this, queues
    {
      Sched(cur, halted, queues.held, state, cont, value, place, switches)
    }

    /** The current thread has a link, and so has a thread about to be offered. */
    ghost predicate Linked()
      reads this
    {
      cur in queues.links && Offerable(cont, queues.links.Keys)
    }

    ghost predicate Valid()
      reads this, queues, queues.Cells()
    {
      var inv := Inv(State());
      inv && queues.Valid() && Linked()
    }

    /** dthr_init and dthr_thread_multithread: the first thread is offered, and the topmost thread launches. */
    constructor (queues: Queues, units: map<nat, int>, th: nat)
      requires queues.Valid() && Fresh(queues.held, units) && th != TOPMOST && th in queues.links
        && TOPMOST in queues.links
      modifies queues`held, queues.Cells()
      ensures Valid() && this.queues == queues && State() == First(old(queues.held), units, th)
    {
      queues.Enqueue(NewQ, th);
      this.queues := queues;
      cur, halted, switches := TOPMOST, false, 0;
      state := map[TOPMOST := Runnable, th := Runnable];
      value := units[NEWQ_SEMA := 1];
      cont := map[TOPMOST := Taking(NEWQ_SEMA, false, ToLaunch), th := User];
      place := map[TOPMOST := Current, th := Queued(NewQ)];
      new;
      Begun(old(queues.held), units, th);
    }

    lemma Begun(held: map<QueueId, seq<nat>>, units: map<nat, int>, th: nat)
      requires Fresh(held, units) && th != TOPMOST && State() == First(held, units, th)
      requires queues.Valid() && th in queues.links && TOPMOST in queues.links
      ensures Valid()
    {
      FirstOk(held, units, th);
    }

    /** The head of `q`, if there is one, becomes runnable. */
    method WakeOne(q: QueueId) returns (woken: bool)
      requires queues.Valid() && {q, RunQ} <= queues.held.Keys && q != RunQ
      modifies this`state, this`place, queues`held, queues.Cells()
      ensures queues.Valid() && State() == Wake(old(State()), q) && woken == (old(queues.held[q]) != [])
    {
      queues.NotACell(this);
      var waker := queues.Move(q, RunQ);
      if waker.None? { return false; }
      MarkRunnable(waker.value);
      return true;
    }

    method MarkRunnable(t: nat)
      requires queues.Valid()
      modifies this`state, this`place
      ensures queues.Valid() && state == old(state)[t := Runnable] && place == old(place)[t := Queued(RunQ)]
    {
      state := state[t := Runnable];
      place := place[t := Queued(RunQ)];
    }

    /** The current thread joins the tail of `q`, to go on at `c`. */
    method Park(q: QueueId, st: ThreadState, c: Cont)
      requires queues.Valid() && q in queues.held && queues.Free(cur) && cur in queues.links
      modifies this`state, this`place, this`cont, queues`held, queues.Cells()
      ensures queues.Valid() && State() == Threads.Park(old(State()), q, st, c)
    {
      queues.NotACell(this);
      state := state[cur := st];
      cont := cont[cur := c];
      place := place[cur := Queued(q)];
      queues.Enqueue(q, cur);
    }

    /** dthr_thread_sleep */
    method ThreadSleep()
      requires queues.Valid() && RunQ in queues.held
      modifies this`cur, this`halted, this`place, this`switches, queues`held, queues.Cells()
      ensures queues.Valid() && State() == Sleep(old(State())) && (old(cur) in queues.links ==> cur in queues.links)
    {
      queues.NotACell(this);
      var next := queues.Dequeue(RunQ);
      if next.None? {
        halted := true;
        return;
      }
      SwitchTo(next.value, place);
    }

    /** dthr_thread_yield, to go on at `c`: the current thread joins the run queue once its successor has left it. */
    method YieldTo(c: Cont)
      requires queues.Valid() && RunQ in queues.held && queues.Free(cur) && cur in queues.links
      requires cur in state && state[cur] == Runnable
      modifies this`cur, this`cont, this`place, this`switches, queues`held, queues.Cells()
      ensures queues.Valid() && State() == Yield(old(State()), c) && cur in queues.links
    {
      YieldInOrder(State(), c);
      HandOver(c);
    }

    method HandOver(c: Cont)
      requires queues.Valid() && RunQ in queues.held && queues.Free(cur) && cur in queues.links
      modifies this`cur, this`cont, this`place, this`switches, queues`held, queues.Cells()
      ensures queues.Valid() && State() == HandedOver(old(State()), c) && cur in queues.links
    {
      var next := Successor();
      GoOnAt(c);
      if next.Some? { SwitchTo(next.value, place[cur := Queued(RunQ)]); }
    }

    /** The current thread's context is saved. */
    method GoOnAt(c: Cont)
      requires queues.Valid()
      modifies this`cont
      ensures queues.Valid() && State() == Goto(old(State()), c)
    {
      cont := cont[cur := c];
    }

    /** The head of the run queue leaves it and the current thread joins the tail. */
    method Successor() returns (next: Option<nat>)
      requires queues.Valid() && RunQ in queues.held && queues.Free(cur) && cur in queues.links
      modifies queues`held, queues.Cells()
      ensures queues.Valid() && (next.Some? ==> next.value in queues.links)
      ensures old(queues.held[RunQ]) == [] ==> next == None && State() == old(State())
      ensures old(queues.held[RunQ]) != [] ==>
        && next == Some(old(queues.held[RunQ])[0])
        && State() == var k := old(State()); k.(queues := k.queues[RunQ := k.queues[RunQ][1..] + [k.cur]])
    {
      queues.NotACell(this);
      next := queues.Rotate(RunQ, cur);
    }

    /** The part of dthr_csw that another thread sees. */
    method SwitchTo(next: nat, ghost places: map<nat, Place>)
      requires queues.Valid()
      modifies this`cur, this`place, this`switches
      ensures queues.Valid()
        && State() == old(State()).(cur := next, place := places[next := Current], switches := old(switches) + 1)
    {
      cur := next;
      place := places[next := Current];
      switches := switches + 1;
    }

    /** dthr_semaphore_drop_no_yield */
    method SemaphoreDropNoYield(s: nat)
      requires queues.Valid() && s in value && {SemQ(s), RunQ} <= queues.held.Keys
      modifies this`value, this`state, this`place, queues`held, queues.Cells()
      ensures queues.Valid() && State() == Drop(old(State()), s)
    {
      queues.NotACell(this);
      value := value[s := value[s] + 1];
      var _ := WakeOne(SemQ(s));
    }

    /** One turn of the loop of dthr_eventq_to_runq. */
    method WakeWaiter(e: nat, left: nat, ghost goal: Sched) returns (woken: bool)
      requires queues.Valid() && left > 0 && SignalsTo(State(), e, left, goal)
      modifies this`state, this`place, queues`held, queues.Cells()
      ensures queues.Valid() && SignalsTo(State(), e, if woken then left - 1 else 0, goal)
    {
      SignalStep(State(), e, left);
      woken := WakeOne(EvQ(e));
    }

    /** dthr_eventq_to_runq */
    method EventQToRunQ(e: nat, max: nat)
      requires queues.Valid() && {EvQ(e), RunQ} <= queues.held.Keys
      modifies this`state, this`place, queues`held, queues.Cells()
      ensures queues.Valid() && State() == Signal(old(State()), e, max)
    {
      var left: nat := max;
      ghost var goal := Signal(State(), e, max);
      while left > 0
        invariant queues.Valid() && SignalsTo(State(), e, left, goal)
      {
        var woken := WakeWaiter(e, left, goal);
        left := if woken then left - 1 else 0;
      }
    }

    // ----- what the current thread calls -----

    /** dthr_semaphore_try */
    method SemaphoreTry(s: nat) returns (taken: bool)
      requires queues.Valid() && s in value
      modifies this`value
      ensures queues.Valid() && taken == (old(value[s]) != 0)
      ensures State() == if taken then Take(old(State()), s) else old(State())
    {
      if value[s] == 0 { return false; }
      value := value[s := value[s] - 1];
      return true;
    }

    /** dthr_semaphore_drop */
    method SemaphoreDrop(s: nat)
      requires queues.Valid() && s in value && {SemQ(s), RunQ} <= queues.held.Keys
      requires Loose(Drop(State(), s)) && cur in queues.links
      modifies this, queues`held, queues.Cells()
      ensures queues.Valid() && State() == Yield(Drop(old(State()), s), User) && cur in queues.links
    {
      queues.NotACell(this);
      SemaphoreDropNoYield(s);
      YieldTo(User);
    }

    /** dthr_event_wait up to its sleep, to go on at `c` */
    method EventWait(e: nat, lock: nat, c: Cont)
      requires queues.Valid() && lock in value && {EvQ(e), SemQ(lock), RunQ} <= queues.held.Keys
      requires Loose(State()) && cur in queues.links
      modifies this, queues`held, queues.Cells()
      ensures queues.Valid() && State() == Sleep(Drop(Threads.Park(old(State()), EvQ(e), Threads.EventWait, c), lock))
        && cur in queues.links
    {
      Park(EvQ(e), Threads.EventWait, c);
      SemaphoreDropNoYield(lock);
      ThreadSleep();
    }

    /** dthr_event_signal (max 1) and dthr_event_broadcast (max UINT_MAX), and their versions that do not yield */
    method EventSignal(e: nat, max: nat, yielding: bool)
      requires queues.Valid() && {EvQ(e), RunQ} <= queues.held.Keys
      requires Loose(Signal(State(), e, max)) && cur in queues.links
      modifies this, queues`held, queues.Cells()
      ensures queues.Valid() && cur in queues.links
      ensures State() == var k := Signal(old(State()), e, max); if yielding then Yield(k, User) else k
    {
      EventQToRunQ(e, max);
      if yielding { YieldTo(User); }
    }

    /** dthr_thread_exit, once the exit functions have run */
    method ThreadExit()
      requires queues.Valid() && RunQ in queues.held
      modifies this, queues`held, queues.Cells()
      ensures queues.Valid() && State() == Sleep(Leave(old(State())))
        && (old(cur) in queues.links ==> cur in queues.links)
    {
      state := state[cur := Exited];
      place := place[cur := Gone];
      ThreadSleep();
    }

    /** The loop test of dthr_semaphore_take_no_yield: the thread waits without a unit, and takes one otherwise. */
    method TakeOrWait(s: nat, after: Then) returns (taken: bool)
      requires queues.Valid() && s in value && {SemQ(s), RunQ} <= queues.held.Keys && Loose(State())
        && cur in queues.links
      modifies this, queues`held, queues.Cells()
      ensures queues.Valid() && taken == (old(value[s]) != 0) && cur in queues.links
      ensures State() ==
              if taken then Take(old(State()), s)
                else Sleep(Threads.Park(old(State()), SemQ(s), SemaWait, Taking(s, true, after)))
    {
      taken := SemaphoreTry(s);
      if !taken {
        Park(SemQ(s), SemaWait, Taking(s, true, after));
        ThreadSleep();
      }
    }

    method ThreadOffer(t: nat)
      requires queues.Valid() && NewQ in queues.held && t in queues.links && queues.Free(t)
      modifies this`state, this`cont, this`place, queues`held, queues.Cells()
      ensures queues.Valid() && State() == Offer(old(State()), t)
    {
      queues.NotACell(this);
      state := state[t := Runnable];
      cont := cont[t := User];
      place := place[t := Queued(NewQ)];
      queues.Enqueue(NewQ, t);
    }

    /** dthr_thread_run once it holds the launcher's lock */
    method ThreadRunLocked(t: nat)
      requires queues.Valid() && t in queues.links && cur in queues.links && RunReady(State(), t)
      modifies this, queues`held, queues.Cells()
      ensures queues.Valid() && cur in queues.links
      ensures State() == Yield(Drop(Signal(Offer(old(State()), t), NEWQ_EVENT, 1), NEWQ_SEMA), User)
    {
      ThreadOffer(t);
      EventQToRunQ(NEWQ_EVENT, 1);
      SemaphoreDrop(NEWQ_SEMA);
    }

    /** The launcher gives the next new thread a stack of its own: the lock is dropped and will be taken again. */
    method LaunchGrowing()
      requires queues.Valid() && HasLauncher(State()) && queues.held[NewQ] != [] && queues.held[SemQ(NEWQ_SEMA)] == []
      modifies this, queues`held, queues.Cells()
      ensures queues.Valid() && State() == Grow(old(State()))
    {
      var t := TakeNew();
      SemaphoreDropNoYield(NEWQ_SEMA);
      EnterRunQueue(t, Taking(NEWQ_SEMA, false, ToLaunch));
    }

    /** The next new thread leaves its queue. */
    method TakeNew() returns (t: nat)
      requires queues.Valid() && NewQ in queues.held && queues.held[NewQ] != []
      modifies this`state, queues`held, queues.Cells()
      ensures queues.Valid() && t == old(queues.held[NewQ])[0] && t in queues.links && queues.Free(t)
      ensures State() == var k := old(State());
        k.(queues := k.queues[NewQ := k.queues[NewQ][1..]], state := k.state[t := Runnable])
    {
      queues.NotACell(this);
      var head := queues.Dequeue(NewQ);
      t := head.value;
      state := state[t := Runnable];
    }

    /** The end of dthr_new_topmost_thread: the new thread is runnable and the launcher starts again. */
    method EnterRunQueue(t: nat, c: Cont)
      requires queues.Valid() && RunQ in queues.held && t in queues.links && queues.Free(t)
      modifies this`cont, this`place, queues`held, queues.Cells()
      ensures queues.Valid()
      ensures State() == var k := old(State());
        Goto(k.(queues := k.queues[RunQ := k.queues[RunQ] + [t]], place := k.place[t := Queued(RunQ)]), c)
    {
      queues.NotACell(this);
      cont := cont[cur := c];
      place := place[t := Queued(RunQ)];
      queues.Enqueue(RunQ, t);
    }

    /** The launcher: the next new thread gets a stack, or the launcher waits for one. */
    method ThreadLauncher(freeStack: bool)
      requires queues.Valid() && HasLauncher(State()) && cur in queues.links && Loose(State())
      requires queues.held[SemQ(NEWQ_SEMA)] == []
      modifies this, queues`held, queues.Cells()
      ensures queues.Valid() && State() == Launch(old(State()), freeStack) && cur in queues.links
    {
      var none := queues.Empty(NewQ);
      if none {
        EventWait(NEWQ_EVENT, NEWQ_SEMA, Taking(NEWQ_SEMA, false, ToLaunch));
      } else if freeStack {
        var _ := WakeOne(NewQ);
      } else {
        LaunchGrowing();
      }
    }

    /** What a call does from the loop test of dthr_semaphore_take_no_yield on. */
    method ResumeTaking(s: nat, after: Then)
      requires queues.Valid() && HasLauncher(State()) && s in value && SemQ(s) in queues.held && cur in queues.links
        && Loose(State())
      requires after.ToRun? ==> after.t in queues.links
      requires after.ToRun? && value[s] != 0 ==> RunReady(Goto(Take(State(), s), User), after.t)
      modifies this, queues`held, queues.Cells()
      ensures queues.Valid() && State() == TestAgain(old(State()), s, after) && cur in queues.links
    {
      var taken := TakeOrWait(s, after);
      if taken {
        GoOnAt(if after.ToLaunch? then Launching else User);
        if after.ToRun? { ThreadRunLocked(after.t); }
      }
    }

    /** Whatever the current thread calls is its step of the model. */
    method Call(e: Event)
      requires queues.Valid() && Domain(State()) && Resumable(State()) && Allowed(State(), e) && Prepared(State(), e)
      requires cur in queues.links && Offerable(cont, queues.links.Keys) && (e.Run? ==> e.t in queues.links)
      modifies this, queues`held, queues.Cells()
      ensures queues.Valid() && State() == Next(old(State()), e) && cur in queues.links
    {
      match e
      case DoYield => YieldTo(User);
      case Try(s) => var _ := SemaphoreTry(s);
      case DoTake(s) => YieldTo(Taking(s, false, ToUser));
      case DoDrop(s) => SemaphoreDrop(s);
      case Wait(v, s) => EventWait(v, s, Taking(s, false, ToUser));
      case DoSignal(v, max, yielding) => EventSignal(v, max, yielding);
      case Run(t) => GoOnAt(Taking(NEWQ_SEMA, false, ToRun(t)));
      case Exit => ThreadExit();
      case Resume(freeStack) =>
        if cont[cur] == Launching { ThreadLauncher(freeStack); } else { ResumeTaking(cont[cur].sema, cont[cur].after); }
    }

    /** Every call keeps the object valid. */
    method Serve(e: Event)
      requires Valid() && Allowed(State(), e) && (e.Run? ==> e.t in queues.links)
      modifies this, queues`held, queues.Cells()
      ensures Valid() && State() == Next(old(State()), e)
    {
      NextOffers(State(), e, queues.links.Keys);
      Prepares(State(), e);
      NextKeeps(State(), e);
      Call(e);
    }
  }

  /** What the pieces of the step `e` rely on. */
  ghost predicate Prepared(k: Sched, e: Event)
    requires Domain(k) && Resumable(k) && Allowed(k, e)
  {
    Loose(k) &&
    match e
    case DoDrop(s) => Loose(Drop(k, s))
    case DoSignal(v, max, _) => Loose(Signal(k, v, max))
    case Resume(_) =>
      var c := k.cont[k.cur];
      if c.Taking? then c.after.ToRun? && k.value[c.sema] != 0 ==> RunReady(Goto(Take(k, c.sema), User), c.after.t)
      else k.queues[SemQ(NEWQ_SEMA)] == []
    case _ => true
  }

  lemma AtLiberty(k: Sched)
    requires Struct(k) && Runs(k)
    ensures Loose(k)
  {
  }

  /** A thread about to be offered is among `links`. */
  ghost predicate Offerable(cont: map<nat, Cont>, links: set<nat>)
  {
    forall t :: t in cont && cont[t].Taking? && cont[t].after.ToRun? ==> cont[t].after.t in links
  }

  lemma NextOffers(k: Sched, e: Event, links: set<nat>)
    requires Domain(k) && Resumable(k) && Allowed(k, e) && Offerable(k.cont, links) && (e.Run? ==> e.t in links)
    ensures Offerable(Next(k, e).cont, links)
  {
    match e
    case DoSignal(v, max, _) => SignalSame(k, v, max);
    case Resume(freeStack) =>
      var c := k.cont[k.cur];
      if c.Taking? { TestOffers(k, c.sema, c.after, links); } else { LaunchOffers(k, freeStack, links); }
    case _ =>
  }

  lemma LaunchOffers(k: Sched, freeStack: bool, links: set<nat>)
    requires HasLauncher(k) && Offerable(k.cont, links)
    ensures Offerable(Launch(k, freeStack).cont, links)
  {
  }

  lemma TestOffers(k: Sched, s: nat, after: Then, links: set<nat>)
    requires HasLauncher(k) && s in k.value && SemQ(s) in k.queues && Offerable(k.cont, links)
    requires after.ToRun? ==> after.t in links
    ensures Offerable(TestAgain(k, s, after).cont, links)
  {
    if after.ToRun? && k.value[s] != 0 {
      var k' := Goto(Take(k, s), User);
      RunConts(k', after.t, Signal(Offer(k', after.t), NEWQ_EVENT, 1));
    }
  }

  lemma RunConts(k: Sched, t: nat, k': Sched)
    requires HasLauncher(k) && k' == Signal(Offer(k, t), NEWQ_EVENT, 1)
    ensures NEWQ_SEMA in k'.value && Yield(Drop(k', NEWQ_SEMA), User).cont == k.cont[t := User][k.cur := User]
  {
    SignalSame(Offer(k, t), NEWQ_EVENT, 1);
  }

  lemma RunPrepares(k: Sched, t: nat)
    requires Core(k) && Runs(k) && k.cont[k.cur] == User && t !in k.place
    ensures RunReady(k, t)
  {
    OfferKeeps(k, t);
    SignalPrepares(Offer(k, t), 1);
    NotPlaced(k, t);
  }

  lemma NotPlaced(k: Sched, t: nat)
    requires Placed(k) && t !in k.place
    ensures forall q :: q in k.queues ==> t !in k.queues[q]
  {
  }

  lemma SignalPrepares(k: Sched, max: nat)
    requires Core(k) && Runs(k)
    ensures
      var k' := Signal(k, NEWQ_EVENT, max);
      k'.value == k.value && k'.cur == k.cur && NEWQ_SEMA in k'.value && Loose(Drop(k', NEWQ_SEMA))
  {
    SignalSame(k, NEWQ_EVENT, max);
    SignalKeeps(k, NEWQ_EVENT, max);
    DropPrepares(Signal(k, NEWQ_EVENT, max));
  }

  lemma DropPrepares(k: Sched)
    requires Core(k) && Runs(k)
    ensures Loose(Drop(k, NEWQ_SEMA))
  {
    DropKeeps(k, NEWQ_SEMA);
    AtLiberty(Drop(k, NEWQ_SEMA));
  }

  lemma Prepares(k: Sched, e: Event)
    requires Inv(k) && Allowed(k, e)
    ensures Prepared(k, e)
  {
    AtLiberty(k);
    match e
    case DoDrop(s) =>
      DropKeeps(k, s);
      AtLiberty(Drop(k, s));
    case DoSignal(v, max, _) =>
      SignalKeeps(k, v, max);
      AtLiberty(Signal(k, v, max));
    case Resume(_) =>
      var c := k.cont[k.cur];
      assert ContFits(k.cur, Current, c);
      if c.Taking? && c.after.ToRun? && k.value[c.sema] != 0 {
        TakenKeeps(k, c.sema, User);
        RunPrepares(Goto(Take(k, c.sema), User), c.after.t);
      }
    case _ =>
  }

  /** A new thread may be offered by the current one. */
  ghost predicate RunReady(k: Sched, t: nat)
  {
    && HasLauncher(k) && (forall q :: q in k.queues ==> t !in k.queues[q])
    && var k' := Signal(Offer(k, t), NEWQ_EVENT, 1);
    && k'.value == k.value && k'.cur == k.cur && Loose(Drop(k', NEWQ_SEMA))
  }

  /** The current thread is runnable and in no queue. */
  ghost predicate Loose(k: Sched)
  {
    RunQ in k.queues && k.cur in k.state && k.state[k.cur] == Runnable
      && forall q :: q in k.queues ==> k.cur !in k.queues[q]
  }

  /** Signalling `left` more threads ends at `goal`. */
  ghost predicate SignalsTo(k: Sched, e: nat, left: nat, goal: Sched)
  {
    EvQ(e) in k.queues && RunQ in k.queues && Signal(k, e, left) == goal
  }

  /** Every queue of the semaphores and events is there and empty, and no semaphore owes units. */
  ghost predicate Fresh(held: map<QueueId, seq<nat>>, units: map<nat, int>)
  {
    && {RunQ, NewQ, EvQ(NEWQ_EVENT)} <= held.Keys && (forall q :: q in held ==> held[q] == [])
    && (forall s :: SemQ(s) in held <==> s in units || s == NEWQ_SEMA)
    && (forall s :: s in units ==> units[s] >= 0)
  }

  /** The first state. */
  function First(held: map<QueueId, seq<nat>>, units: map<nat, int>, th: nat): Sched
    requires NewQ in held
  {
    Sched(TOPMOST, false, held[NewQ := held[NewQ] + [th]], map[TOPMOST := Runnable, th := Runnable],
      map[TOPMOST := Taking(NEWQ_SEMA, false, ToLaunch), th := User], units[NEWQ_SEMA := 1],
      map[TOPMOST := Current, th := Queued(NewQ)], 0)
  }

  lemma FirstOk(held: map<QueueId, seq<nat>>, units: map<nat, int>, th: nat)
    requires Fresh(held, units) && th != TOPMOST
    ensures StartOk(First(held, units, th)) && Inv(First(held, units, th)) && Offerable(First(held, units, th).cont, {})
  {
    assert held[NewQ] + [th] == [th];
    assert StartOk(First(held, units, th));
    StartKeeps(First(held, units, th));
  }

  /** The current thread hands over to the head of the run queue, if there is one, and joins the tail behind it. */
  function HandedOver(k: Sched, c: Cont): Sched
    requires RunQ in k.queues
  {
    if k.queues[RunQ] == [] then Goto(k, c)
    else
      k.(queues := k.queues[RunQ := k.queues[RunQ][1..] + [k.cur]], cont := k.cont[k.cur := c],
        cur := k.queues[RunQ][0],
         place := k.place[k.cur := Queued(RunQ)][k.queues[RunQ][0] := Current], switches := k.switches + 1)
  }

  /** Leaving the run queue to the successor first gives the same order as joining it first. */
  lemma YieldInOrder(k: Sched, c: Cont)
    requires RunQ in k.queues && k.cur in k.state && k.state[k.cur] == Runnable
    ensures Yield(k, c) == HandedOver(k, c)
  {
    if k.queues[RunQ] != [] {
      var rest := k.queues[RunQ][1..];
      assert (k.queues[RunQ] + [k.cur])[1..] == rest + [k.cur];
      assert k.queues[RunQ := k.queues[RunQ] + [k.cur]][RunQ := rest + [k.cur]] == k.queues[RunQ := rest + [k.cur]];
      assert k.state[k.cur := Runnable] == k.state;
    }
  }

  lemma SignalStep(k: Sched, e: nat, max: nat)
    requires {EvQ(e), RunQ} <= k.queues.Keys && max > 0
    ensures Signal(k, e, max) == if k.queues[EvQ(e)] == [] then k else Signal(Wake(k, EvQ(e)), e, max - 1)
  {
  }
}
