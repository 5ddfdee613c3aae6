/** The database task queue (`DatabaseTasks`): one worker thread, any number of threads
    adding tasks, and a shutdown, interleaved step by step. */
module DatabaseTasks {
  type Task = nat

  type ThreadId = nat

  datatype ThreadState = THREAD_STATE_RUNNING | THREAD_STATE_CLOSING | THREAD_STATE_TERMINATED

  datatype Holder = Nobody | WorkerHolds | AdderHolds(id: ThreadId) | ShutdownHolds

  /** Where the worker is in `threadMain`. */
  datatype Worker =
    | Head             // about to look at the thread state
    | Locking          // about to lock
    | Looking          // holds the lock, about to look whether the list is empty
    | Asleep           // waiting for the signal, the lock released
    | Relocking        // signalled, about to get the lock back
    | Taking           // holds the lock, about to take the first task, if any
    | Running(task: Task)
    | Finished

  /** Where a thread is in `addTask`. */
  datatype Adder = Wanting(task: Task) | Pushing(task: Task) | Notifying

  /** Where the shutdown is. */
  datatype Shutdown = NotAsked | Asked | Flushing | Signalling | Over

  /** `accepted`, `taken` and `ran` are histories: tasks put into the list, taken out of
      it, and run, each in order. */
  datatype State = State(
    state: ThreadState, lock: Holder, tasks: seq<Task>,
    worker: Worker, adders: map<ThreadId, Adder>, shutdown: Shutdown,
    accepted: seq<Task>, taken: seq<Task>, ran: seq<Task>)

  datatype Event =
    | WorkerStep
    | SpuriousWakeup
    | AddTask(id: ThreadId, task: Task)
    | AdderStep(id: ThreadId)
    | Stop
    | AskShutdown
    | ShutdownStep

  function Started(): State {
    State(THREAD_STATE_RUNNING, Nobody, [], Head, map[], NotAsked, [], [], [])
  }

  // ---- the steps ---------------------------------------------------------------------------

  /** The next step of the worker; a step that has to wait for the lock leaves the state. */
  function WorkerNext(s: State): State {
    match s.worker
    case Head => s.(worker := if s.state == THREAD_STATE_TERMINATED then Finished else Locking)
    case Locking => if s.lock == Nobody then s.(lock := WorkerHolds, worker := Looking) else s
    case Looking => if s.tasks == [] then s.(lock := Nobody, worker := Asleep) else s.(worker := Taking)
    case Asleep => s
    case Relocking => if s.lock == Nobody then s.(lock := WorkerHolds, worker := Taking) else s
    case Taking =>
      if s.tasks == [] then s.(lock := Nobody, worker := Head)
      else s.(lock := Nobody, worker := Running(s.tasks[0]), tasks := s.tasks[1..], taken := s.taken + [s.tasks[0]])
    case Running(task) => s.(worker := Head, ran := s.ran + [task])
    case Finished => s
  }

  /** `notify_one`: the one thread that ever waits wakes up, if it is asleep. */
  function Notify(s: State): State {
    if s.worker == Asleep then s.(worker := Relocking) else s
  }

  function AdderNext(s: State, id: ThreadId): State
    requires id in s.adders
  {
    match s.adders[id]
    case Wanting(task) =>
      if s.lock == Nobody then s.(lock := AdderHolds(id), adders := s.adders[id := Pushing(task)]) else s
    case Pushing(task) =>
      if s.state == THREAD_STATE_RUNNING then
        s.(lock := Nobody, tasks := s.tasks + [task], accepted := s.accepted + [task],
           adders := if s.tasks == [] then s.adders[id := Notifying] else s.adders - {id})
      else s.(lock := Nobody, adders := s.adders - {id})
    case Notifying => Notify(s).(adders := s.adders - {id})
  }

  function ShutdownNext(s: State): State {
    match s.shutdown
    case NotAsked => s
    case Asked =>
      if s.lock == Nobody then s.(lock := ShutdownHolds, shutdown := Flushing, state := THREAD_STATE_TERMINATED) else s
    case Flushing =>
      if s.tasks == [] then s.(lock := Nobody, shutdown := Signalling)
      else s.(ran := s.ran + [s.tasks[0]], taken := s.taken + [s.tasks[0]], tasks := s.tasks[1..])
    case Signalling => Notify(s).(shutdown := Over)
    case Over => s
  }

  function Next(s: State, e: Event): State {
    match e
    case WorkerStep => WorkerNext(s)
    case SpuriousWakeup => Notify(s)
    case AddTask(id, task) => if id in s.adders then s else s.(adders := s.adders[id := Wanting(task)])
    case AdderStep(id) => if id in s.adders then AdderNext(s, id) else s
    case Stop => s.(state := THREAD_STATE_CLOSING)
    case AskShutdown => if s.shutdown == NotAsked then s.(shutdown := Asked) else s
    case ShutdownStep => ShutdownNext(s)
  }

  function Run(events: seq<Event>): State {
    if events == [] then Started() else Next(Run(events[..|events| - 1]), events[|events| - 1])
  }

  function RunFrom(s: State, events: seq<Event>): State
    decreases |events|
  {
    if events == [] then s else RunFrom(Next(s, events[0]), events[1..])
  }

  // ---- what every step keeps -------------------------------------------------------------------

  /** The lock is held by whoever is inside a locked region, so by one thread at most. */
  predicate Exclusive(s: State) {
    && (s.worker.Looking? || s.worker.Taking? <==> s.lock == WorkerHolds)
    && (forall id :: id in s.adders && s.adders[id].Pushing? ==> s.lock == AdderHolds(id))
    && (s.lock.AdderHolds? ==> s.lock.id in s.adders && s.adders[s.lock.id].Pushing?)
    && (s.shutdown == Flushing <==> s.lock == ShutdownHolds)
  }

  /** First in, first out, nothing lost and nothing twice: what was accepted is what was
      taken followed by what is queued, and what was taken has been run or is running. */
  predicate Conserved(s: State) {
    && s.accepted == s.taken + s.tasks
    && multiset(s.taken) == multiset(s.ran) + (if s.worker.Running? then multiset{s.worker.task} else multiset{})
  }

  /** Some thread has announced a task and not yet given the signal. */
  predicate SignalPending(s: State) {
    exists id :: id in s.adders && s.adders[id] == Notifying
  }

  predicate BeforeShutdown(s: State) { s.shutdown == NotAsked || s.shutdown == Asked }

  /** The worker does not sleep through a task. */
  predicate NoLostWakeup(s: State) {
    s.worker == Asleep && s.tasks != [] && BeforeShutdown(s) ==> SignalPending(s)
  }

  /** The shutdown has released the lock. */
  predicate Flushed(s: State) {
    s.shutdown == Signalling || s.shutdown == Over
  }

  /** After a shutdown the list is empty for good. */
  predicate Drained(s: State) {
    && (!BeforeShutdown(s) ==> s.state != THREAD_STATE_RUNNING)
    && (Flushed(s) ==> s.tasks == [])
  }

  predicate Good(s: State) {
    Exclusive(s) && Conserved(s) && NoLostWakeup(s) && Drained(s)
  }

  lemma WorkerExclusive(s: State)
    requires Exclusive(s)
    ensures Exclusive(WorkerNext(s))
  {
    assert WorkerNext(s).adders == s.adders && WorkerNext(s).shutdown == s.shutdown;
  }

  lemma WorkerConserves(s: State)
    requires Conserved(s)
    ensures Conserved(WorkerNext(s))
  {
    match s.worker
    case Taking => if s.tasks != [] { TakeConserves(s); }
    case Running(task) => RunConserves(s);
    case _ =>
  }

  lemma TakeConserves(s: State)
    requires Conserved(s) && s.worker == Taking && s.tasks != []
    ensures Conserved(WorkerNext(s))
  {
    assert s.tasks == [s.tasks[0]] + s.tasks[1..];
  }

  lemma RunConserves(s: State)
    requires Conserved(s) && s.worker.Running?
    ensures Conserved(WorkerNext(s))
  {
  }

  lemma WorkerKeeps(s: State)
    requires Good(s)
    ensures Good(WorkerNext(s))
  {
    WorkerExclusive(s);
    WorkerConserves(s);
  }

  lemma NotifyKeeps(s: State)
    requires Good(s)
    ensures Good(Notify(s)) && Notify(s).worker != Asleep
  {
  }

  lemma AdderKeeps(s: State, id: ThreadId)
    requires Good(s) && id in s.adders
    ensures Good(AdderNext(s, id))
  {
    var s' := AdderNext(s, id);
    match s.adders[id]
    case Wanting(task) =>
      if SignalPending(s) {
        var n :| n in s.adders && s.adders[n] == Notifying;
        assert s'.adders[n] == Notifying;
      }
    case Pushing(task) =>
      if s.tasks == [] && s.state == THREAD_STATE_RUNNING {
        assert s'.adders[id] == Notifying;
      } else if SignalPending(s) {
        var n :| n in s.adders && s.adders[n] == Notifying;
        assert n in s'.adders && s'.adders[n] == Notifying;
      }
    case Notifying =>
      assert s'.worker != Asleep;
  }

  lemma ShutdownConserves(s: State)
    requires Conserved(s)
    ensures Conserved(ShutdownNext(s))
  {
    if s.shutdown == Flushing && s.tasks != [] {
      assert s.tasks == [s.tasks[0]] + s.tasks[1..];
    }
  }

  lemma ShutdownExclusive(s: State)
    requires Exclusive(s)
    ensures Exclusive(ShutdownNext(s))
  {
  }

  lemma ShutdownKeeps(s: State)
    requires Good(s)
    ensures Good(ShutdownNext(s))
  {
    ShutdownConserves(s);
    ShutdownExclusive(s);
  }

  lemma NextKeeps(s: State, e: Event)
    requires Good(s)
    ensures Good(Next(s, e))
  {
    match e
    case WorkerStep => WorkerKeeps(s);
    case SpuriousWakeup => NotifyKeeps(s);
    case AddTask(id, task) =>
      if id !in s.adders && SignalPending(s) {
        var n :| n in s.adders && s.adders[n] == Notifying;
        assert Next(s, e).adders[n] == Notifying;
      }
    case AdderStep(id) => if id in s.adders { AdderKeeps(s, id); }
    case Stop =>
    case AskShutdown =>
    case ShutdownStep => ShutdownKeeps(s);
  }

  /** Under every interleaving. */
  lemma {:induction false} AlwaysGood(events: seq<Event>)
    ensures Good(Run(events))
    decreases |events|
  {
    if events != [] {
      AlwaysGood(events[..|events| - 1]);
      NextKeeps(Run(events[..|events| - 1]), events[|events| - 1]);
    }
  }

  /** Under every interleaving, the tasks accepted are, in order, those taken and those
      still queued, and each taken task has been run once or is the one running. */
  lemma EachTaskOnce(events: seq<Event>)
    ensures var s := Run(events);
      && s.accepted == s.taken + s.tasks
      && multiset(s.accepted) == multiset(s.ran) +
         (if s.worker.Running? then multiset{s.worker.task} else multiset{}) + multiset(s.tasks)
  {
    AlwaysGood(events);
  }

  /** Once the shutdown has released the lock, every accepted task has been taken, and none
      is accepted later. */
  lemma {:induction false} NothingLeft(events: seq<Event>, more: seq<Event>)
    requires Flushed(Run(events))
    ensures Run(events).accepted == Run(events).taken
    ensures Run(events + more).accepted == Run(events).accepted && Flushed(Run(events + more))
  {
    AlwaysGood(events);
    RunSplits(events, more);
    AcceptsNoMore(Run(events), more);
  }

  lemma {:induction false} AcceptsNoMore(s: State, more: seq<Event>)
    requires Good(s) && Flushed(s)
    ensures RunFrom(s, more).accepted == s.accepted && Flushed(RunFrom(s, more))
    decreases |more|
  {
    if more != [] {
      NextKeeps(s, more[0]);
      AcceptsNone(s, more[0]);
      AcceptsNoMore(Next(s, more[0]), more[1..]);
    }
  }

  /** A run is its first part, and the rest from there. */
  lemma {:induction false} RunSplits(events: seq<Event>, more: seq<Event>)
    ensures Run(events + more) == RunFrom(Run(events), more)
    decreases |more|
  {
    if more == [] {
      assert events + more == events;
    } else {
      RunLast(events, more[0]);
      RunSplits(events + [more[0]], more[1..]);
      assert events + more == events + [more[0]] + more[1..];
    }
  }

  lemma {:induction false} RunLast(events: seq<Event>, e: Event)
    ensures Run(events + [e]) == Next(Run(events), e)
  {
    assert (events + [e])[..|events|] == events;
  }

  lemma AcceptsNone(s: State, e: Event)
    requires Good(s) && !BeforeShutdown(s)
    ensures Next(s, e).accepted == s.accepted
    ensures Flushed(s) ==> Flushed(Next(s, e))
  {
  }

  // ---- what is accepted, and that it can be run ----------------------------------------------------

  /** The tasks that threads holding the lock brought while the state was running, in order. */
  function Brought(events: seq<Event>): seq<Task> {
    if events == [] then []
    else
      var before, e := events[..|events| - 1], events[|events| - 1];
      var s := Run(before);
      Brought(before) +
        if e.AdderStep? && e.id in s.adders && s.adders[e.id].Pushing? && s.state == THREAD_STATE_RUNNING
        then [s.adders[e.id].task] else []
  }

  /** Under every interleaving exactly those are accepted. */
  lemma {:induction false} AcceptedExactly(events: seq<Event>)
    ensures Run(events).accepted == Brought(events)
    decreases |events|
  {
    if events != [] { AcceptedExactly(events[..|events| - 1]); }
  }

  /** Until the shutdown takes the lock, the worker goes on. */
  predicate Ongoing(s: State) {
    BeforeShutdown(s) ==> s.state != THREAD_STATE_TERMINATED && s.worker != Finished
  }

  lemma {:induction false} AlwaysOngoing(events: seq<Event>)
    ensures Ongoing(Run(events))
    decreases |events|
  {
    if events != [] {
      AlwaysOngoing(events[..|events| - 1]);
      var s := Run(events[..|events| - 1]);
      if BeforeShutdown(Next(s, events[|events| - 1])) { assert BeforeShutdown(s); }
    }
  }

  /** Good, before the shutdown takes the lock. */
  predicate Working(s: State) {
    Good(s) && BeforeShutdown(s) && s.state != THREAD_STATE_TERMINATED && s.worker != Finished
  }

  /** How far the worker is from taking its next task. */
  function Stage(s: State): nat {
    (match s.worker
     case Running(_) => 12
     case Asleep => 10
     case Head => 8
     case Locking => 6
     case Looking => 4
     case Relocking => 4
     case Taking => 2
     case Finished => 0) + if s.lock.AdderHolds? then 1 else 0
  }

  function Ahead(s: State): nat {
    |s.tasks| + if s.lock.AdderHolds? then 1 else 0
  }

  predicate Nearer(s: State, s': State) {
    && s'.state == s.state && s'.shutdown == s.shutdown && s.accepted <= s'.accepted
    && (Ahead(s') < Ahead(s) || (Ahead(s') == Ahead(s) && Stage(s') < Stage(s)))
  }

  /** One step nearer to an empty list: a step of the worker, or of a thread it waits for. */
  lemma {:induction false} DrainStep(s: State) returns (e: Event)
    requires Working(s) && (s.tasks != [] || s.worker.Running?)
    ensures Nearer(s, Next(s, e)) && Working(Next(s, e))
  {
    if (s.worker == Locking || s.worker == Relocking) && s.lock.AdderHolds? {
      e := AdderStep(s.lock.id);
      AdderNearer(s, s.lock.id);
    } else if s.worker == Asleep {
      var n :| n in s.adders && s.adders[n] == Notifying;
      e := AdderStep(n);
      AdderNearer(s, n);
    } else {
      e := WorkerStep;
      WorkerNearer(s);
    }
    NextKeeps(s, e);
  }

  lemma {:induction false} AdderNearer(s: State, id: ThreadId)
    requires Working(s) && id in s.adders
    requires s.adders[id].Pushing? || (s.adders[id] == Notifying && s.worker == Asleep)
    ensures Nearer(s, AdderNext(s, id)) && AdderNext(s, id).worker != Finished
  {
    assert s.adders[id].Pushing? ==> s.lock == AdderHolds(id);
  }

  lemma {:induction false} WorkerNearer(s: State)
    requires Working(s) && (s.tasks != [] || s.worker.Running?) && s.worker != Asleep
    requires (s.worker == Locking || s.worker == Relocking) ==> !s.lock.AdderHolds?
    ensures Nearer(s, WorkerNext(s)) && WorkerNext(s).worker != Finished
  {
  }

  /** From every such state the worker can run all that is queued. */
  lemma {:induction false} Drains(s: State) returns (more: seq<Event>)
    requires Working(s)
    ensures var s' := RunFrom(s, more);
      && s'.tasks == [] && !s'.worker.Running? && Good(s') && s'.state == s.state && s.accepted <= s'.accepted
    decreases Ahead(s), Stage(s)
  {
    if s.tasks == [] && !s.worker.Running? {
      more := [];
    } else {
      var e := DrainStep(s);
      var rest := Drains(Next(s, e));
      more := [e] + rest;
      assert more[1..] == rest;
    }
  }

  /** The lock can be had: whoever holds it leaves, and no other thread's wish is touched. */
  lemma {:induction false} LockFrees(s: State, id: ThreadId) returns (more: seq<Event>)
    requires Working(s) && id in s.adders && s.adders[id].Wanting?
    ensures var s' := RunFrom(s, more);
      && Working(s') && s'.lock == Nobody && s'.state == s.state && s.accepted <= s'.accepted
      && id in s'.adders && s'.adders[id] == s.adders[id]
    decreases if s.lock == Nobody then 0 else Stage(s)
  {
    if s.lock == Nobody {
      more := [];
    } else {
      var e := if s.lock.AdderHolds? then AdderStep(s.lock.id) else WorkerStep;
      NextKeeps(s, e);
      var rest := LockFrees(Next(s, e), id);
      more := [e] + rest;
      assert more[1..] == rest;
    }
  }

  /** A thread inside the locked region, the state running: its task goes to the end. */
  lemma {:induction false} PushQueues(s: State, id: ThreadId)
    requires Working(s) && id in s.adders && s.adders[id].Pushing? && s.state == THREAD_STATE_RUNNING
    ensures var s' := Next(s, AdderStep(id));
      && Working(s') && s'.state == s.state
      && s'.tasks == s.tasks + [s.adders[id].task] && s'.accepted == s.accepted + [s.adders[id].task]
  {
    NextKeeps(s, AdderStep(id));
  }

  /** Under every interleaving, as long as the state is running: any task any thread brings can
      still be accepted and run, along with all that is queued before it. */
  lemma {:induction false} CanBeRun(events: seq<Event>, id: ThreadId) returns (more: seq<Event>)
    requires var s := Run(events);
      s.state == THREAD_STATE_RUNNING && id in s.adders && s.adders[id].Wanting?
    ensures var s, s' := Run(events), Run(events + more);
      && s'.tasks == [] && multiset(s'.ran) == multiset(s'.accepted) && s'.state == s.state
      && s.accepted <= s'.accepted && s.adders[id].task in s'.accepted[|s.accepted|..]
  {
    var s := Run(events);
    AlwaysGood(events);
    AlwaysOngoing(events);
    var free := LockFrees(s, id);
    var s1 := RunFrom(s, free);
    var s2 := Next(s1, AdderStep(id));
    NextKeeps(s1, AdderStep(id));
    PushQueues(s2, id);
    var s3 := Next(s2, AdderStep(id));
    var rest := Drains(s3);
    var s4 := RunFrom(s3, rest);
    more := free + ([AdderStep(id), AdderStep(id)] + rest);
    RunOn(s, free, [AdderStep(id), AdderStep(id)] + rest);
    TwoSteps(s1, AdderStep(id), AdderStep(id), rest);
    RunSplits(events, more);
    assert s3.accepted[|s1.accepted|] == s.adders[id].task;
    assert s4.accepted[|s.accepted|..][|s1.accepted| - |s.accepted|] == s4.accepted[|s1.accepted|];
  }

  lemma {:induction false} TwoSteps(s: State, a: Event, b: Event, rest: seq<Event>)
    ensures RunFrom(s, [a, b] + rest) == RunFrom(Next(Next(s, a), b), rest)
  {
    var all := [a, b] + rest;
    assert all[1..] == [b] + rest && all[1..][1..] == rest;
  }

  // ---- when the shutdown's signal is lost ---------------------------------------------------------

  /** No thread wakes without a signal, and nobody stops the holder of the threads again. */
  predicate Plain(events: seq<Event>) {
    forall k :: 0 <= k < |events| ==> events[k] != SpuriousWakeup && events[k] != Stop
  }

  /** The worker sleeps after the shutdown is over, and no signal is on its way. */
  predicate Stuck(s: State) {
    s.shutdown == Over && s.state != THREAD_STATE_RUNNING && s.worker == Asleep && !SignalPending(s)
  }

  /** Nothing but a wakeup without a signal ends that sleep. */
  lemma {:induction false} StuckForever(s: State, events: seq<Event>)
    requires Stuck(s) && forall k :: 0 <= k < |events| ==> events[k] != SpuriousWakeup
    ensures Stuck(RunFrom(s, events))
    decreases |events|
  {
    if events != [] {
      var s' := Next(s, events[0]);
      forall id | id in s'.adders ensures s'.adders[id] != Notifying {
        assert id in s.adders ==> s.adders[id] != Notifying;
      }
      StuckForever(s', events[1..]);
    }
  }

  /** The worker can only fall asleep for good from here if it has passed the test of the
      thread state, and has not yet begun to wait. */
  predicate Awake(s: State) {
    && s.state == THREAD_STATE_TERMINATED && s.tasks == [] && Flushed(s)
    && s.worker != Locking && s.worker != Looking && (s.worker == Asleep ==> s.shutdown == Signalling)
  }

  lemma {:induction false} StaysAwake(s: State, events: seq<Event>)
    requires Awake(s) && Plain(events)
    ensures Awake(RunFrom(s, events))
    decreases |events|
  {
    if events != [] {
      assert Awake(Next(s, events[0]));
      StaysAwake(Next(s, events[0]), events[1..]);
    }
  }

  lemma {:induction false} RunOn(s: State, a: seq<Event>, b: seq<Event>)
    ensures RunFrom(s, a + b) == RunFrom(RunFrom(s, a), b)
    decreases |a|
  {
    if a == [] {
      assert a + b == b;
    } else {
      assert (a + b)[0] == a[0] && (a + b)[1..] == a[1..] + b;
      RunOn(Next(s, a[0]), a[1..], b);
    }
  }

  function Signallers(s: State): set<ThreadId> {
    set id | id in s.adders && s.adders[id] == Notifying
  }

  /** Signals given while the worker is awake are spent. */
  lemma {:induction false} SpendSignals(s: State) returns (events: seq<Event>)
    requires s.worker != Asleep
    ensures Plain(events) && !SignalPending(RunFrom(s, events))
    ensures RunFrom(s, events) == s.(adders := RunFrom(s, events).adders)
    decreases |Signallers(s)|
  {
    if Signallers(s) == {} {
      events := [];
      assert forall id :: id in s.adders && s.adders[id] == Notifying ==> id in Signallers(s);
    } else {
      var id :| id in Signallers(s);
      var s' := Next(s, AdderStep(id));
      assert s' == s.(adders := s.adders - {id}) && Signallers(s') == Signallers(s) - {id};
      var more := SpendSignals(s');
      events := [AdderStep(id)] + more;
      assert events[1..] == more;
    }
  }

  /** An adder inside the locked region leaves it, and adds nothing any more. */
  lemma FreeLock(s: State) returns (events: seq<Event>)
    requires Good(s) && s.shutdown == Signalling && s.state == THREAD_STATE_TERMINATED
    ensures Plain(events)
    ensures var s' := RunFrom(s, events);
      s' == s.(lock := s'.lock, adders := s'.adders) && (s'.lock == Nobody || s'.lock == WorkerHolds)
      && (s.lock == WorkerHolds <==> s'.lock == WorkerHolds)
  {
    events := [];
    if s.lock.AdderHolds? {
      events := [AdderStep(s.lock.id)];
      assert RunFrom(s, events) == Next(s, events[0]);
    }
  }

  /** From the gap between the test of the thread state and the wait, the signal can be lost. */
  lemma CanBeLost(s: State) returns (events: seq<Event>)
    requires Good(s) && s.shutdown == Signalling && s.state == THREAD_STATE_TERMINATED
    requires s.worker == Locking || s.worker == Looking
    ensures Plain(events) && Stuck(RunFrom(s, events))
  {
    var free := FreeLock(s);
    var s1 := RunFrom(s, free);
    var spend := SpendSignals(s1);
    var s2 := RunFrom(s1, spend);
    var last := if s.worker == Locking then [ShutdownStep, WorkerStep, WorkerStep] else [ShutdownStep, WorkerStep];
    FallsAsleep(s2, last);
    events := free + spend + last;
    RunOn(s, free + spend, last);
    RunOn(s, free, spend);
  }

  lemma FallsAsleep(s: State, last: seq<Event>)
    requires s.shutdown == Signalling && s.state == THREAD_STATE_TERMINATED && s.tasks == [] && !SignalPending(s)
    requires (s.worker == Locking && s.lock == Nobody && last == [ShutdownStep, WorkerStep, WorkerStep])
      || (s.worker == Looking && last == [ShutdownStep, WorkerStep])
    ensures Stuck(RunFrom(s, last))
  {
    var s1 := Next(s, last[0]);
    var s2 := Next(s1, last[1]);
    assert last[1..][1..] == last[2..];
    assert RunFrom(s, last) == RunFrom(s2, last[2..]);
    if s.worker == Locking {
      assert RunFrom(s2, last[2..]) == Next(s2, last[2]);
    }
  }

  /** Whether the worker can be left asleep for good, for every state in which the shutdown
      is about to signal: it can exactly if it has read the thread state, and has not yet
      begun to wait. */
  lemma ShutdownSignalLost(s: State)
    requires Good(s) && s.shutdown == Signalling && s.state == THREAD_STATE_TERMINATED
    ensures (exists events :: Plain(events) && Stuck(RunFrom(s, events))) <==>
      s.worker == Locking || s.worker == Looking
  {
    if s.worker == Locking || s.worker == Looking {
      var events := CanBeLost(s);
    } else {
      forall events | Plain(events) ensures !Stuck(RunFrom(s, events)) {
        StaysAwake(s, events);
      }
    }
  }

  /** Such a state is reached: the worker has read the thread state before the shutdown
      takes the lock. */
  lemma ShutdownCanOvertake()
    ensures var s := Run([WorkerStep, AskShutdown, ShutdownStep, ShutdownStep]);
      s.shutdown == Signalling && s.state == THREAD_STATE_TERMINATED && s.worker == Locking
  {
    var e := [WorkerStep, AskShutdown, ShutdownStep, ShutdownStep];
    RunPrefix(e, 1); RunPrefix(e, 2); RunPrefix(e, 3); RunPrefix(e, 4);
    assert e[..0] == [] && e[..4] == e;
  }

  lemma RunPrefix(e: seq<Event>, n: nat)
    requires 0 < n <= |e|
    ensures Run(e[..n]) == Next(Run(e[..n - 1]), e[n - 1])
  {
    assert e[..n][..n - 1] == e[..n - 1];
  }
}
