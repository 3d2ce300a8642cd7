/**
 * The queue of database tasks: any number of threads add tasks, one worker takes them out, one
 * shutdown flushes the rest. Every step between two lock operations is one transition, and a
 * run is any sequence of transitions.
 */
module DatabaseTasks {
  datatype Phase = Running | Closing | Terminated

  type Task = nat

  datatype Owner = Nobody | TheWorker | TheShutdown | TheAdder(thread: nat)

  /** Where the worker stands in `threadMain`: reading the state, before `lock`, holding it
      before the first test of the queue, waiting, woken but without the lock, holding it before
      the second test, holding it with a task taken out, running that task, holding it with
      nothing to do, past the loop. */
  datatype Worker =
    | WTests | WLocks | WHolds | WSleeps | WWakes | WChecks
    | WUnlocks(task: Task) | WRuns(task: Task) | WReleases | WEnded

  /** Where the shutdown stands: before its first `lock`, holding it, having set the state,
      before the lock of `flush`, holding it before the test, holding it with a task taken out,
      running that task, holding it for the last time, before `notify_one`, done. */
  datatype Shutdown =
    | SNotYet | SHolds | SLeaves | SLocks | SLooks
    | SUnlocks(task: Task) | SRuns(task: Task) | SCloses | SNotifies | SDone

  /** Where a thread stands in `addTask`. */
  datatype Adder = AIdle | ALocks(task: Task) | AHolds(task: Task) | ALeaves(signal: bool) | ANotifies

  /** The shared state, the threads, and what has happened: the tasks accepted and taken out,
      in order, and those that have been run. */
  datatype State = State(phase: Phase, lock: Owner, queue: seq<Task>,
                         worker: Worker, shutdown: Shutdown, adders: map<nat, Adder>,
                         accepted: seq<Task>, taken: seq<Task>, ran: seq<Task>)

  datatype Move = Work | Spurious | Shut | Add(thread: nat) | Call(thread: nat, task: Task) | Stop

  // ----- the transitions -----

  /** `notify_one`: the worker is the only thread that waits. */
  function Notified(s: State): State {
    if s.worker == WSleeps then s.(worker := WWakes) else s
  }

  function Popped(s: State): State
    requires s.queue != []
  {
    s.(queue := s.queue[1..], taken := s.taken + [s.queue[0]])
  }

  function Worked(s: State): State {
    match s.worker
    case WTests => s.(worker := if s.phase == Terminated then WEnded else WLocks)
    case WLocks => if s.lock == Nobody then s.(lock := TheWorker, worker := WHolds) else s
    case WHolds => if s.queue == [] then s.(lock := Nobody, worker := WSleeps) else s.(worker := WChecks)
    case WSleeps => s
    case WWakes => if s.lock == Nobody then s.(lock := TheWorker, worker := WChecks) else s
    case WChecks => if s.queue == [] then s.(worker := WReleases) else Popped(s).(worker := WUnlocks(s.queue[0]))
    case WUnlocks(task) => s.(lock := Nobody, worker := WRuns(task))
    case WRuns(task) => s.(ran := s.ran + [task], worker := WTests)
    case WReleases => s.(lock := Nobody, worker := WTests)
    case WEnded => s
  }

  function ShutOn(s: State): State {
    match s.shutdown
    case SNotYet => if s.lock == Nobody then s.(lock := TheShutdown, shutdown := SHolds) else s
    case SHolds => s.(phase := Terminated, shutdown := SLeaves)
    case SLeaves => s.(lock := Nobody, shutdown := SLocks)
    case SLocks => if s.lock == Nobody then s.(lock := TheShutdown, shutdown := SLooks) else s
    case SLooks => if s.queue == [] then s.(shutdown := SCloses) else Popped(s).(shutdown := SUnlocks(s.queue[0]))
    case SUnlocks(task) => s.(lock := Nobody, shutdown := SRuns(task))
    case SRuns(task) => s.(ran := s.ran + [task], shutdown := SLocks)
    case SCloses => s.(lock := Nobody, shutdown := SNotifies)
    case SNotifies => Notified(s).(shutdown := SDone)
    case SDone => s
  }

  function At(s: State, t: nat): Adder {
    if t in s.adders then s.adders[t] else AIdle
  }

  function Moved(s: State, t: nat, a: Adder): State {
    s.(adders := s.adders[t := a])
  }

  function Added(s: State, t: nat): State {
    match At(s, t)
    case AIdle => s
    case ALocks(task) => if s.lock == Nobody then Moved(s, t, AHolds(task)).(lock := TheAdder(t)) else s
    case AHolds(task) =>
      if s.phase == Running then Moved(s, t, ALeaves(s.queue == [])).(
        queue := s.queue + [task], accepted := s.accepted + [task])
      else Moved(s, t, ALeaves(false))
    case ALeaves(signal) => Moved(s, t, if signal then ANotifies else AIdle).(lock := Nobody)
    case ANotifies => Moved(Notified(s), t, AIdle)
  }

  /** A transition that is not possible leaves the state alone. `Spurious` is a wake-up without a
      notification, `Stop` the store of `THREAD_STATE_CLOSING` without the lock. */
  function Step(s: State, m: Move): State {
    match m
    case Work => Worked(s)
    case Spurious => Notified(s)
    case Shut => ShutOn(s)
    case Add(t) => Added(s, t)
    case Call(t, task) => if At(s, t) == AIdle then Moved(s, t, ALocks(task)) else s
    case Stop => s.(phase := Closing)
  }

  function Run(s: State, moves: seq<Move>): State
    decreases |moves|
  {
    if moves == [] then s else Run(Step(s, moves[0]), moves[1..])
  }

  /** After `start`. */
  const INITIAL := State(Running, Nobody, [], WTests, SNotYet, map[], [], [], [])

  // ----- the invariant -----

  predicate WorkerHolds(w: Worker) {
    w.WHolds? || w.WChecks? || w.WUnlocks? || w.WReleases?
  }

  predicate ShutdownHolds(d: Shutdown) {
    d.SHolds? || d.SLeaves? || d.SLooks? || d.SUnlocks? || d.SCloses?
  }

  predicate AdderHolds(a: Adder) {
    a.AHolds? || a.ALeaves?
  }

  /** The lock is held by whoever stands between a lock and the unlock that follows. */
  ghost predicate Exclusive(s: State) {
    && (s.lock == TheWorker <==> WorkerHolds(s.worker))
    && (s.lock == TheShutdown <==> ShutdownHolds(s.shutdown))
    && forall t: nat :: s.lock == TheAdder(t) <==> AdderHolds(At(s, t))
  }

  /** Tasks leave in the order in which they were accepted, each once. */
  predicate InOrder(s: State) {
    s.taken + s.queue == s.accepted
  }

  function OfWorker(w: Worker): seq<Task> {
    match w
    case WUnlocks(task) => [task]
    case WRuns(task) => [task]
    case _ => []
  }

  function OfShutdown(d: Shutdown): seq<Task> {
    match d
    case SUnlocks(task) => [task]
    case SRuns(task) => [task]
    case _ => []
  }

  /** What was taken out has been run or is in the hands of one thread. */
  predicate NothingLost(s: State) {
    Accounted(s.taken, s.ran, OfWorker(s.worker), OfShutdown(s.shutdown))
  }

  predicate Accounted(taken: seq<Task>, ran: seq<Task>, w: seq<Task>, d: seq<Task>) {
    multiset(taken) == multiset(ran) + multiset(w) + multiset(d)
  }

  predicate HasFlushed(d: Shutdown) {
    d.SCloses? || d.SNotifies? || d.SDone?
  }

  /** Once the shutdown has set the state no task is accepted, and once its flush has seen the
      queue empty it is empty for ever. */
  predicate Shutting(s: State) {
    && (!(s.shutdown.SNotYet? || s.shutdown.SHolds?) ==> s.phase != Running)
    && (HasFlushed(s.shutdown) ==> s.queue == [])
  }

  predicate AboutToNotify(a: Adder) {
    a == ALeaves(true) || a == ANotifies
  }

  /** If the worker sleeps although there is work, some thread has still to notify it. */
  ghost predicate WillWake(s: State) {
    s.worker == WSleeps && s.queue != [] ==> exists t: nat :: AboutToNotify(At(s, t))
  }

  ghost predicate Inv(s: State) {
    Exclusive(s) && InOrder(s) && NothingLost(s) && Shutting(s) && WillWake(s)
  }

  lemma InitialHasInv()
    ensures Inv(INITIAL)
  {
    assert [] + INITIAL.queue == INITIAL.accepted;
  }

  // Mutual exclusion.

  lemma WorkerExcludes(s: State)
    requires Exclusive(s)
    ensures Exclusive(Worked(s))
  {
  }

  lemma ShutdownExcludes(s: State)
    requires Exclusive(s)
    ensures Exclusive(ShutOn(s))
  {
  }

  lemma AdderExcludes(s: State, t: nat)
    requires Exclusive(s)
    ensures Exclusive(Added(s, t))
  {
  }

  // Order and conservation of the tasks.

  lemma TakesInOrder(s: State)
    requires s.queue != [] && InOrder(s)
    ensures InOrder(Popped(s))
  {
    assert s.taken + s.queue == (s.taken + [s.queue[0]]) + s.queue[1..];
  }

  lemma WorkerKeepsOrder(s: State)
    requires InOrder(s)
    ensures InOrder(Worked(s))
  {
    if s.queue != [] {
      TakesInOrder(s);
    }
  }

  lemma ShutdownKeepsOrder(s: State)
    requires InOrder(s)
    ensures InOrder(ShutOn(s))
  {
    if s.queue != [] {
      TakesInOrder(s);
    }
  }

  lemma AdderKeepsOrder(s: State, t: nat)
    requires InOrder(s)
    ensures InOrder(Added(s, t))
  {
    if At(s, t).AHolds? {
      assert s.taken + (s.queue + [At(s, t).task]) == s.accepted + [At(s, t).task];
    }
  }

  lemma TakeAndRun(taken: seq<Task>, ran: seq<Task>, task: Task, other: seq<Task>)
    ensures Accounted(taken, ran, [], other) ==> Accounted(taken + [task], ran, [task], other)
    ensures Accounted(taken, ran, other, []) ==> Accounted(taken + [task], ran, other, [task])
    ensures Accounted(taken, ran, [task], other) ==> Accounted(taken, ran + [task], [], other)
    ensures Accounted(taken, ran, other, [task]) ==> Accounted(taken, ran + [task], other, [])
  {
    assert multiset(taken + [task]) == multiset(taken) + multiset([task]);
    assert multiset(ran + [task]) == multiset(ran) + multiset([task]);
  }

  lemma NotifiedKeepsTasks(s: State)
    ensures Notified(s).taken == s.taken && Notified(s).ran == s.ran && Notified(s).shutdown == s.shutdown
    ensures OfWorker(Notified(s).worker) == OfWorker(s.worker)
  {
  }

  lemma WorkerLosesNothing(s: State)
    requires NothingLost(s)
    ensures NothingLost(Worked(s))
  {
    hide Accounted, OfShutdown;
    match s.worker
    case WChecks => if s.queue != [] { TakeAndRun(s.taken, s.ran, s.queue[0], OfShutdown(s.shutdown)); }
    case WRuns(task) => TakeAndRun(s.taken, s.ran, task, OfShutdown(s.shutdown));
    case _ =>
  }

  lemma ShutdownLosesNothing(s: State)
    requires NothingLost(s)
    ensures NothingLost(ShutOn(s))
  {
    hide Accounted, OfWorker, Notified;
    NotifiedKeepsTasks(s);
    match s.shutdown
    case SLooks => if s.queue != [] { TakeAndRun(s.taken, s.ran, s.queue[0], OfWorker(s.worker)); }
    case SRuns(task) => TakeAndRun(s.taken, s.ran, task, OfWorker(s.worker));
    case _ =>
  }

  lemma AdderLosesNothing(s: State, t: nat)
    requires NothingLost(s)
    ensures NothingLost(Added(s, t))
  {
    hide Accounted, OfShutdown, OfWorker, Notified;
    NotifiedKeepsTasks(s);
  }

  // The worker is not left asleep.

  lemma AdderWakes(s: State, t: nat)
    requires WillWake(s)
    ensures WillWake(Added(s, t))
  {
    var s' := Added(s, t);
    assert s.queue == [] && s'.queue != [] ==> AboutToNotify(At(s', t));
    if s.worker == WSleeps && s.queue != [] {
      var u: nat :| AboutToNotify(At(s, u));
      assert s'.worker == WSleeps ==> AboutToNotify(At(s', u));
    }
  }

  lemma OthersWake(s: State, s': State)
    requires WillWake(s) && s'.adders == s.adders
    requires s'.worker == WSleeps && s'.queue != [] ==> s.worker == WSleeps && s.queue != []
    ensures WillWake(s')
  {
    if s'.worker == WSleeps && s'.queue != [] {
      var u: nat :| AboutToNotify(At(s, u));
      assert AboutToNotify(At(s', u));
    }
  }

  // The shutdown.

  lemma WorkerShuts(s: State)
    requires Shutting(s)
    ensures Shutting(Worked(s))
  {
  }

  lemma ShutdownShuts(s: State)
    requires Shutting(s)
    ensures Shutting(ShutOn(s))
  {
  }

  lemma AdderShuts(s: State, t: nat)
    requires Shutting(s)
    ensures Shutting(Added(s, t))
  {
  }

  /** Neither the worker nor the shutdown falls asleep while there is work. */
  lemma SleepsWhenEmpty(s: State)
    ensures Worked(s).worker == WSleeps && Worked(s).queue != [] ==> s.worker == WSleeps && s.queue != []
    ensures ShutOn(s).worker == WSleeps && ShutOn(s).queue != [] ==> s.worker == WSleeps && s.queue != []
    ensures Worked(s).adders == s.adders && ShutOn(s).adders == s.adders
  {
  }

  /** Every transition of every thread keeps the invariant. */
  lemma StepKeepsInv(s: State, m: Move)
    requires Inv(s)
    ensures Inv(Step(s, m))
  {
    hide Exclusive, InOrder, NothingLost, WillWake, Shutting, Worked, ShutOn, Added;
    match m
    case Work =>
      WorkerExcludes(s);
      WorkerKeepsOrder(s);
      WorkerLosesNothing(s);
      WorkerShuts(s);
      SleepsWhenEmpty(s);
      OthersWake(s, Worked(s));
    case Spurious =>
      NotifiedKeeps(s);
    case Shut =>
      ShutdownExcludes(s);
      ShutdownKeepsOrder(s);
      ShutdownLosesNothing(s);
      ShutdownShuts(s);
      SleepsWhenEmpty(s);
      OthersWake(s, ShutOn(s));
    case Add(t) =>
      AdderExcludes(s, t);
      AdderKeepsOrder(s, t);
      AdderLosesNothing(s, t);
      AdderShuts(s, t);
      AdderWakes(s, t);
    case Call(t, task) =>
      CallKeeps(s, t, task);
    case Stop =>
      StopKeeps(s);
  }

  lemma NotifiedKeeps(s: State)
    requires Inv(s)
    ensures Inv(Notified(s))
  {
  }

  lemma CallKeeps(s: State, t: nat, task: Task)
    requires Inv(s)
    ensures Inv(Step(s, Call(t, task)))
  {
    var s' := Step(s, Call(t, task));
    if s.worker == WSleeps && s.queue != [] {
      var u: nat :| AboutToNotify(At(s, u));
      assert AboutToNotify(At(s', u));
    }
  }

  lemma StopKeeps(s: State)
    requires Inv(s)
    ensures Inv(Step(s, Stop))
  {
    OthersWake(s, Step(s, Stop));
  }

  lemma {:induction false} RunKeepsInv(s: State, moves: seq<Move>)
    requires Inv(s)
    ensures Inv(Run(s, moves))
    decreases |moves|
  {
    hide Step, Inv;
    if moves != [] {
      StepKeepsInv(s, moves[0]);
      RunKeepsInv(Step(s, moves[0]), moves[1..]);
    }
  }

  // ----- what holds in every run -----

  /** In every interleaving tasks are taken out in the order of their acceptance, each once. */
  lemma TakenInOrder(moves: seq<Move>)
    ensures var s := Run(INITIAL, moves); s.taken + s.queue == s.accepted
  {
    InitialHasInv();
    RunKeepsInv(INITIAL, moves);
  }

  /** Once the flush of the shutdown is over, no continuation puts anything in the queue. */
  lemma EmptyForEver(moves: seq<Move>, more: seq<Move>)
    requires HasFlushed(Run(INITIAL, moves).shutdown)
    ensures
      Run(INITIAL, moves + more).queue == [] && Run(INITIAL, moves + more).accepted == Run(INITIAL, moves).accepted
  {
    InitialHasInv();
    RunKeepsInv(INITIAL, moves);
    RunSplit(INITIAL, moves, more);
    FlushedStays(Run(INITIAL, moves), more);
  }

  lemma {:induction false} RunSplit(s: State, a: seq<Move>, b: seq<Move>)
    ensures Run(s, a + b) == Run(Run(s, a), b)
    decreases |a|
  {
    hide Step;
    if a == [] {
      assert a + b == b;
    } else {
      assert (a + b)[1..] == a[1..] + b;
      RunSplit(Step(s, a[0]), a[1..], b);
    }
  }

  lemma {:induction false} FlushedStays(s: State, moves: seq<Move>)
    requires Inv(s) && HasFlushed(s.shutdown)
    ensures Run(s, moves).queue == [] && Run(s, moves).accepted == s.accepted
    decreases |moves|
  {
    hide Inv;
    if moves == [] {
      FlushedIsEmpty(s);
    } else {
      StepKeepsInv(s, moves[0]);
      FlushedStep(s, moves[0]);
      FlushedStays(Step(s, moves[0]), moves[1..]);
    }
  }

  lemma FlushedIsEmpty(s: State)
    requires Inv(s) && HasFlushed(s.shutdown)
    ensures s.queue == []
  {
  }

  lemma FlushedStep(s: State, m: Move)
    requires Inv(s) && HasFlushed(s.shutdown)
    ensures HasFlushed(Step(s, m).shutdown) && Step(s, m).accepted == s.accepted
  {
    hide Exclusive, InOrder, NothingLost, WillWake;
  }

  /** When the shutdown is over and the worker has no task in hand, everything that was ever
      accepted has been run, as often as it was accepted. */
  lemma AllHaveRun(moves: seq<Move>)
    requires Run(INITIAL, moves).shutdown == SDone
    requires !Run(INITIAL, moves).worker.WUnlocks? && !Run(INITIAL, moves).worker.WRuns?
    ensures multiset(Run(INITIAL, moves).ran) == multiset(Run(INITIAL, moves).accepted)
  {
    InitialHasInv();
    RunKeepsInv(INITIAL, moves);
    var s := Run(INITIAL, moves);
    assert s.queue == [] && s.taken + s.queue == s.taken;
  }

  /** No wake-up is lost: while no thread is about to notify, a sleeping worker has nothing to do. */
  lemma SleepsOnlyWhenIdle(moves: seq<Move>)
    requires Run(INITIAL, moves).worker == WSleeps
    requires forall t: nat :: At(Run(INITIAL, moves), t) != ANotifies && At(Run(INITIAL, moves), t) != ALeaves(true)
    ensures Run(INITIAL, moves).queue == []
  {
    InitialHasInv();
    RunKeepsInv(INITIAL, moves);
  }

  /** ... and while the lock is free, the thread that owes the notification stands between its
      unlock and its `notify_one`. */
  lemma SomeoneNotifies(moves: seq<Move>)
    requires
      Run(INITIAL, moves).worker == WSleeps && Run(INITIAL, moves).queue != [] && Run(INITIAL, moves).lock == Nobody
    ensures exists t: nat :: At(Run(INITIAL, moves), t) == ANotifies
  {
    InitialHasInv();
    RunKeepsInv(INITIAL, moves);
    var s := Run(INITIAL, moves);
    var t: nat :| AboutToNotify(At(s, t));
    assert s.lock == TheAdder(t) <==> AdderHolds(At(s, t));
  }
}
