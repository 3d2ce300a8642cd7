/**
 * Every accepted task is run: in every fair continuation of every reachable state, whether or not
 * the shutdown begins, the queue is emptied by the worker or by the flush of the shutdown.
 */
module TaskProgress {
  import opened DatabaseTasks
  import opened FairRuns

  /** The worker ends, and the state says so, only once the shutdown has set it. */
  predicate EndsLate(s: State) {
    s.phase == Terminated || s.worker == WEnded ==> s.shutdown != SNotYet && s.shutdown != SHolds
  }

  ghost predicate Sound(s: State) {
    Inv(s) && EndsLate(s)
  }

  lemma StepKeepsSound(s: State, m: Move)
    requires Sound(s)
    ensures Sound(Step(s, m))
  {
    hide Inv;
    StepKeepsInv(s, m);
  }

  lemma {:induction false} RunKeepsSound(s: State, moves: seq<Move>)
    requires Sound(s)
    ensures Sound(Run(s, moves))
    decreases |moves|
  {
    hide Sound, Step;
    if moves != [] {
      StepKeepsSound(s, moves[0]);
      RunKeepsSound(Step(s, moves[0]), moves[1..]);
    }
  }

  lemma {:induction false} SoundAfter(s: State, run: nat -> Move, n: nat)
    requires Sound(s)
    ensures Sound(After(s, run, n))
  {
    hide Sound, Step;
    if n > 0 {
      SoundAfter(s, run, n - 1);
      StepKeepsSound(After(s, run, n - 1), run(n - 1));
    }
  }

  lemma SoundIsInv(s: State)
    requires Sound(s)
    ensures Inv(s)
  {
  }

  // ----- what only grows -----

  /** Nothing that was accepted, taken or run is forgotten. */
  predicate Follows(s: State, s': State) {
    s.accepted <= s'.accepted && s.taken <= s'.taken && s.ran <= s'.ran
  }

  lemma StepFollows(s: State, m: Move)
    ensures Follows(s, Step(s, m))
  {
  }

  lemma {:induction false} AfterFollows(s: State, run: nat -> Move, n: nat, k: nat)
    requires n <= k
    ensures Follows(After(s, run, n), After(s, run, k))
    decreases k
  {
    hide Step;
    if n < k {
      AfterFollows(s, run, n, k - 1);
      StepFollows(After(s, run, k - 1), run(k - 1));
    }
  }

  // ----- the shutdown takes what is left -----

  /** How many turns the shutdown is away from taking a task. */
  function ShutLeft(s: State): nat {
    match s.shutdown
    case SUnlocks(_) => 6
    case SRuns(_) => 5
    case SHolds => 4
    case SLeaves => 3
    case SLocks => 2
    case SLooks => 1
    case _ => 0
  }

  lemma ShutdownNears(s: State, m: Move)
    requires Inv(s) && s.queue != [] && s.shutdown != SNotYet && Step(s, m).taken == s.taken
    ensures var s' := Step(s, m);
      && s'.queue != [] && s'.shutdown != SNotYet
      && ShutLeft(s') <= ShutLeft(s) && (m == Shut && Wants(s, Shut) ==> ShutLeft(s') < ShutLeft(s))
      && (s.lock == Nobody || s.shutdown != SLocks ==> Wants(s, Shut))
  {
    hide Exclusive, InOrder, NothingLost, WillWake;
  }

  // ----- the worker takes what waits -----

  /** How many turns the worker is away from taking a task. */
  function WorkLeft(s: State): nat {
    match s.worker
    case WUnlocks(_) => 9
    case WRuns(_) => 8
    case WReleases => 7
    case WTests => 6
    case WLocks => 5
    case WHolds => 4
    case WSleeps => 3
    case WWakes => 2
    case WChecks => 1
    case WEnded => 0
  }

  lemma WorkerNears(s: State, m: Move)
    requires Sound(s) && s.queue != [] && Step(s, m).taken == s.taken
    requires s.shutdown == SNotYet && Step(s, m).shutdown == SNotYet
    ensures var s' := Step(s, m);
      && s'.queue != []
      && WorkLeft(s') <= WorkLeft(s) && (m == Work && Wants(s, Work) ==> WorkLeft(s') < WorkLeft(s))
      && (s.worker != WSleeps && (s.lock == Nobody || (s.worker != WLocks && s.worker != WWakes)) ==> Wants(s, Work))
  {
    hide Exclusive, InOrder, NothingLost, WillWake;
  }

  // ----- somebody takes the next task -----

  ghost predicate Stuck(s: State, run: nat -> Move, n: nat) {
    forall k: nat :: n <= k ==> After(s, run, k).taken == After(s, run, n).taken
  }

  lemma StuckAt(s: State, run: nat -> Move, n: nat, k: nat)
    requires Stuck(s, run, n) && n <= k
    ensures Stuck(s, run, k) && After(s, run, k + 1).taken == After(s, run, k).taken == After(s, run, n).taken
  {
  }

  lemma {:induction false} StuckShutdown(s: State, run: nat -> Move, n: nat, k: nat)
    requires Inv(s) && Stuck(s, run, n) && n <= k
    requires After(s, run, n).queue != [] && After(s, run, n).shutdown != SNotYet
    ensures After(s, run, k).queue != [] && After(s, run, k).shutdown != SNotYet
    decreases k
  {
    hide *;
    if n < k {
      StuckShutdown(s, run, n, k - 1);
      StuckAt(s, run, n, k - 1);
      InvAfter(s, run, k - 1);
      AfterOne(s, run, k - 1);
      ShutdownNears(After(s, run, k - 1), run(k - 1));
    }
  }

  /** While a task waits and the shutdown has begun, a task is taken. */
  lemma {:induction false} ShutdownTakes(s: State, run: nat -> Move, n: nat)
    requires Inv(s) && Fair(s, run) && After(s, run, n).queue != [] && After(s, run, n).shutdown != SNotYet
    ensures !Stuck(s, run, n)
    decreases ShutLeft(After(s, run, n))
  {
    hide *;
    if Stuck(s, run, n) {
      forall j: nat | n <= j
        ensures WantsFrom(s, run, Shut, j)
      {
        var k := FreeAt(s, run, j);
        StuckShutdown(s, run, n, k);
        StuckAt(s, run, n, k);
        InvAfter(s, run, k);
        AfterOne(s, run, k);
        ShutdownNears(After(s, run, k), run(k));
        IsWantsFrom(s, run, Shut, j, k);
      }
      forall i: nat | n <= i
        ensures FallsAt(s, run, Shut, ShutLeft, i)
      {
        StuckShutdown(s, run, n, i);
        StuckAt(s, run, n, i);
        InvAfter(s, run, i);
        AfterOne(s, run, i);
        ShutdownNears(After(s, run, i), run(i));
        IsFall(s, run, Shut, ShutLeft, i);
      }
      TurnsAre();
      var k := Falls(s, run, Shut, ShutLeft, n);
      StuckShutdown(s, run, n, k);
      StuckAt(s, run, n, k);
      ShutdownTakes(s, run, k);
    }
  }

  lemma TurnsAre()
    ensures IsTurn(Shut) && IsTurn(Work)
  {
  }

  ghost predicate NeverBegins(s: State, run: nat -> Move, n: nat) {
    forall k: nat :: n <= k ==> After(s, run, k).shutdown == SNotYet
  }

  lemma NeverBegun(s: State, run: nat -> Move, n: nat, k: nat)
    requires NeverBegins(s, run, n) && n <= k
    ensures After(s, run, k).shutdown == After(s, run, k + 1).shutdown == SNotYet && NeverBegins(s, run, k)
  {
  }

  lemma {:induction false} StuckWorker(s: State, run: nat -> Move, n: nat, k: nat)
    requires Sound(s) && Stuck(s, run, n) && NeverBegins(s, run, n) && n <= k && After(s, run, n).queue != []
    ensures After(s, run, k).queue != []
    decreases k
  {
    hide *;
    if n < k {
      StuckWorker(s, run, n, k - 1);
      NeverBegun(s, run, n, k - 1);
      StuckAt(s, run, n, k - 1);
      SoundAfter(s, run, k - 1);
      AfterOne(s, run, k - 1);
      WorkerNears(After(s, run, k - 1), run(k - 1));
    }
  }

  /** A task waits, nobody takes one, the shutdown does not begin, and the worker does not sleep. */
  lemma {:induction false} AwakeNears(s: State, run: nat -> Move, n: nat) returns (k: nat)
    requires Sound(s) && Fair(s, run) && Stuck(s, run, n) && NeverBegins(s, run, n) && After(s, run, n).queue != []
    requires forall i: nat :: n <= i ==> After(s, run, i).worker != WSleeps
    ensures n <= k && WorkLeft(After(s, run, k)) < WorkLeft(After(s, run, n))
  {
    hide *;
    SoundIsInv(s);
    forall j: nat | n <= j
      ensures WantsFrom(s, run, Work, j)
    {
      var i := FreeAt(s, run, j);
      WorkerFacts(s, run, n, i);
      IsWantsFrom(s, run, Work, j, i);
    }
    forall i: nat | n <= i
      ensures FallsAt(s, run, Work, WorkLeft, i)
    {
      WorkerFacts(s, run, n, i);
      IsFall(s, run, Work, WorkLeft, i);
    }
    TurnsAre();
    k := Falls(s, run, Work, WorkLeft, n);
  }

  lemma WorkerFacts(s: State, run: nat -> Move, n: nat, k: nat)
    requires Sound(s) && Stuck(s, run, n) && NeverBegins(s, run, n) && n <= k && After(s, run, n).queue != []
    ensures var a, b := After(s, run, k), After(s, run, k + 1);
      && WorkLeft(b) <= WorkLeft(a) && (run(k) == Work && Wants(a, Work) ==> WorkLeft(b) < WorkLeft(a))
      && (a.worker != WSleeps && a.lock == Nobody ==> Wants(a, Work))
  {
    hide *;
    StuckWorker(s, run, n, k);
    NeverBegun(s, run, n, k);
    StuckAt(s, run, n, k);
    SoundAfter(s, run, k);
    AfterOne(s, run, k);
    WorkerNears(After(s, run, k), run(k));
  }

  lemma {:induction false} WorkNeverRises(s: State, run: nat -> Move, n: nat, k: nat)
    requires Sound(s) && Stuck(s, run, n) && NeverBegins(s, run, n) && n <= k && After(s, run, n).queue != []
    ensures WorkLeft(After(s, run, k)) <= WorkLeft(After(s, run, n))
    decreases k
  {
    hide *;
    if n < k {
      WorkNeverRises(s, run, n, k - 1);
      WorkerFacts(s, run, n, k - 1);
    }
  }

  lemma SleeperHasNotifier(s: State) returns (t: nat)
    requires Inv(s) && s.worker == WSleeps && s.queue != []
    ensures AboutToNotify(At(s, t))
  {
    t :| AboutToNotify(At(s, t));
  }

  lemma WorkLeftIs(s: State)
    ensures s.worker == WSleeps <==> WorkLeft(s) == 3
  {
  }

  /** While a task waits and the shutdown does not begin, the worker takes one. */
  lemma {:induction false} WorkerTakes(s: State, run: nat -> Move, n: nat)
    requires Sound(s) && Fair(s, run) && NeverBegins(s, run, n) && After(s, run, n).queue != []
    ensures !Stuck(s, run, n)
    decreases WorkLeft(After(s, run, n))
  {
    hide *;
    SoundIsInv(s);
    if Stuck(s, run, n) {
      var k: nat;
      if i: nat :| n <= i && After(s, run, i).worker == WSleeps {
        WorkNeverRises(s, run, n, i);
        StuckWorker(s, run, n, i);
        InvAfter(s, run, i);
        var t := SleeperHasNotifier(After(s, run, i));
        k := WakesAt(s, run, i, t);
        NeverBegun(s, run, n, i);
        StuckAt(s, run, n, i);
        WorkNeverRises(s, run, i, k);
        WorkLeftIs(After(s, run, i));
        WorkLeftIs(After(s, run, k));
      } else {
        k := AwakeNears(s, run, n);
      }
      StuckWorker(s, run, n, k);
      StuckAt(s, run, n, k);
      NeverBegun(s, run, n, k);
      WorkerTakes(s, run, k);
    }
  }

  lemma WakesAt(s: State, run: nat -> Move, n: nat, t: nat) returns (k: nat)
    requires Inv(s) && Fair(s, run) && AboutToNotify(At(After(s, run, n), t))
    ensures n <= k && After(s, run, k).worker != WSleeps
  {
    hide After, Inv, Fair, At, AboutToNotify;
    SleeperWakes(s, run, n, t);
    k :| n <= k && After(s, run, k).worker != WSleeps;
  }

  /** While a task waits, one is taken. */
  lemma TakesNext(s: State, run: nat -> Move, n: nat) returns (k: nat)
    requires Sound(s) && Fair(s, run) && After(s, run, n).queue != []
    ensures n <= k && |After(s, run, k).taken| > |After(s, run, n).taken|
  {
    hide After, Sound, Fair;
    SoundIsInv(s);
    if Stuck(s, run, n) {
      if NeverBegins(s, run, n) {
        WorkerTakes(s, run, n);
      } else {
        var i: nat :| n <= i && After(s, run, i).shutdown != SNotYet;
        StuckAt(s, run, n, i);
        StillWaits(s, run, n, i);
        ShutdownTakes(s, run, i);
      }
    }
    k :| n <= k && After(s, run, k).taken != After(s, run, n).taken;
    AfterFollows(s, run, n, k);
  }

  /** What waits goes on waiting while nothing is taken. */
  lemma StillWaits(s: State, run: nat -> Move, n: nat, k: nat)
    requires Inv(s) && Stuck(s, run, n) && n <= k && After(s, run, n).queue != []
    ensures After(s, run, k).queue != []
  {
    hide After, Exclusive, NothingLost, WillWake, Shutting;
    AfterFollows(s, run, n, k);
    InvAfter(s, run, n);
    InvAfter(s, run, k);
  }

  // ----- every task that was accepted is run -----

  lemma {:induction false} TakesAll(s: State, run: nat -> Move, n: nat, many: nat) returns (k: nat)
    requires Sound(s) && Fair(s, run) && many <= |After(s, run, n).accepted|
    ensures n <= k && |After(s, run, k).taken| >= many
    decreases many - |After(s, run, n).taken|
  {
    hide After, Sound, Fair, Exclusive, NothingLost, WillWake, Shutting;
    SoundIsInv(s);
    InvAfter(s, run, n);
    if |After(s, run, n).taken| >= many {
      k := n;
    } else {
      k := TakesNext(s, run, n);
      AfterFollows(s, run, n, k);
      k := TakesAll(s, run, k, many);
    }
  }

  function WorkerInHand(s: State): nat {
    match s.worker case WUnlocks(_) => 2 case WRuns(_) => 1 case _ => 0
  }

  function ShutdownInHand(s: State): nat {
    match s.shutdown case SUnlocks(_) => 2 case SRuns(_) => 1 case _ => 0
  }

  lemma WorkerHand(s: State, m: Move)
    requires WorkerInHand(s) > 0 && WorkerInHand(Step(s, m)) > 0
    ensures WorkerInHand(Step(s, m)) <= WorkerInHand(s) && Wants(s, Work)
    ensures m == Work ==> WorkerInHand(Step(s, m)) < WorkerInHand(s)
  {
  }

  lemma ShutdownHand(s: State, m: Move)
    requires ShutdownInHand(s) > 0 && ShutdownInHand(Step(s, m)) > 0
    ensures ShutdownInHand(Step(s, m)) <= ShutdownInHand(s) && Wants(s, Shut)
    ensures m == Shut ==> ShutdownInHand(Step(s, m)) < ShutdownInHand(s)
  {
  }

  lemma {:induction false} WorkerRunsIt(s: State, run: nat -> Move, n: nat) returns (k: nat)
    requires Fair(s, run)
    ensures n <= k && WorkerInHand(After(s, run, k)) == 0
    decreases WorkerInHand(After(s, run, n))
  {
    hide After, Fair, Step, WorkerInHand;
    if i: nat :| n <= i && WorkerInHand(After(s, run, i)) == 0 {
      k := i;
    } else {
      forall i: nat | n <= i
        ensures FallsAt(s, run, Work, WorkerInHand, i) && WantsFrom(s, run, Work, i)
      {
        AfterOne(s, run, i);
        WorkerHand(After(s, run, i), run(i));
        IsFall(s, run, Work, WorkerInHand, i);
        IsWantsFrom(s, run, Work, i, i);
      }
      k := Falls(s, run, Work, WorkerInHand, n);
      k := WorkerRunsIt(s, run, k);
    }
  }

  lemma {:induction false} ShutdownRunsIt(s: State, run: nat -> Move, n: nat) returns (k: nat)
    requires Fair(s, run)
    ensures n <= k && ShutdownInHand(After(s, run, k)) == 0
    decreases ShutdownInHand(After(s, run, n))
  {
    hide After, Fair, Step, ShutdownInHand;
    if i: nat :| n <= i && ShutdownInHand(After(s, run, i)) == 0 {
      k := i;
    } else {
      forall i: nat | n <= i
        ensures FallsAt(s, run, Shut, ShutdownInHand, i) && WantsFrom(s, run, Shut, i)
      {
        AfterOne(s, run, i);
        ShutdownHand(After(s, run, i), run(i));
        IsFall(s, run, Shut, ShutdownInHand, i);
        IsWantsFrom(s, run, Shut, i, i);
      }
      k := Falls(s, run, Shut, ShutdownInHand, n);
      k := ShutdownRunsIt(s, run, k);
    }
  }

  /** What has been run or is in the hands of the shutdown. */
  function RunOrFlushed(s: State): multiset<Task> {
    multiset(s.ran) + multiset(OfShutdown(s.shutdown))
  }

  lemma RunOrFlushedGrows(s: State, m: Move)
    ensures RunOrFlushed(s) <= RunOrFlushed(Step(s, m))
  {
    hide RunOrFlushed, Worked, ShutOn, Added, Notified;
    match m
    case Work => WorkedRuns(s);
    case Shut => ShutRuns(s);
    case _ =>
      OthersRunNothing(s, m);
      SameRunOrFlushed(s, Step(s, m));
  }

  lemma OthersRunNothing(s: State, m: Move)
    requires m != Work && m != Shut
    ensures Step(s, m).ran == s.ran && Step(s, m).shutdown == s.shutdown
  {
  }

  lemma SameRunOrFlushed(s: State, s': State)
    requires s'.ran == s.ran && s'.shutdown == s.shutdown
    ensures RunOrFlushed(s') == RunOrFlushed(s)
  {
  }

  lemma WorkedRuns(s: State)
    ensures RunOrFlushed(s) <= RunOrFlushed(Worked(s))
  {
    hide Worked;
    WorkedRan(s);
    RanMore(s.ran, OfWorker(s.worker));
  }

  lemma WorkedRan(s: State)
    ensures Worked(s).shutdown == s.shutdown
    ensures Worked(s).ran == if s.worker.WRuns? then s.ran + OfWorker(s.worker) else s.ran
  {
  }

  lemma ShutRuns(s: State)
    ensures RunOrFlushed(s) <= RunOrFlushed(ShutOn(s))
  {
    NotifiedKeepsTasks(s);
    hide Notified;
    if s.shutdown.SRuns? {
      RanMore(s.ran, [s.shutdown.task]);
    }
  }

  lemma RanMore(ran: seq<Task>, more: seq<Task>)
    ensures multiset(ran + more) == multiset(ran) + multiset(more)
  {
  }

  lemma {:induction false} RunOrFlushedAfter(s: State, run: nat -> Move, n: nat, k: nat)
    requires n <= k
    ensures RunOrFlushed(After(s, run, n)) <= RunOrFlushed(After(s, run, k))
    decreases k
  {
    hide Step, RunOrFlushed;
    if n < k {
      RunOrFlushedAfter(s, run, n, k - 1);
      RunOrFlushedGrows(After(s, run, k - 1), run(k - 1));
    }
  }

  lemma PrefixWithin(a: seq<Task>, b: seq<Task>)
    requires a <= b
    ensures multiset(a) <= multiset(b)
  {
    assert b == a + b[|a|..];
  }

  /** The longer of two prefixes of a list holds the shorter. */
  lemma AcceptedIsTaken(s: State, s': State, many: seq<Task>)
    requires InOrder(s') && many <= s'.accepted && |s'.taken| >= |many|
    ensures many <= s'.taken
  {
  }

  lemma HandsEmpty(s: State)
    requires NothingLost(s)
    ensures WorkerInHand(s) == 0 ==> multiset(s.taken) <= RunOrFlushed(s)
    ensures ShutdownInHand(s) == 0 ==> RunOrFlushed(s) == multiset(s.ran)
  {
  }

  /** In every fair continuation of every reachable state every task accepted so far is run. */
  lemma EveryTaskIsRun(moves: seq<Move>, run: nat -> Move) returns (k: nat)
    requires Fair(Run(INITIAL, moves), run)
    ensures multiset(Run(INITIAL, moves).accepted) <= multiset(After(Run(INITIAL, moves), run, k).ran)
  {
    hide After, Run, Fair, Exclusive, InOrder, NothingLost, WillWake, Shutting;
    hide RunOrFlushed, WorkerInHand, ShutdownInHand;
    InitialIsSound();
    RunKeepsSound(INITIAL, moves);
    var s := Run(INITIAL, moves);
    AfterNone(s, run);
    var taken := TakesAll(s, run, 0, |s.accepted|);
    var freed := WorkerRunsIt(s, run, taken);
    k := ShutdownRunsIt(s, run, freed);
    AfterFollows(s, run, 0, taken);
    AfterFollows(s, run, taken, freed);
    InvAfter(s, run, taken);
    InvAfter(s, run, freed);
    InvAfter(s, run, k);
    AcceptedIsTaken(s, After(s, run, taken), s.accepted);
    PrefixWithin(s.accepted, After(s, run, freed).taken);
    HandsEmpty(After(s, run, freed));
    HandsEmpty(After(s, run, k));
    RunOrFlushedAfter(s, run, freed, k);
  }

  lemma AfterNone(s: State, run: nat -> Move)
    ensures After(s, run, 0) == s
  {
  }

  lemma InitialIsSound()
    ensures Sound(INITIAL)
  {
    InitialHasInv();
  }
}
