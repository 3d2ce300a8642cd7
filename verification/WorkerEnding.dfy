/**
 * Whether the worker ends: when the shutdown is over and no spurious wake-up comes to help, in
 * which states every fair continuation lets it leave its loop, and in which it may sleep, or
 * sleeps already, for ever.
 */
module WorkerEnding {
  import opened DatabaseTasks
  import opened FairRuns

  /** Without spurious wake-ups and without another `stop`. */
  ghost predicate Orderly(run: nat -> Move) {
    forall n: nat :: run(n) != Spurious && run(n) != Stop
  }

  ghost predicate Ends(s: State, run: nat -> Move) {
    exists n: nat :: After(s, run, n).worker == WEnded
  }

  /** The shutdown is over. */
  ghost predicate Over(s: State) {
    Inv(s) && s.shutdown == SDone && s.phase == Terminated
  }

  lemma OverIsInv(s: State)
    requires Over(s)
    ensures Inv(s)
  {
  }

  lemma OverStep(s: State, m: Move)
    requires Over(s) && m != Stop
    ensures Over(Step(s, m))
  {
    hide Inv;
    StepKeepsInv(s, m);
  }

  lemma OneMore(s: State, run: nat -> Move, n: nat)
    requires Orderly(run)
    ensures After(s, run, n + 1) == Step(After(s, run, n), run(n)) && run(n) != Stop && run(n) != Spurious
  {
  }

  lemma {:induction false} OverAfter(s: State, run: nat -> Move, n: nat)
    requires Over(s) && Orderly(run)
    ensures Over(After(s, run, n))
  {
    hide Over, Step;
    if n > 0 {
      OverAfter(s, run, n - 1);
      OverStep(After(s, run, n - 1), run(n - 1));
    }
  }

  // ----- the worker leaves its loop -----

  /** How far the worker is from the end, if it goes by the queue being empty. */
  function StepsLeft(w: Worker): nat {
    match w
    case WEnded => 0
    case WTests => 1
    case WReleases => 2
    case WRuns(_) => 3
    case WUnlocks(_) => 4
    case WChecks => 5
    case WWakes => 6
    case WSleeps => 7
    case _ => 9
  }

  /** It is not on its way into the wait. */
  predicate Past(w: Worker) {
    w != WLocks && w != WHolds
  }

  lemma WorkerStep(s: State, m: Move)
    requires Over(s) && Past(s.worker) && m != Stop && m != Spurious
    ensures Past(Step(s, m).worker) && StepsLeft(Step(s, m).worker) <= StepsLeft(s.worker)
    ensures m == Work && Wants(s, Work) ==> StepsLeft(Step(s, m).worker) < StepsLeft(s.worker)
  {
    hide Exclusive, InOrder, NothingLost, WillWake;
  }

  lemma WorkerCan(s: State)
    requires Over(s) && Past(s.worker) && s.worker != WSleeps && s.worker != WEnded && s.lock == Nobody
    ensures Wants(s, Work)
  {
    hide InOrder, NothingLost, WillWake;
  }

  lemma {:induction false} NoFarther(s: State, run: nat -> Move, n: nat, k: nat)
    requires Over(s) && Orderly(run) && Past(After(s, run, n).worker) && n <= k
    ensures Past(After(s, run, k).worker) && StepsLeft(After(s, run, k).worker) <= StepsLeft(After(s, run, n).worker)
    decreases k
  {
    hide *;
    if n < k {
      NoFarther(s, run, n, k - 1);
      OverAfter(s, run, k - 1);
      OneMore(s, run, k - 1);
      WorkerStep(After(s, run, k - 1), run(k - 1));
    }
  }

  ghost predicate NeverNearer(s: State, run: nat -> Move, n: nat) {
    forall k: nat :: n <= k ==> StepsLeft(After(s, run, k).worker) >= StepsLeft(After(s, run, n).worker)
  }

  /** A worker that neither sleeps nor is about to comes nearer to its end. */
  lemma AwakeComesNearer(s: State, run: nat -> Move, n: nat)
    requires Over(s) && Orderly(run) && Fair(s, run) && Past(After(s, run, n).worker)
    requires After(s, run, n).worker != WSleeps && After(s, run, n).worker != WEnded
    ensures !NeverNearer(s, run, n)
  {
    hide *;
    if NeverNearer(s, run, n) {
      forall j: nat
        ensures WantsFrom(s, run, Work, j)
      {
        var i := if n <= j then j else n;
        OverIsInv(s);
        var k := FreeAt(s, run, i);
        StaysAwake(s, run, n, k);
        OverAfter(s, run, k);
        WorkerCan(After(s, run, k));
        IsWantsFrom(s, run, Work, j, k);
      }
      AddIsTurn(0);
      var k := TakenAgain(s, run, Work, n);
      NoFarther(s, run, n, k);
      OverAfter(s, run, k);
      OneMore(s, run, k);
      WorkerStep(After(s, run, k), Work);
      NotNearer(s, run, n, k + 1);
    }
  }

  lemma NotNearer(s: State, run: nat -> Move, n: nat, k: nat)
    requires NeverNearer(s, run, n) && n <= k
    ensures StepsLeft(After(s, run, k).worker) >= StepsLeft(After(s, run, n).worker)
  {
  }

  lemma StaysAwake(s: State, run: nat -> Move, n: nat, k: nat)
    requires Over(s) && Orderly(run) && Past(After(s, run, n).worker) && n <= k && NeverNearer(s, run, n)
    requires After(s, run, n).worker != WSleeps && After(s, run, n).worker != WEnded
    ensures
      && Past(After(s, run, k).worker) && After(s, run, k).worker != WSleeps && After(s, run, k).worker != WEnded
  {
    hide After, Over, Orderly;
    NoFarther(s, run, n, k);
    NotNearer(s, run, n, k);
  }

  /** The worker is past the wait, or somebody is about to wake it. */
  ghost predicate WillEnd(s: State) {
    Past(s.worker) && (s.worker == WSleeps ==> exists t: nat :: AboutToNotify(At(s, t)))
  }

  lemma {:induction false} EndsFrom(s: State, run: nat -> Move, n: nat)
    requires Over(s) && Orderly(run) && Fair(s, run) && WillEnd(After(s, run, n))
    ensures Ends(s, run)
    decreases StepsLeft(After(s, run, n).worker)
  {
    hide After, Over, Orderly, Fair, At, AboutToNotify;
    var w := After(s, run, n).worker;
    if w != WEnded {
      var k: nat;
      if w == WSleeps {
        var t: nat :| AboutToNotify(At(After(s, run, n), t));
        OverIsInv(s);
        SleeperWakes(s, run, n, t);
        k :| n <= k && After(s, run, k).worker != WSleeps;
      } else {
        AwakeComesNearer(s, run, n);
        k :| n <= k && StepsLeft(After(s, run, k).worker) < StepsLeft(w);
      }
      NoFarther(s, run, n, k);
      EndsFrom(s, run, k);
    }
  }

  // ----- the worker sleeps for ever -----

  /** Nobody holds the lock or has anything left to do, and the worker sleeps. */
  ghost predicate Quiet(s: State) {
    s.worker == WSleeps && s.shutdown == SDone && s.lock == Nobody && forall t: nat :: At(s, t) == AIdle
  }

  lemma QuietStep(s: State, m: Move)
    requires Quiet(s) && IsTurn(m)
    ensures Step(s, m) == s
  {
  }

  function Pending(s: State): set<nat> {
    set t | t in s.adders && s.adders[t] != AIdle
  }

  function Thrice(t: nat): seq<Move> {
    [Add(t), Add(t), Add(t)]
  }

  lemma RunThrice(s: State, t: nat)
    ensures Run(s, Thrice(t)) == Added(Added(Added(s, t), t), t)
  {
    hide Run, Step, Added;
    var one, two := Added(s, t), Added(Added(s, t), t);
    AddStep(s, t);
    AddStep(one, t);
    AddStep(two, t);
    RunFirst(s, Add(t), [Add(t), Add(t)]);
    RunFirst(one, Add(t), [Add(t)]);
    RunFirst(two, Add(t), []);
    RunNothing(Added(two, t));
    assert Thrice(t) == [Add(t)] + [Add(t), Add(t)];
    assert [Add(t), Add(t)] == [Add(t)] + [Add(t)];
    assert [Add(t)] == [Add(t)] + [];
  }

  lemma AddStep(s: State, t: nat)
    ensures Step(s, Add(t)) == Added(s, t)
  {
  }

  /** A thread that is not kept from the lock leaves `addTask`, and does not wake the worker. */
  lemma AdderLeaves(s: State, t: nat)
    requires Over(s) && !WillEnd(s) && t in Pending(s)
    requires s.lock == TheAdder(t) || s.lock == Nobody || At(s, t) == ANotifies
    ensures var s' := Run(s, Thrice(t));
      && Over(s') && s'.worker == s.worker && !WillEnd(s') && Pending(s') == Pending(s) - {t}
  {
    hide *;
    var one, two := Added(s, t), Added(Added(s, t), t);
    RunThrice(s, t);
    AddStep(s, t);
    AddStep(one, t);
    AddStep(two, t);
    OverStep(s, Add(t));
    OverStep(one, Add(t));
    OverStep(two, Add(t));
    AdderOut(s, t);
    OneLess(s, Added(two, t), t);
  }

  lemma OneLess(s: State, s': State, t: nat)
    requires !WillEnd(s) && t in Pending(s) && s'.worker == s.worker && s'.adders == s.adders[t := AIdle]
    ensures !WillEnd(s') && Pending(s') == Pending(s) - {t}
  {
    forall u: nat | s.worker == WSleeps
      ensures !AboutToNotify(At(s', u))
    {
      assert !AboutToNotify(At(s, u));
    }
  }

  lemma AdderOut(s: State, t: nat)
    requires Over(s) && !WillEnd(s) && t in Pending(s)
    requires s.lock == TheAdder(t) || s.lock == Nobody || At(s, t) == ANotifies
    ensures var s' := Added(Added(Added(s, t), t), t);
      && s'.worker == s.worker && s'.adders == s.adders[t := AIdle]
  {
    hide InOrder, NothingLost, WillWake;
  }

  /** The schedule that lets everybody else finish before the worker waits. */
  lemma {:induction false} Settles(s: State) returns (moves: seq<Move>)
    requires Over(s) && !WillEnd(s)
    ensures Quiet(Run(s, moves)) && forall m :: m in moves ==> IsTurn(m)
    decreases |Pending(s)|, if s.worker == WLocks then 2 else if s.worker == WHolds then 1 else 0
  {
    hide *;
    var t, found := NextAdder(s);
    if found {
      AdderLeaves(s, t);
      FewerPending(s, t);
      var rest := Settles(Run(s, Thrice(t)));
      RunSplit(s, Thrice(t), rest);
      AddIsTurn(t);
      moves := Thrice(t) + rest;
      ThriceTurns(t);
    } else if s.worker == WSleeps {
      SleepsQuietly(s);
      moves := [];
      RunNothing(s);
    } else {
      GoesToSleep(s);
      OverStep(s, Work);
      var rest := Settles(Step(s, Work));
      AddIsTurn(0);
      moves := [Work] + rest;
      RunFirst(s, Work, rest);
    }
  }

  lemma ThriceTurns(t: nat)
    ensures forall m :: m in Thrice(t) ==> IsTurn(m)
  {
  }

  lemma RunFirst(s: State, m: Move, rest: seq<Move>)
    ensures Run(s, [m] + rest) == Run(Step(s, m), rest)
  {
    assert ([m] + rest)[1..] == rest;
  }

  lemma RunNothing(s: State)
    ensures Run(s, []) == s
  {
  }

  lemma FewerPending(s: State, t: nat)
    requires t in Pending(s)
    ensures |Pending(s) - {t}| < |Pending(s)|
  {
  }

  /** The thread that is to finish next: the one with the lock, one that notifies, or, while the
      lock is free, any. */
  lemma NextAdder(s: State) returns (t: nat, found: bool)
    requires Over(s)
    ensures found ==> t in Pending(s) && (s.lock == TheAdder(t) || s.lock == Nobody || At(s, t) == ANotifies)
    ensures !found ==> !s.lock.TheAdder? && forall u: nat :: At(s, u) != ANotifies
    ensures !found && s.lock == Nobody ==> Pending(s) == {}
  {
    hide InOrder, NothingLost, WillWake, Shutting;
    t, found := 0, true;
    if s.lock.TheAdder? {
      assert AdderHolds(At(s, s.lock.thread));
      t := s.lock.thread;
    } else if u: nat :| At(s, u) == ANotifies {
      t := u;
    } else if s.lock == Nobody && Pending(s) != {} {
      t :| t in Pending(s);
    } else {
      found := false;
    }
  }

  lemma SleepsQuietly(s: State)
    requires Over(s) && s.worker == WSleeps && !s.lock.TheAdder?
    requires s.lock == Nobody ==> Pending(s) == {}
    ensures Quiet(s)
  {
    hide InOrder, NothingLost, WillWake, Shutting;
    forall t: nat
      ensures At(s, t) == AIdle
    {
      assert t !in Pending(s);
    }
  }

  lemma GoesToSleep(s: State)
    requires Over(s) && !WillEnd(s) && s.worker != WSleeps
    requires !s.lock.TheAdder? && forall u: nat :: At(s, u) != ANotifies
    ensures s.worker == WLocks || s.worker == WHolds
    ensures var s' := Step(s, Work);
      && s'.adders == s.adders && !WillEnd(s') && Pending(s') == Pending(s)
      && s'.worker == if s.worker == WLocks then WHolds else WSleeps
  {
    hide InOrder, NothingLost, WillWake;
    var s' := Step(s, Work);
    assert s'.adders == s.adders;
    forall t: nat
      ensures !AboutToNotify(At(s', t))
    {
      assert At(s', t) == At(s, t);
      assert s.lock == TheAdder(t) <==> AdderHolds(At(s, t));
    }
  }

  /** The moves of a list, and then nothing but the finished shutdown's. */
  function AndThenNothing(moves: seq<Move>): nat -> Move {
    (n: nat) => if n < |moves| then moves[n] else Shut
  }

  lemma {:induction false} AfterList(s: State, moves: seq<Move>, n: nat)
    requires n <= |moves|
    ensures After(s, AndThenNothing(moves), n) == Run(s, moves[..n])
  {
    hide Step;
    if n == 0 {
    } else {
      AfterList(s, moves, n - 1);
      RunSplit(s, moves[..n - 1], [moves[n - 1]]);
      assert moves[..n] == moves[..n - 1] + [moves[n - 1]];
      RunFirst(Run(s, moves[..n - 1]), moves[n - 1], []);
    }
  }

  lemma {:induction false} QuietAfter(s: State, moves: seq<Move>, n: nat)
    requires Quiet(Run(s, moves)) && n >= |moves|
    ensures After(s, AndThenNothing(moves), n) == Run(s, moves)
  {
    hide Step, Quiet;
    if n == |moves| {
      AfterList(s, moves, n);
      assert moves[..n] == moves;
    } else {
      QuietAfter(s, moves, n - 1);
      QuietStep(Run(s, moves), Shut);
    }
  }

  lemma {:induction false} EndedStays(s: State, run: nat -> Move, n: nat, k: nat)
    requires n <= k && After(s, run, n).worker == WEnded
    ensures After(s, run, k).worker == WEnded
    decreases k
  {
    hide Step;
    if n < k {
      EndedStays(s, run, n, k - 1);
      EndedStep(After(s, run, k - 1), run(k - 1));
    }
  }

  lemma EndedStep(s: State, m: Move)
    requires s.worker == WEnded
    ensures Step(s, m).worker == WEnded
  {
  }

  lemma TurnsAreOrderly(moves: seq<Move>)
    requires forall m :: m in moves ==> IsTurn(m)
    ensures Orderly(AndThenNothing(moves))
  {
    forall n: nat
      ensures IsTurn(AndThenNothing(moves)(n))
    {
      assert n < |moves| ==> moves[n] in moves;
    }
  }

  /** That schedule is fair, and the worker never ends. */
  lemma NeverEnds(s: State, moves: seq<Move>)
    requires Quiet(Run(s, moves)) && forall m :: m in moves ==> IsTurn(m)
    ensures var run := AndThenNothing(moves); Orderly(run) && Fair(s, run) && !Ends(s, run)
  {
    hide After, Step, Quiet, Run;
    var run := AndThenNothing(moves);
    TurnsAreOrderly(moves);
    forall m: Move | IsTurn(m)
      ensures !AgainWants(s, run, m)
    {
      forall k: nat | |moves| <= k
        ensures !Wants(After(s, run, k), m)
      {
        QuietAfter(s, moves, k);
        QuietStep(Run(s, moves), m);
      }
      assert !WantsFrom(s, run, m, |moves|);
    }
    forall n: nat
      ensures After(s, run, n).worker != WEnded
    {
      var k := if n < |moves| then |moves| else n;
      QuietAfter(s, moves, k);
      QuietSleeps(Run(s, moves));
      if After(s, run, n).worker == WEnded {
        EndedStays(s, run, n, k);
      }
    }
  }

  lemma QuietSleeps(s: State)
    requires Quiet(s)
    ensures s.worker == WSleeps
  {
  }

  // ----- the exact condition -----

  /** When the shutdown is over, every fair continuation, calls of `addTask` included, lets the
      worker leave its loop exactly when it is not on its way into the wait and, if it waits,
      some thread is still about to notify it. */
  lemma WorkerEndsExactlyWhen(moves: seq<Move>)
    requires Run(INITIAL, moves).shutdown == SDone && Run(INITIAL, moves).phase == Terminated
    ensures var s := Run(INITIAL, moves);
      (forall run: nat -> Move :: Orderly(run) && Fair(s, run) ==> Ends(s, run)) <==>
        && s.worker != WLocks && s.worker != WHolds
        && (s.worker == WSleeps ==> exists t: nat :: AboutToNotify(At(s, t)))
  {
    hide Run, Orderly, Fair, Ends, After, Inv, At, AboutToNotify;
    InitialHasInv();
    RunKeepsInv(INITIAL, moves);
    var s := Run(INITIAL, moves);
    if WillEnd(s) {
      forall run: nat -> Move | Orderly(run) && Fair(s, run)
        ensures Ends(s, run)
      {
        AfterNone(s, run);
        EndsFrom(s, run, 0);
      }
    } else {
      var more := Settles(s);
      NeverEnds(s, more);
    }
  }

  lemma AfterNone(s: State, run: nat -> Move)
    ensures After(s, run, 0) == s
  {
  }

  /** A worker that waits when the shutdown comes to its notification is woken by it, and ends in
      every fair continuation. */
  lemma ShutdownWakesSleeper(moves: seq<Move>, run: nat -> Move)
    requires Run(INITIAL, moves).shutdown == SNotifies && Run(INITIAL, moves).phase == Terminated
    requires Run(INITIAL, moves).worker == WSleeps
    requires Orderly(run) && Fair(Run(INITIAL, moves + [Shut]), run)
    ensures Ends(Run(INITIAL, moves + [Shut]), run)
  {
    RunSplit(INITIAL, moves, [Shut]);
    RunFirst(Run(INITIAL, moves), Shut, []);
    RunNothing(Step(Run(INITIAL, moves), Shut));
    assert [Shut] + [] == [Shut];
    WorkerEndsExactlyWhen(moves + [Shut]);
  }

  /** A worker that waits while no thread is about to notify it waits in every continuation
      without a spurious wake-up, whoever calls `addTask` or `stop` meanwhile. */
  lemma {:induction false} SleepsForEver(s: State, more: seq<Move>)
    requires s.worker == WSleeps && s.shutdown == SDone && s.phase != Running
    requires Spurious !in more && forall t: nat :: !AboutToNotify(At(s, t))
    ensures Run(s, more).worker == WSleeps
    decreases |more|
  {
    hide Step, At, AboutToNotify;
    if more != [] {
      SleepsOn(s, more[0]);
      SleepsForEver(Step(s, more[0]), more[1..]);
    }
  }

  lemma SleepsOn(s: State, m: Move)
    requires s.worker == WSleeps && s.shutdown == SDone && s.phase != Running
    requires m != Spurious && forall t: nat :: !AboutToNotify(At(s, t))
    ensures var s' := Step(s, m);
      && s'.worker == WSleeps && s'.shutdown == SDone && s'.phase != Running
      && forall t: nat :: !AboutToNotify(At(s', t))
  {
    var s' := Step(s, m);
    forall t: nat
      ensures !AboutToNotify(At(s', t))
    {
      assert !AboutToNotify(At(s, t));
    }
  }

  /** It happens: the shutdown runs whole between the worker's look at the state and its lock,
      and notifies before the wait. */
  lemma WorkerMaySleepForEver(more: seq<Move>)
    requires Spurious !in more
    ensures
      Run(INITIAL, [Work, Shut, Shut, Shut, Shut, Shut, Shut, Shut, Work, Work] + more).worker == WSleeps
  {
    var early := [Work, Shut, Shut, Shut, Shut, Shut, Shut, Shut, Work, Work];
    RunSplit(INITIAL, early, more);
    EarlyNotify();
    SleepsForEver(INITIAL.(phase := Terminated, worker := WSleeps, shutdown := SDone), more);
  }

  lemma RunFrom(s: State, moves: seq<Move>, k: nat)
    requires k < |moves|
    ensures Run(s, moves[k..]) == Run(Step(s, moves[k]), moves[k + 1..])
  {
    assert moves[k..][1..] == moves[k + 1..];
  }

  lemma EarlyNotify()
    ensures Run(INITIAL, [Work, Shut, Shut, Shut, Shut, Shut, Shut, Shut, Work, Work])
         == INITIAL.(phase := Terminated, worker := WSleeps, shutdown := SDone)
  {
    hide Run;
    var moves := [Work, Shut, Shut, Shut, Shut, Shut, Shut, Shut, Work, Work];
    assert moves[0..] == moves && moves[10..] == [];
    var s := INITIAL.(worker := WLocks);
    RunFrom(INITIAL, moves, 0);
    SetsState(s, moves);
    var terminated := s.(phase := Terminated, shutdown := SLocks);
    Flushes(terminated, moves);
    var done := terminated.(shutdown := SDone);
    RunFrom(done, moves, 8);
    RunFrom(done.(lock := TheWorker, worker := WHolds), moves, 9);
    RunNothing(done.(worker := WSleeps));
  }

  lemma SetsState(s: State, moves: seq<Move>)
    requires s == INITIAL.(worker := WLocks) && moves == [Work, Shut, Shut, Shut, Shut, Shut, Shut, Shut, Work, Work]
    ensures Run(s, moves[1..]) == Run(s.(phase := Terminated, shutdown := SLocks), moves[4..])
  {
    hide Run;
    RunFrom(s, moves, 1);
    RunFrom(s.(lock := TheShutdown, shutdown := SHolds), moves, 2);
    RunFrom(s.(lock := TheShutdown, phase := Terminated, shutdown := SLeaves), moves, 3);
  }

  lemma Flushes(s: State, moves: seq<Move>)
    requires s == INITIAL.(worker := WLocks, phase := Terminated, shutdown := SLocks)
    requires moves == [Work, Shut, Shut, Shut, Shut, Shut, Shut, Shut, Work, Work]
    ensures Run(s, moves[4..]) == Run(s.(shutdown := SDone), moves[8..])
  {
    hide Run;
    RunFrom(s, moves, 4);
    RunFrom(s.(lock := TheShutdown, shutdown := SLooks), moves, 5);
    RunFrom(s.(lock := TheShutdown, shutdown := SCloses), moves, 6);
    RunFrom(s.(shutdown := SNotifies), moves, 7);
  }
}
