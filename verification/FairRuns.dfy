/**
 * Endless fair schedules of the worker, the adders and the shutdown: the lock is free again and
 * again, and whoever is about to be notified wakes.
 */
module FairRuns {
  import opened DatabaseTasks

  // ----- endless continuations -----

  /** The state after `n` moves of an endless schedule. */
  ghost function After(s: State, run: nat -> Move, n: nat): State {
    if n == 0 then s else Step(After(s, run, n - 1), run(n - 1))
  }

  /** A thread that has begun and could move. */
  predicate Wants(s: State, m: Move) {
    Step(s, m) != s && (m == Shut ==> s.shutdown != SNotYet)
  }

  ghost predicate WantsFrom(s: State, run: nat -> Move, m: Move, n: nat) {
    exists k: nat :: n <= k && Wants(After(s, run, k), m)
  }

  ghost predicate TakenFrom(s: State, run: nat -> Move, m: Move, n: nat) {
    exists k: nat :: n <= k && run(k) == m && Wants(After(s, run, k), m)
  }

  ghost predicate AgainWants(s: State, run: nat -> Move, m: Move) {
    forall n: nat :: WantsFrom(s, run, m, n)
  }

  ghost predicate AgainTaken(s: State, run: nat -> Move, m: Move) {
    forall n: nat :: TakenFrom(s, run, m, n)
  }

  predicate IsTurn(m: Move) {
    m == Work || m == Shut || m.Add?
  }

  /** A thread that again and again could move moves again and again, the lock being granted in
      turn. Nobody has to call `addTask`, to begin the shutdown, or to wake without a notification. */
  ghost predicate Fair(s: State, run: nat -> Move) {
    forall m: Move :: IsTurn(m) && AgainWants(s, run, m) ==> AgainTaken(s, run, m)
  }

  lemma {:induction false} InvAfter(s: State, run: nat -> Move, n: nat)
    requires Inv(s)
    ensures Inv(After(s, run, n))
  {
    hide Inv, Step;
    if n > 0 {
      InvAfter(s, run, n - 1);
      StepKeepsInv(After(s, run, n - 1), run(n - 1));
    }
  }

  // ----- the lock is free again and again -----

  function TurnOf(o: Owner): Move {
    match o
    case TheAdder(t) => Add(t)
    case TheShutdown => Shut
    case _ => Work
  }

  /** How many turns its holder still takes with the lock. */
  function TurnsHeld(s: State): nat {
    match s.lock
    case TheAdder(t) => if At(s, t).AHolds? then 2 else 1
    case TheWorker => if s.worker.WHolds? then 3 else if s.worker.WChecks? then 2 else 1
    case TheShutdown => if s.shutdown.SHolds? || s.shutdown.SLooks? then 2 else 1
    case Nobody => 0
  }

  lemma HolderStep(s: State, m: Move)
    requires Inv(s) && s.lock != Nobody
    ensures Step(s, m).lock == s.lock || Step(s, m).lock == Nobody
    ensures Step(s, m).lock == s.lock ==> TurnsHeld(Step(s, m)) <= TurnsHeld(s)
    ensures Wants(s, TurnOf(s.lock))
    ensures m == TurnOf(s.lock) && Step(s, m).lock == s.lock ==> TurnsHeld(Step(s, m)) < TurnsHeld(s)
  {
    hide InOrder, NothingLost, WillWake, Shutting, AboutToNotify;
  }

  ghost predicate NeverFree(s: State, run: nat -> Move, n: nat) {
    forall k: nat :: n <= k ==> After(s, run, k).lock != Nobody
  }

  lemma {:induction false} HeldOn(s: State, run: nat -> Move, n: nat, k: nat)
    requires Inv(s) && NeverFree(s, run, n) && n <= k
    ensures After(s, run, k).lock == After(s, run, n).lock
    ensures TurnsHeld(After(s, run, k)) <= TurnsHeld(After(s, run, n))
    ensures Wants(After(s, run, k), TurnOf(After(s, run, n).lock))
    decreases k
  {
    hide *;
    InvAfter(s, run, k);
    NotFree(s, run, n, k);
    HolderStep(After(s, run, k), Work);
    if n < k {
      InvAfter(s, run, k - 1);
      HeldOn(s, run, n, k - 1);
      NotFree(s, run, n, k - 1);
      AfterOne(s, run, k - 1);
      HolderStep(After(s, run, k - 1), run(k - 1));
    }
  }

  lemma AfterOne(s: State, run: nat -> Move, n: nat)
    ensures After(s, run, n + 1) == Step(After(s, run, n), run(n))
  {
  }

  lemma NotFree(s: State, run: nat -> Move, n: nat, k: nat)
    requires NeverFree(s, run, n) && n <= k
    ensures After(s, run, k).lock != Nobody && NeverFree(s, run, k)
  {
  }

  lemma Taken(s: State, run: nat -> Move, m: Move, n: nat) returns (k: nat)
    requires Fair(s, run) && IsTurn(m)
    requires forall j: nat :: n <= j ==> Wants(After(s, run, j), m)
    ensures n <= k && run(k) == m && Wants(After(s, run, k), m)
  {
    hide Wants, After;
    forall j: nat
      ensures WantsFrom(s, run, m, j)
    {
      var i := if n <= j then j else n;
      assert Wants(After(s, run, i), m);
    }
    assert AgainWants(s, run, m);
    assert TakenFrom(s, run, m, n);
    k :| n <= k && run(k) == m && Wants(After(s, run, k), m);
  }

  /** No lock is held for ever. */
  lemma {:induction false} FreeAgain(s: State, run: nat -> Move, n: nat)
    requires Inv(s) && Fair(s, run)
    ensures !NeverFree(s, run, n)
    decreases TurnsHeld(After(s, run, n))
  {
    hide *;
    if NeverFree(s, run, n) {
      var m := TurnOf(After(s, run, n).lock);
      forall j: nat | n <= j
        ensures Wants(After(s, run, j), m)
      {
        HeldOn(s, run, n, j);
      }
      TurnIsTurn(After(s, run, n).lock);
      var k := Taken(s, run, m, n);
      HeldOn(s, run, n, k);
      HeldOn(s, run, n, k + 1);
      InvAfter(s, run, k);
      NotFree(s, run, n, k);
      NotFree(s, run, n, k + 1);
      AfterOne(s, run, k);
      HolderStep(After(s, run, k), m);
      FreeAgain(s, run, k + 1);
    }
  }

  lemma TurnIsTurn(o: Owner)
    ensures IsTurn(TurnOf(o))
  {
  }

  lemma FreeAt(s: State, run: nat -> Move, n: nat) returns (k: nat)
    requires Inv(s) && Fair(s, run)
    ensures n <= k && After(s, run, k).lock == Nobody
  {
    hide After, Inv, Fair;
    FreeAgain(s, run, n);
    k :| n <= k && After(s, run, k).lock == Nobody;
  }

  lemma IsWantsFrom(s: State, run: nat -> Move, m: Move, n: nat, k: nat)
    requires n <= k && Wants(After(s, run, k), m)
    ensures WantsFrom(s, run, m, n)
  {
  }

  lemma TakenAgain(s: State, run: nat -> Move, m: Move, n: nat) returns (k: nat)
    requires Fair(s, run) && IsTurn(m)
    requires forall j: nat :: WantsFrom(s, run, m, j)
    ensures n <= k && run(k) == m && Wants(After(s, run, k), m)
  {
    hide Wants, After;
    assert AgainWants(s, run, m);
    assert TakenFrom(s, run, m, n);
    k :| n <= k && run(k) == m && Wants(After(s, run, k), m);
  }

  // The notification.

  function TurnsToNotify(a: Adder): nat {
    if a == ALeaves(true) then 2 else if a == ANotifies then 1 else 0
  }

  lemma NotifierStep(s: State, m: Move, t: nat)
    requires Inv(s) && s.worker == WSleeps && AboutToNotify(At(s, t)) && Step(s, m).worker == WSleeps
    ensures Wants(s, Add(t)) && AboutToNotify(At(Step(s, m), t))
    ensures TurnsToNotify(At(Step(s, m), t)) <= TurnsToNotify(At(s, t))
    ensures m == Add(t) ==> TurnsToNotify(At(Step(s, m), t)) < TurnsToNotify(At(s, t))
  {
    hide Inv;
  }

  ghost predicate NeverWakes(s: State, run: nat -> Move, n: nat) {
    forall k: nat :: n <= k ==> After(s, run, k).worker == WSleeps
  }

  lemma {:induction false} OwesOn(s: State, run: nat -> Move, n: nat, t: nat, k: nat)
    requires Inv(s) && NeverWakes(s, run, n) && n <= k && AboutToNotify(At(After(s, run, n), t))
    ensures After(s, run, k).worker == After(s, run, k + 1).worker == WSleeps && Wants(After(s, run, k), Add(t))
    ensures AboutToNotify(At(After(s, run, k), t))
    ensures TurnsToNotify(At(After(s, run, k), t)) <= TurnsToNotify(At(After(s, run, n), t))
    decreases k
  {
    hide *;
    Sleeping(s, run, n, k);
    Sleeping(s, run, n, k + 1);
    if n < k {
      OwesOn(s, run, n, t, k - 1);
      InvAfter(s, run, k - 1);
      AfterOne(s, run, k - 1);
      NotifierStep(After(s, run, k - 1), run(k - 1), t);
    }
    InvAfter(s, run, k);
    AfterOne(s, run, k);
    NotifierStep(After(s, run, k), run(k), t);
  }

  lemma Sleeping(s: State, run: nat -> Move, n: nat, k: nat)
    requires NeverWakes(s, run, n) && n <= k
    ensures After(s, run, k).worker == WSleeps && NeverWakes(s, run, k)
  {
  }

  /** A worker that some thread is about to notify wakes. */
  lemma {:induction false} SleeperWakes(s: State, run: nat -> Move, n: nat, t: nat)
    requires Inv(s) && Fair(s, run) && AboutToNotify(At(After(s, run, n), t))
    ensures !NeverWakes(s, run, n)
    decreases TurnsToNotify(At(After(s, run, n), t))
  {
    hide *;
    if NeverWakes(s, run, n) {
      forall j: nat | n <= j
        ensures Wants(After(s, run, j), Add(t))
      {
        OwesOn(s, run, n, t, j);
      }
      AddIsTurn(t);
      var k := Taken(s, run, Add(t), n);
      OwesOn(s, run, n, t, k);
      OwesOn(s, run, n, t, k + 1);
      InvAfter(s, run, k);
      AfterOne(s, run, k);
      NotifierStep(After(s, run, k), Add(t), t);
      Sleeping(s, run, n, k + 1);
      SleeperWakes(s, run, k + 1, t);
    }
  }

  lemma AddIsTurn(t: nat)
    ensures IsTurn(Add(t)) && IsTurn(Work)
  {
  }

  // ----- what falls whenever a thread moves -----

  /** This step does not raise the rank, and lowers it if it is a move of the thread. */
  ghost predicate FallsAt(s: State, run: nat -> Move, m: Move, rank: State -> nat, i: nat) {
    && rank(After(s, run, i + 1)) <= rank(After(s, run, i))
    && (run(i) == m && Wants(After(s, run, i), m) ==> rank(After(s, run, i + 1)) < rank(After(s, run, i)))
  }

  lemma {:induction false} NeverRises(s: State, run: nat -> Move, m: Move, rank: State -> nat, n: nat, k: nat)
    requires n <= k && forall i: nat :: n <= i ==> FallsAt(s, run, m, rank, i)
    ensures rank(After(s, run, k)) <= rank(After(s, run, n))
    decreases k
  {
    hide After;
    if n < k {
      NeverRises(s, run, m, rank, n, k - 1);
      assert FallsAt(s, run, m, rank, k - 1);
    }
  }

  /** Of a thread that can move again and again such a rank falls. */
  lemma Falls(s: State, run: nat -> Move, m: Move, rank: State -> nat, n: nat) returns (k: nat)
    requires Fair(s, run) && IsTurn(m)
    requires forall j: nat :: n <= j ==> WantsFrom(s, run, m, j)
    requires forall i: nat :: n <= i ==> FallsAt(s, run, m, rank, i)
    ensures n <= k && rank(After(s, run, k)) < rank(After(s, run, n))
  {
    hide After, Fair, WantsFrom;
    forall j: nat
      ensures WantsFrom(s, run, m, j)
    {
      var i := if n <= j then j else n;
      WantsEarlier(s, run, m, j, i);
    }
    var at := TakenAgain(s, run, m, n);
    NeverRises(s, run, m, rank, n, at);
    assert FallsAt(s, run, m, rank, at);
    k := at + 1;
  }

  lemma WantsEarlier(s: State, run: nat -> Move, m: Move, n: nat, k: nat)
    requires n <= k && WantsFrom(s, run, m, k)
    ensures WantsFrom(s, run, m, n)
  {
  }

  lemma IsFall(s: State, run: nat -> Move, m: Move, rank: State -> nat, i: nat)
    requires rank(After(s, run, i + 1)) <= rank(After(s, run, i))
    requires run(i) == m && Wants(After(s, run, i), m) ==> rank(After(s, run, i + 1)) < rank(After(s, run, i))
    ensures FallsAt(s, run, m, rank, i)
  {
  }
}
