/**
 * Which tasks are accepted: a history of the calls of `addTask` and of their locked sections, kept
 * by looking at the moves alone, decides what the queue has been given.
 */
module TaskHistory {
  import opened DatabaseTasks
  import opened FairRuns

  /** A locked section: which thread, the task it was called with, and whether it found the state
      running. */
  datatype Section = Section(thread: nat, task: Task, running: bool)

  /** Calls that have not been through their locked section yet, with their tasks. */
  type Calls = map<nat, Task>

  /** This move is the locked section of a call. */
  predicate IsSection(s: State, m: Move) {
    m.Add? && At(s, m.thread).AHolds?
  }

  function CallsAfterOne(s: State, m: Move, calls: Calls): Calls {
    match m
    case Call(t, task) => if At(s, t) == AIdle then calls[t := task] else calls
    case Add(t) => if IsSection(s, m) then calls - {t} else calls
    case _ => calls
  }

  function CallsAfter(s: State, moves: seq<Move>, calls: Calls): Calls
    decreases |moves|
  {
    if moves == [] then calls else CallsAfter(Step(s, moves[0]), moves[1..], CallsAfterOne(s, moves[0], calls))
  }

  /** The locked sections of a run, in order. */
  function Sections(s: State, moves: seq<Move>, calls: Calls): seq<Section>
    decreases |moves|
  {
    if moves == [] then []
    else
      var m := moves[0];
      (if IsSection(s, m) && m.thread in calls then [Section(m.thread, calls[m.thread], s.phase == Running)] else [])
      + Sections(Step(s, m), moves[1..], CallsAfterOne(s, m, calls))
  }

  /** The tasks of the sections that found the state running. */
  function Welcome(sections: seq<Section>): seq<Task> {
    if sections == [] then []
    else (if sections[0].running then [sections[0].task] else []) + Welcome(sections[1..])
  }

  lemma WelcomeFirst(first: seq<Section>, later: seq<Section>)
    requires |first| <= 1
    ensures Welcome(first + later) == (if first != [] && first[0].running then [first[0].task] else []) + Welcome(later)
  {
    if first == [] {
      assert first + later == later;
    } else {
      assert (first + later)[1..] == later;
    }
  }

  /** The open calls are those of the threads before or in their locked section. */
  ghost predicate Open(s: State, calls: Calls) {
    forall t: nat ::
      && (t in calls <==> At(s, t).ALocks? || At(s, t).AHolds?)
      && (t in calls ==> calls[t] == At(s, t).task)
  }

  lemma OpenStep(s: State, m: Move, calls: Calls)
    requires Open(s, calls)
    ensures Open(Step(s, m), CallsAfterOne(s, m, calls))
  {
  }

  /** One move adds the task of its section, if it is one and finds the state running, behind all
      others, whatever waits. */
  lemma AcceptsOne(s: State, m: Move, calls: Calls)
    requires Open(s, calls)
    ensures Step(s, m).accepted
         == s.accepted + if IsSection(s, m) && s.phase == Running then [calls[m.thread]] else []
  {
  }

  lemma {:induction false} AcceptedFrom(s: State, moves: seq<Move>, calls: Calls)
    requires Open(s, calls)
    ensures Open(Run(s, moves), CallsAfter(s, moves, calls))
    ensures Run(s, moves).accepted == s.accepted + Welcome(Sections(s, moves, calls))
    decreases |moves|
  {
    hide Step, Open, IsSection, CallsAfterOne, Welcome;
    if moves == [] {
      WelcomeNone();
    } else {
      var m, rest := moves[0], moves[1..];
      OpenStep(s, m, calls);
      AcceptsOne(s, m, calls);
      AcceptedFrom(Step(s, m), rest, CallsAfterOne(s, m, calls));
      var later := Sections(Step(s, m), rest, CallsAfterOne(s, m, calls));
      SectionOf(s, m, calls);
      var first := if IsSection(s, m) then [Section(m.thread, calls[m.thread], s.phase == Running)] else [];
      WelcomeFirst(first, later);
      assert [] + later == later;
    }
  }

  lemma SectionOf(s: State, m: Move, calls: Calls)
    requires Open(s, calls)
    ensures IsSection(s, m) ==> m.Add? && m.thread in calls
  {
  }

  lemma WelcomeNone()
    ensures Welcome([]) == []
  {
  }

  /** Over every run the accepted tasks are those of the calls whose locked section found the state
      running, in the order of the sections; every call that has left its section, and no other,
      has been through one. */
  lemma AcceptedAreWelcome(moves: seq<Move>)
    ensures Run(INITIAL, moves).accepted == Welcome(Sections(INITIAL, moves, map[]))
    ensures forall t: nat ::
      t in CallsAfter(INITIAL, moves, map[]) <==>
      At(Run(INITIAL, moves), t).ALocks? || At(Run(INITIAL, moves), t).AHolds?
  {
    assert Open(INITIAL, map[]);
    AcceptedFrom(INITIAL, moves, map[]);
  }

  /** A section is followed by a notification exactly when it has put its task into an empty queue. */
  lemma SignalsExactlyWhenEmpty(s: State, m: Move)
    requires IsSection(s, m)
    ensures AboutToNotify(At(Step(s, m), m.thread)) <==> s.phase == Running && s.queue == []
  {
  }

  /** Once the state is no longer running, by `stop` or by the shutdown, nothing is welcome. */
  lemma {:induction false} NothingWelcomeAfterwards(s: State, moves: seq<Move>, calls: Calls)
    requires s.phase != Running
    ensures Welcome(Sections(s, moves, calls)) == []
    decreases |moves|
  {
    hide IsSection, Welcome, CallsAfterOne, Step;
    if moves == [] {
      WelcomeNone();
    } else {
      var m := moves[0];
      StaysClosed(s, m);
      NothingWelcomeAfterwards(Step(s, m), moves[1..], CallsAfterOne(s, m, calls));
      var later := Sections(Step(s, m), moves[1..], CallsAfterOne(s, m, calls));
      SectionIsAdd(s, m);
      if IsSection(s, m) && m.thread in calls {
        WelcomeFirst([Section(m.thread, calls[m.thread], false)], later);
      } else {
        assert [] + later == later;
      }
    }
  }

  lemma SectionIsAdd(s: State, m: Move)
    ensures IsSection(s, m) ==> m.Add?
  {
  }

  lemma StaysClosed(s: State, m: Move)
    ensures s.phase != Running ==> Step(s, m).phase != Running
    ensures Step(s, Stop).phase != Running
    ensures s.shutdown == SHolds ==> Step(s, Shut).phase == Terminated
  {
  }

  // ----- every call comes to its end -----

  function TurnsLeft(a: Adder): nat {
    match a
    case ALocks(_) => 4
    case AHolds(_) => 3
    case ALeaves(_) => 2
    case ANotifies => 1
    case AIdle => 0
  }

  lemma CallStep(s: State, m: Move, t: nat)
    requires At(s, t) != AIdle
    ensures TurnsLeft(At(Step(s, m), t)) <= TurnsLeft(At(s, t))
    ensures m == Add(t) && Wants(s, m) ==> TurnsLeft(At(Step(s, m), t)) < TurnsLeft(At(s, t))
    ensures s.lock == Nobody || !At(s, t).ALocks? ==> Wants(s, Add(t))
  {
  }

  function TurnsOf(t: nat): State -> nat {
    s => TurnsLeft(At(s, t))
  }

  /** In every fair continuation every call of `addTask` returns. */
  lemma {:induction false} CallReturns(s: State, run: nat -> Move, t: nat, n: nat) returns (k: nat)
    requires Inv(s) && Fair(s, run)
    ensures n <= k && At(After(s, run, k), t) == AIdle
    decreases TurnsLeft(At(After(s, run, n), t))
  {
    hide After, Fair, Inv, Step, At, TurnsLeft, Wants;
    if i: nat :| n <= i && At(After(s, run, i), t) == AIdle {
      k := i;
    } else {
      forall j: nat | n <= j
        ensures WantsFrom(s, run, Add(t), j) && FallsAt(s, run, Add(t), TurnsOf(t), j)
      {
        var i := FreeAt(s, run, j);
        CallStep(After(s, run, i), run(i), t);
        IsWantsFrom(s, run, Add(t), j, i);
        AfterOne(s, run, j);
        CallStep(After(s, run, j), run(j), t);
        IsFall(s, run, Add(t), TurnsOf(t), j);
      }
      AddIsTurn(t);
      k := Falls(s, run, Add(t), TurnsOf(t), n);
      k := CallReturns(s, run, t, k);
    }
  }
}
