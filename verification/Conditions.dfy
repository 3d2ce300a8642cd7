/**
 * The conditions of a creature and the speed they add: no two conditions of the same kind, and
 * the variable part of the speed is what the listed conditions and nobody else's changes add up to.
 */
module Conditions {
  import opened Basics

  datatype Type = Haste | Paralyze | Other(code: nat)

  datatype Key = Key(kind: Type, id: int, subId: nat)

  /** What a condition stores. Only conditions of speed use `delta`. */
  datatype Cond = Cond(key: Key, ticks: int, endTime: int, delta: int)

  predicate IsSpeed(kind: Type) { kind == Haste || kind == Paralyze }

  datatype State = State(list: seq<Cond>, varSpeed: int, others: int)

  // ----- the books -----

  function Delta(c: Cond): int {
    if IsSpeed(c.key.kind) then c.delta else 0
  }

  function SpeedSum(list: seq<Cond>): int {
    if list == [] then 0 else Delta(list[0]) + SpeedSum(list[1..])
  }

  predicate Unique(list: seq<Cond>) {
    forall i, j :: 0 <= i < j < |list| ==> list[i].key != list[j].key
  }

  predicate Balanced(s: State) {
    Unique(s.list) && s.varSpeed == SpeedSum(s.list) + s.others
  }

  // ----- the operations -----

  /** A roll stands for the random number that a formula gives when no delta is set. */
  datatype Action =
    | Add(cond: Cond, now: int, roll: int, delayed: bool)
    | RemoveType(kind: Type, id: Option<int>, delayed: bool)
    | RemoveOne(key: Key, delayed: bool)
    | Execute(interval: nat, now: int, verdict: Key -> bool)
    | Change(delta: int)

  function Find(list: seq<Cond>, key: Key): (k: nat)
    ensures k <= |list| && (k < |list| ==> list[k].key == key) && forall i :: 0 <= i < k ==> list[i].key != key
  {
    if list == [] || list[0].key == key then 0 else 1 + Find(list[1..], key)
  }

  /** `setTicks`. */
  function Timed(c: Cond, ticks: int, now: int): Cond {
    c.(ticks := ticks, endTime := ticks + now)
  }

  /** `startCondition`. */
  function StartedCond(c: Cond, now: int, roll: int): Cond {
    var t := if c.ticks > 0 then Timed(c, c.ticks, now) else c;
    if IsSpeed(c.key.kind) && c.delta == 0 then t.(delta := roll) else t
  }

  /** `updateCondition`, for the kinds without a speed. */
  predicate Renews(c: Cond, added: Cond, now: int) {
    !(c.ticks == -1 && added.ticks > 0) && !(added.ticks >= 0 && c.endTime > now + added.ticks)
  }

  /** `addCondition` of the condition that is already there. */
  function MergedCond(c: Cond, added: Cond, now: int, roll: int): Cond {
    if IsSpeed(c.key.kind) then
      if c.ticks == -1 && added.ticks > 0 then c
      else Timed(c, added.ticks, now).(delta := if added.delta == 0 then roll else added.delta)
    else if Renews(c, added, now) then Timed(c, added.ticks, now) else c
  }

  /** Which conditions an operation ends. */
  datatype Filter = OfType(kind: Type, id: Option<int>) | OfKey(key: Key) | Over(now: int, verdict: Key -> bool)

  predicate Ends(f: Filter, c: Cond) {
    match f
    case OfType(kind, id) => c.key.kind == kind && (id == None || id == Some(c.key.id))
    case OfKey(key) => c.key == key
    case Over(now, verdict) => !Lasts(c, now, verdict)
  }

  /** The conditions that end (or, if not `ended`, that stay). */
  function Where(list: seq<Cond>, f: Filter, ended: bool): seq<Cond> {
    if list == [] then [] else (if Ends(f, list[0]) == ended then [list[0]] else []) + Where(list[1..], f, ended)
  }

  /** The conditions leave and take their speed with them. */
  function Removed(s: State, f: Filter): State {
    s.(list := Where(s.list, f, false), varSpeed := s.varSpeed - SpeedSum(Where(s.list, f, true)))
  }

  /** `executeCondition`: a speed runs until its end time, the other kinds as they decide. */
  predicate Lasts(c: Cond, now: int, verdict: Key -> bool) {
    if IsSpeed(c.key.kind) then c.ticks == -1 || c.endTime >= now else verdict(c.key)
  }

  function Ran(c: Cond, interval: nat): Cond {
    if !IsSpeed(c.key.kind) || c.ticks == -1 then c
      else c.(ticks := if c.ticks - interval < 0 then 0 else c.ticks - interval)
  }

  function Executed(list: seq<Cond>, interval: nat, now: int, verdict: Key -> bool): seq<Cond> {
    if list == [] then []
    else
      (if Lasts(list[0], now, verdict) then [Ran(list[0], interval)] else [])
      + Executed(list[1..], interval, now, verdict)
  }

  function Step(s: State, a: Action): State {
    match a
    case Add(cond, now, roll, delayed) =>
      var k := Find(s.list, cond.key);
      if delayed then s
      else if k < |s.list| then
        var merged := MergedCond(s.list[k], cond, now, roll);
        s.(list := s.list[k := merged], varSpeed := s.varSpeed + Delta(merged) - Delta(s.list[k]))
      else
        var started := StartedCond(cond, now, roll);
        s.(list := s.list + [started], varSpeed := s.varSpeed + Delta(started))
    case RemoveType(kind, id, delayed) =>
      if delayed && kind == Paralyze then s else Removed(s, OfType(kind, id))
    case RemoveOne(key, delayed) =>
      if delayed && key.kind == Paralyze then s else Removed(s, OfKey(key))
    case Execute(interval, now, verdict) =>
      Removed(s, Over(now, verdict)).(list := Executed(s.list, interval, now, verdict))
    case Change(delta) => s.(varSpeed := s.varSpeed + delta, others := s.others + delta)
  }

  function Run(s: State, actions: seq<Action>): State
    decreases |actions|
  {
    if actions == [] then s else Run(Step(s, actions[0]), actions[1..])
  }

  // ----- every operation keeps the books -----

  lemma {:induction false} SumSplit(a: seq<Cond>, b: seq<Cond>)
    ensures SpeedSum(a + b) == SpeedSum(a) + SpeedSum(b)
  {
    if a == [] {
      assert a + b == b;
    } else {
      assert (a + b)[1..] == a[1..] + b;
      SumSplit(a[1..], b);
    }
  }

  lemma SumOne(c: Cond)
    ensures SpeedSum([c]) == Delta(c)
  {
    assert [c][1..] == [];
  }

  lemma SumReplaced(list: seq<Cond>, k: nat, c: Cond)
    requires k < |list|
    ensures SpeedSum(list[k := c]) == SpeedSum(list) - Delta(list[k]) + Delta(c)
  {
    hide SpeedSum;
    assert list == list[..k] + ([list[k]] + list[k + 1..]);
    assert list[k := c] == list[..k] + ([c] + list[k + 1..]);
    SumSplit(list[..k], [list[k]] + list[k + 1..]);
    SumSplit(list[..k], [c] + list[k + 1..]);
    SumSplit([list[k]], list[k + 1..]);
    SumSplit([c], list[k + 1..]);
    SumOne(c);
    SumOne(list[k]);
  }

  lemma {:induction false} SumWhere(list: seq<Cond>, f: Filter)
    ensures SpeedSum(Where(list, f, true)) + SpeedSum(Where(list, f, false)) == SpeedSum(list)
  {
    hide Ends;
    if list != [] {
      SumWhere(list[1..], f);
      SumSplit(if Ends(f, list[0]) then [list[0]] else [], Where(list[1..], f, true));
      SumSplit(if Ends(f, list[0]) then [] else [list[0]], Where(list[1..], f, false));
      SumOne(list[0]);
    }
  }

  lemma UniqueFirst(c: Cond, list: seq<Cond>)
    requires Unique(list) && forall d :: d in list ==> d.key != c.key
    ensures Unique([c] + list)
  {
  }

  lemma UniqueRest(list: seq<Cond>)
    requires Unique(list) && list != []
    ensures Unique(list[1..]) && forall d :: d in list[1..] ==> d.key != list[0].key
  {
  }

  lemma {:induction false} UniqueWhere(list: seq<Cond>, f: Filter, ended: bool)
    requires Unique(list)
    ensures Unique(Where(list, f, ended))
    ensures forall c :: c in Where(list, f, ended) ==> c in list && Ends(f, c) == ended
    ensures forall c :: c in list && Ends(f, c) == ended ==> c in Where(list, f, ended)
  {
    hide Ends, Unique;
    if list == [] {
      assert Unique([]) by {
        NoneUnique();
      }
    } else {
      UniqueRest(list);
      UniqueWhere(list[1..], f, ended);
      UniqueFirst(list[0], Where(list[1..], f, ended));
      assert [] + Where(list[1..], f, ended) == Where(list[1..], f, ended);
    }
  }

  lemma NoneUnique()
    ensures Unique([])
  {
  }

  lemma {:induction false} ExecutedIsWhere(list: seq<Cond>, interval: nat, now: int, verdict: Key -> bool)
    requires Unique(list)
    ensures Unique(Executed(list, interval, now, verdict))
    ensures forall c :: c in Executed(list, interval, now, verdict) ==> exists d :: d in list && d.key == c.key
    ensures SpeedSum(Executed(list, interval, now, verdict)) == SpeedSum(Where(list, Over(now, verdict), false))
  {
    hide Unique, Lasts;
    if list == [] {
      NoneUnique();
    } else {
      UniqueRest(list);
      ExecutedIsWhere(list[1..], interval, now, verdict);
      var rest := Executed(list[1..], interval, now, verdict);
      var c := Ran(list[0], interval);
      assert c.key == list[0].key && Delta(c) == Delta(list[0]);
      UniqueFirst(c, rest);
      SumSplit([c], rest);
      SumSplit([list[0]], Where(list[1..], Over(now, verdict), false));
      SumOne(c);
      SumOne(list[0]);
      var stay := Where(list[1..], Over(now, verdict), false);
      assert [] + rest == rest && [] + stay == stay;
      assert Executed(list, interval, now, verdict) == if Lasts(list[0], now, verdict) then [c] + rest else rest;
      assert Where(list, Over(now, verdict), false) == if Lasts(list[0], now, verdict) then [list[0]] + stay else stay;
    }
  }

  lemma RemovedBalanced(s: State, f: Filter)
    requires Balanced(s)
    ensures Balanced(Removed(s, f))
  {
    hide Ends, Unique, SpeedSum;
    SumWhere(s.list, f);
    UniqueWhere(s.list, f, false);
  }

  lemma AddBalanced(s: State, cond: Cond, now: int, roll: int)
    requires Balanced(s)
    ensures Balanced(Step(s, Add(cond, now, roll, false)))
  {
    hide SpeedSum;
    var k := Find(s.list, cond.key);
    if k < |s.list| {
      SumReplaced(s.list, k, MergedCond(s.list[k], cond, now, roll));
    } else {
      SumSplit(s.list, [StartedCond(cond, now, roll)]);
      SumOne(StartedCond(cond, now, roll));
    }
  }

  lemma StepBalanced(s: State, a: Action)
    requires Balanced(s)
    ensures Balanced(Step(s, a))
  {
    hide Unique, SpeedSum, Where, Executed;
    match a
    case Add(cond, now, roll, delayed) => AddBalanced(s, cond, now, roll);
    case RemoveType(kind, id, delayed) => RemovedBalanced(s, OfType(kind, id));
    case RemoveOne(key, delayed) => RemovedBalanced(s, OfKey(key));
    case Execute(interval, now, verdict) =>
      RemovedBalanced(s, Over(now, verdict));
      ExecutedIsWhere(s.list, interval, now, verdict);
    case Change(delta) =>
  }

  /** Over every sequence of additions, merges, removals and expiries there is at most one
      condition of each kind, and the speed is what the listed conditions and the others' changes
      add up to. */
  lemma {:induction false} RunBalanced(s: State, actions: seq<Action>)
    requires Balanced(s)
    ensures Balanced(Run(s, actions))
    decreases |actions|
  {
    hide Balanced, Step;
    if actions != [] {
      StepBalanced(s, actions[0]);
      RunBalanced(Step(s, actions[0]), actions[1..]);
    }
  }

  /** Once no condition of speed is left, only the others' changes are. */
  lemma {:induction false} BackToBase(s: State)
    requires Balanced(s) && forall c :: c in s.list ==> !IsSpeed(c.key.kind)
    ensures s.varSpeed == s.others
  {
    NoSpeedSum(s.list);
  }

  lemma {:induction false} NoSpeedSum(list: seq<Cond>)
    requires forall c :: c in list ==> !IsSpeed(c.key.kind)
    ensures SpeedSum(list) == 0
  {
    if list != [] {
      NoSpeedSum(list[1..]);
    }
  }
}
