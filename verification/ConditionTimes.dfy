/**
 * How long a condition lasts and what each operation leaves of the others: a speed is there from
 * its start to the end of its time and no longer, whatever else is added, removed and executed.
 */
module ConditionTimes {
  import opened Basics
  import opened Conditions

  predicate Listed(s: State, key: Key) {
    exists c :: c in s.list && c.key == key
  }

  /** The condition with this key is listed with this delta, and runs until `end`, or for ever. */
  predicate Runs(s: State, key: Key, end: int, forever: bool, delta: int) {
    exists c :: c in s.list && c.key == key && c.delta == delta && (c.ticks == -1 <==> forever)
                && (!forever ==> c.endTime == end)
  }

  /** The operation does not merge anything into the condition and does not ask for its removal. */
  predicate LeavesAlone(a: Action, key: Key) {
    match a
    case Add(cond, _, _, delayed) => delayed || cond.key != key
    case RemoveType(kind, id, delayed) =>
      (delayed && kind == Paralyze) || key.kind != kind || (id.Some? && id.value != key.id)
    case RemoveOne(k, delayed) => (delayed && k.kind == Paralyze) || k != key
    case Execute(_, _, _) => true
    case Change(_) => true
  }

  /** The same with fewer ticks left, but not below zero; -1 ticks stay. */
  predicate RunsOn(c: Cond, d: Cond, interval: nat) {
    d == c.(ticks := if c.ticks == -1 then -1 else if c.ticks < interval then 0 else c.ticks - interval)
  }

  lemma {:induction false} ExecutedHas(list: seq<Cond>, interval: nat, now: int, verdict: Key -> bool, c: Cond)
    requires c in list && IsSpeed(c.key.kind) && (c.ticks == -1 || now <= c.endTime)
    ensures exists d :: d in Executed(list, interval, now, verdict) && RunsOn(c, d, interval)
  {
    if c == list[0] {
      var d := Executed(list, interval, now, verdict)[0];
      assert d in Executed(list, interval, now, verdict);
    } else {
      ExecutedHas(list[1..], interval, now, verdict, c);
    }
  }

  /** One operation within its time leaves the condition running. */
  lemma StepLetsRun(s: State, a: Action, key: Key, end: int, forever: bool, delta: int)
    requires Unique(s.list) && IsSpeed(key.kind) && Runs(s, key, end, forever, delta) && LeavesAlone(a, key)
    requires a.Execute? && !forever ==> a.now <= end
    ensures Runs(Step(s, a), key, end, forever, delta)
  {
    var c :| c in s.list && c.key == key && c.delta == delta && (c.ticks == -1 <==> forever)
             && (!forever ==> c.endTime == end);
    match a
    case Add(cond, now, roll, delayed) =>
      if !delayed {
        var k := Find(s.list, cond.key);
        var i :| 0 <= i < |s.list| && s.list[i] == c;
        assert i != k;
        assert Step(s, a).list[i] == c;
      }
    case RemoveType(kind, id, delayed) =>
      UniqueWhere(s.list, OfType(kind, id), false);
      assert c in Step(s, a).list;
    case RemoveOne(k, delayed) =>
      UniqueWhere(s.list, OfKey(k), false);
      assert c in Step(s, a).list;
    case Execute(interval, now, verdict) =>
      ExecutedHas(s.list, interval, now, verdict, c);
    case Change(_) =>
      assert c in Step(s, a).list;
  }

  predicate WithinTime(actions: seq<Action>, key: Key, end: int, forever: bool) {
    forall i :: 0 <= i < |actions| ==>
      LeavesAlone(actions[i], key) && (actions[i].Execute? && !forever ==> actions[i].now <= end)
  }

  lemma {:induction false} RunLetsRun(s: State, actions: seq<Action>, key: Key, end: int, forever: bool, delta: int)
    requires Balanced(s) && IsSpeed(key.kind) && Runs(s, key, end, forever, delta)
    requires WithinTime(actions, key, end, forever)
    ensures Balanced(Run(s, actions)) && Runs(Run(s, actions), key, end, forever, delta)
    decreases |actions|
  {
    hide Step, Runs, SpeedSum, Unique, LeavesAlone;
    if actions != [] {
      StepBalanced(s, actions[0]);
      StepLetsRun(s, actions[0], key, end, forever, delta);
      RunLetsRun(Step(s, actions[0]), actions[1..], key, end, forever, delta);
    }
  }

  lemma {:induction false} ExecutedLacks(list: seq<Cond>, interval: nat, now: int, verdict: Key -> bool, key: Key)
    requires IsSpeed(key.kind) && forall c :: c in list && c.key == key ==> c.ticks != -1 && c.endTime < now
    ensures forall d :: d in Executed(list, interval, now, verdict) ==> d.key != key
  {
    if list != [] {
      ExecutedLacks(list[1..], interval, now, verdict, key);
      assert list[0] in list;
    }
  }

  /** The first execution after its end removes it. */
  lemma LateExecutionEnds(s: State, interval: nat, now: int, verdict: Key -> bool, key: Key, end: int, delta: int)
    requires Unique(s.list) && IsSpeed(key.kind) && Runs(s, key, end, false, delta) && now > end
    ensures !Listed(Step(s, Execute(interval, now, verdict)), key)
  {
    ExecutedLacks(s.list, interval, now, verdict, key);
  }

  /** What the other conditions add to the speed. */
  function OthersSum(list: seq<Cond>, key: Key): int {
    if list == [] then 0 else (if list[0].key != key then Delta(list[0]) else 0) + OthersSum(list[1..], key)
  }

  lemma {:induction false} SumByOne(list: seq<Cond>, key: Key)
    requires Unique(list)
    ensures forall c :: c in list && c.key == key ==> SpeedSum(list) == Delta(c) + OthersSum(list, key)
    ensures (forall c :: c in list ==> c.key != key) ==> SpeedSum(list) == OthersSum(list, key)
  {
    if list != [] {
      SumByOne(list[1..], key);
      UniqueRest(list);
    }
  }

  /** The variable speed holds its delta just while it is listed. */
  lemma SpeedHolds(s: State, key: Key, end: int, forever: bool, delta: int)
    requires Balanced(s) && IsSpeed(key.kind)
    ensures Runs(s, key, end, forever, delta) ==> s.varSpeed == s.others + OthersSum(s.list, key) + delta
    ensures !Listed(s, key) ==> s.varSpeed == s.others + OthersSum(s.list, key)
  {
    SumByOne(s.list, key);
  }

  /** A speed that was started at `now` for `d` ticks, and that nobody merges or removes, is
      listed after every run of executions at times up to now + d, and not after the first later
      one; its delta is in the speed for just that time. */
  lemma SpeedLastsExactly(s: State, cond: Cond, now: int, roll: int, actions: seq<Action>, interval: nat, late: int,
                          verdict: Key -> bool)
    requires Balanced(s) && IsSpeed(cond.key.kind) && !Listed(s, cond.key) && cond.ticks > 0
    requires WithinTime(actions, cond.key, now + cond.ticks, false) && late > now + cond.ticks
    ensures var during := Run(Step(s, Add(cond, now, roll, false)), actions);
      var after := Step(during, Execute(interval, late, verdict));
      var delta := if cond.delta == 0 then roll else cond.delta;
      && Listed(during, cond.key) && during.varSpeed == during.others + OthersSum(during.list, cond.key) + delta
      && !Listed(after, cond.key) && after.varSpeed == after.others + OthersSum(after.list, cond.key)
  {
    var end, delta := now + cond.ticks, if cond.delta == 0 then roll else cond.delta;
    var started := Step(s, Add(cond, now, roll, false));
    StartRuns(s, cond, now, roll);
    StepBalanced(s, Add(cond, now, roll, false));
    hide Step, SpeedSum, Unique, OthersSum;
    RunLetsRun(started, actions, cond.key, end, false, delta);
    var during := Run(started, actions);
    SpeedHolds(during, cond.key, end, false, delta);
    LateExecutionEnds(during, interval, late, verdict, cond.key, end, delta);
    StepBalanced(during, Execute(interval, late, verdict));
    SpeedHolds(Step(during, Execute(interval, late, verdict)), cond.key, end, false, delta);
  }

  /** A started condition is new at the end of the list, runs for its ticks, and nothing else
      changes. */
  lemma StartRuns(s: State, cond: Cond, now: int, roll: int)
    requires !Listed(s, cond.key)
    ensures var s' := Step(s, Add(cond, now, roll, false));
      && |s'.list| == |s.list| + 1 && s'.list[..|s.list|] == s.list && s'.others == s.others
      && (IsSpeed(cond.key.kind) && cond.ticks > 0 ==>
            Runs(s', cond.key, now + cond.ticks, false, if cond.delta == 0 then roll else cond.delta))
      && (IsSpeed(cond.key.kind) && cond.ticks == -1 ==>
            Runs(s', cond.key, 0, true, if cond.delta == 0 then roll else cond.delta))
  {
    var s' := Step(s, Add(cond, now, roll, false));
    assert s'.list[|s.list|] in s'.list;
  }

  /** With -1 ticks no execution ever removes it. */
  lemma SpeedForEver(s: State, cond: Cond, now: int, roll: int, actions: seq<Action>)
    requires Balanced(s) && IsSpeed(cond.key.kind) && !Listed(s, cond.key) && cond.ticks == -1
    requires forall i :: 0 <= i < |actions| ==> LeavesAlone(actions[i], cond.key)
    ensures var s' := Run(Step(s, Add(cond, now, roll, false)), actions);
      && Listed(s', cond.key)
      && s'.varSpeed == s'.others + OthersSum(s'.list, cond.key) + if cond.delta == 0 then roll else cond.delta
  {
    var delta := if cond.delta == 0 then roll else cond.delta;
    var started := Step(s, Add(cond, now, roll, false));
    StartRuns(s, cond, now, roll);
    StepBalanced(s, Add(cond, now, roll, false));
    hide Step, SpeedSum, Unique, OthersSum;
    RunLetsRun(started, actions, cond.key, 0, true, delta);
    SpeedHolds(Run(started, actions), cond.key, 0, true, delta);
  }

  // ----- merging -----

  /** A merge changes the one condition and leaves the others in their places. A speed takes the
      new time and the new delta, except that one for ever is not shortened. */
  lemma MergeRenews(s: State, k: nat, cond: Cond, now: int, roll: int)
    requires Unique(s.list) && k < |s.list| && s.list[k].key == cond.key
    ensures var s' := Step(s, Add(cond, now, roll, false));
      var c, was := s'.list[k], s.list[k];
      && |s'.list| == |s.list| && (forall i :: 0 <= i < |s.list| && i != k ==> s'.list[i] == s.list[i])
      && c.key == cond.key && s'.others == s.others
      && (was.ticks == -1 && cond.ticks > 0 ==> s' == s)
      && (IsSpeed(c.key.kind) && !(was.ticks == -1 && cond.ticks > 0) ==>
            && c.ticks == cond.ticks && c.endTime == now + cond.ticks
            && c.delta == (if cond.delta == 0 then roll else cond.delta)
            && s'.varSpeed - s.varSpeed == c.delta - was.delta)
      && (!IsSpeed(c.key.kind) ==> s'.varSpeed == s.varSpeed && c.delta == was.delta)
      && (!IsSpeed(c.key.kind) && was.ticks != -1 && cond.ticks >= 0 ==>
            c.endTime == if was.endTime > now + cond.ticks then was.endTime else now + cond.ticks)
      && (!IsSpeed(c.key.kind) && cond.ticks == -1 ==> c.ticks == -1)
  {
    var found := Find(s.list, cond.key);
    assert found == k;
    assert s.list[k := s.list[k]] == s.list;
  }

  // ----- removing and executing -----

  /** Some of the list, in its order. */
  predicate Subsequence<T(==)>(a: seq<T>, list: seq<T>) {
    a == [] || (list != [] && ((a[0] == list[0] && Subsequence(a[1..], list[1..])) || Subsequence(a, list[1..])))
  }

  lemma {:induction false} WhereKeepsOrder(list: seq<Cond>, f: Filter, ended: bool)
    ensures Subsequence(Where(list, f, ended), list)
  {
    hide Ends;
    if list != [] {
      WhereKeepsOrder(list[1..], f, ended);
      var rest := Where(list[1..], f, ended);
      assert [] + rest == rest && ([list[0]] + rest)[1..] == rest;
    }
  }

  /** A removal takes exactly the conditions of the type, with the id if one is given, unless a
      paralysis has to wait, and keeps the others in their order. */
  lemma RemovesExactly(s: State, kind: Type, id: Option<int>, delayed: bool, c: Cond)
    requires Unique(s.list)
    ensures Subsequence(Step(s, RemoveType(kind, id, delayed)).list, s.list) || (delayed && kind == Paralyze)
    ensures delayed && kind == Paralyze ==> Step(s, RemoveType(kind, id, delayed)) == s
    ensures !(delayed && kind == Paralyze) ==>
      (c in Step(s, RemoveType(kind, id, delayed)).list <==>
       c in s.list && (c.key.kind != kind || (id.Some? && id.value != c.key.id)))
  {
    UniqueWhere(s.list, OfType(kind, id), false);
    WhereKeepsOrder(s.list, OfType(kind, id), false);
  }

  /** A removal of one condition takes that one and keeps the others in their order. */
  lemma RemovesOne(s: State, key: Key, delayed: bool, c: Cond)
    requires Unique(s.list)
    ensures delayed && key.kind == Paralyze ==> Step(s, RemoveOne(key, delayed)) == s
    ensures !(delayed && key.kind == Paralyze) ==>
      && (c in Step(s, RemoveOne(key, delayed)).list <==> c in s.list && c.key != key)
      && Subsequence(Step(s, RemoveOne(key, delayed)).list, s.list)
  {
    UniqueWhere(s.list, OfKey(key), false);
    WhereKeepsOrder(s.list, OfKey(key), false);
  }

  function Keys(list: seq<Cond>): (keys: seq<Key>)
    ensures |keys| == |list| && forall i :: 0 <= i < |list| ==> keys[i] == list[i].key
  {
    seq(|list|, i requires 0 <= i < |list| => list[i].key)
  }

  lemma OneMore(key: Key, a: seq<Key>, list: seq<Key>)
    requires Subsequence(a, list)
    ensures Subsequence([key] + a, [key] + list) && Subsequence(a, [key] + list)
  {
    assert ([key] + a)[1..] == a && ([key] + list)[1..] == list;
  }

  /** An execution keeps the order. */
  lemma {:induction false} ExecutedKeepsOrder(list: seq<Cond>, interval: nat, now: int, verdict: Key -> bool)
    ensures Subsequence(Keys(Executed(list, interval, now, verdict)), Keys(list))
  {
    hide Executed, Keys, Subsequence;
    if list == [] {
      NoKeys(interval, now, verdict);
    } else {
      ExecutedKeepsOrder(list[1..], interval, now, verdict);
      FirstExecuted(list, interval, now, verdict);
      OneMore(list[0].key, Keys(Executed(list[1..], interval, now, verdict)), Keys(list[1..]));
    }
  }

  lemma NoKeys(interval: nat, now: int, verdict: Key -> bool)
    ensures Subsequence(Keys(Executed([], interval, now, verdict)), Keys([]))
  {
  }

  lemma FirstExecuted(list: seq<Cond>, interval: nat, now: int, verdict: Key -> bool)
    requires list != []
    ensures Keys(list) == [list[0].key] + Keys(list[1..])
    ensures var later := Executed(list[1..], interval, now, verdict);
      Keys(Executed(list, interval, now, verdict)) == Keys(later)
      || Keys(Executed(list, interval, now, verdict)) == [list[0].key] + Keys(later)
  {
    hide Keys, Lasts, Executed, Ran;
    ExecutedFirst(list, interval, now, verdict);
    FirstKey(list[0], list[1..]);
    assert list == [list[0]] + list[1..];
    FirstKey(Ran(list[0], interval), Executed(list[1..], interval, now, verdict));
    RanKey(list[0], interval);
  }

  lemma RanKey(c: Cond, interval: nat)
    ensures Ran(c, interval).key == c.key
  {
  }

  lemma FirstKey(c: Cond, list: seq<Cond>)
    ensures Keys([c] + list) == [c.key] + Keys(list)
  {
  }

  lemma ExecutedFirst(list: seq<Cond>, interval: nat, now: int, verdict: Key -> bool)
    requires list != []
    ensures var later := Executed(list[1..], interval, now, verdict);
      Executed(list, interval, now, verdict)
        == if Lasts(list[0], now, verdict) then [Ran(list[0], interval)] + later else later
  {
    var later := Executed(list[1..], interval, now, verdict);
    assert [] + later == later;
  }

  /** The kinds without a speed last as long as they say. */
  lemma {:induction false} VerdictDecides(list: seq<Cond>, interval: nat, now: int, verdict: Key -> bool, c: Cond)
    requires !IsSpeed(c.key.kind) && c in list
    ensures c in Executed(list, interval, now, verdict) <==> verdict(c.key)
  {
    if c in list[1..] {
      VerdictDecides(list[1..], interval, now, verdict, c);
    } else {
      ExecutedKeys(list[1..], interval, now, verdict);
    }
  }

  lemma {:induction false} ExecutedKeys(list: seq<Cond>, interval: nat, now: int, verdict: Key -> bool)
    ensures forall d :: d in Executed(list, interval, now, verdict) && !IsSpeed(d.key.kind) ==> d in list
  {
    if list != [] {
      ExecutedKeys(list[1..], interval, now, verdict);
    }
  }
}
