/**
 * The condition functions of a creature on its list of condition objects.
 */
module ConditionList {
  import opened Basics
  import opened Conditions

  class Condition {
    const key: Key
    var ticks: int
    var endTime: int
    var speedDelta: int

    constructor (key: Key, ticks: int, speedDelta: int)
      ensures this.key == key && this.ticks == ticks && this.speedDelta == speedDelta && endTime == 0
    {
      this.key, this.ticks, this.speedDelta, endTime := key, ticks, speedDelta, 0;
    }

    ghost function Value(): Cond
      reads this
    {
      Cond(key, ticks, endTime, speedDelta)
    }

    method SetTicks(newTicks: int, now: int)
      modifies `ticks, `endTime
      ensures Value() == Timed(old(Value()), newTicks, now)
    {
      ticks := newTicks;
      endTime := ticks + now;
    }

    /** `executeCondition`. */
    method Execute(interval: nat, now: int, verdict: Key -> bool) returns (lasts: bool)
      modifies `ticks
      ensures Value() == Ran(old(Value()), interval) && lasts == Lasts(old(Value()), now, verdict)
    {
      if !IsSpeed(key.kind) {
        return verdict(key);
      }
      if ticks == -1 {
        return true;
      }
      ticks := if ticks - interval < 0 then 0 else ticks - interval;
      lasts := endTime >= now;
    }
  }

  ghost function Values(list: seq<Condition>): (v: seq<Cond>)
    reads list
    ensures |v| == |list| && forall i :: 0 <= i < |list| ==> v[i] == list[i].Value()
  {
    seq(|list|, i requires 0 <= i < |list| reads list => list[i].Value())
  }

  class Creature {
    const baseSpeed: int
    var varSpeed: int
    var conditions: seq<Condition>
    ghost var others: int

    constructor (baseSpeed: int)
      ensures Snapshot() == State([], 0, 0) && Valid()
    {
      this.baseSpeed, varSpeed, conditions, others := baseSpeed, 0, [], 0;
    }

    ghost function Snapshot(): State
      reads this, conditions
    {
      State(Values(conditions), varSpeed, others)
    }

    ghost predicate Valid()
      reads this, conditions
    {
      Distinct(conditions) && Balanced(Snapshot())
    }

    function GetSpeed(): int
      reads this
    {
      baseSpeed + varSpeed
    }

    /** `Game::changeSpeed`. */
    method ChangeSpeed(delta: int)
      modifies `varSpeed
      ensures varSpeed == old(varSpeed) + delta
    {
      var speed := GetSpeed() - baseSpeed;
      speed := speed + delta;
      varSpeed := speed;
    }

    /** A change of speed by somebody else. */
    method ChangeByOthers(delta: int)
      requires Valid()
      modifies `varSpeed, `others
      ensures Snapshot() == Step(old(Snapshot()), Change(delta)) && Valid()
    {
      ChangeSpeed(delta);
      others := others + delta;
    }

    /** `getCondition`. */
    method GetCondition(key: Key) returns (k: nat)
      ensures k == Find(Values(conditions), key)
    {
      k := 0;
      while k < |conditions| && conditions[k].key != key
        invariant k <= |conditions| && Find(Values(conditions), key) == k + Find(Values(conditions)[k..], key)
      {
        assert Values(conditions)[k..][1..] == Values(conditions)[k + 1..];
        k := k + 1;
      }
    }

    /** `addCondition`; `delayed` says that a haste has to wait for a paralysed walk. */
    method AddCondition(condition: Condition, now: int, roll: int, delayed: bool)
      requires Valid() && condition !in conditions
      modifies this, conditions, condition
      ensures Snapshot() == Step(old(Snapshot()), Add(old(condition.Value()), now, roll, delayed)) && Valid()
    {
      if delayed {
        return;
      }
      hide Balanced;
      StepBalanced(Snapshot(), Add(condition.Value(), now, roll, false));
      var k := GetCondition(condition.key);
      if k < |conditions| {
        Merge(k, condition, now, roll);
      } else {
        Start(condition, now, roll);
      }
    }

    /** The new condition is merged into the one at `k`. */
    method Merge(k: nat, added: Condition, now: int, roll: int)
      requires Distinct(conditions) && k < |conditions| && added !in conditions
      modifies `varSpeed, conditions[k]
      ensures conditions[k].key == old(conditions[k].key)
      ensures var merged := MergedCond(old(conditions[k].Value()), added.Value(), now, roll);
              Values(conditions) == old(Values(conditions))[k := merged]
                && varSpeed == old(varSpeed) + Delta(merged) - Delta(old(conditions[k].Value()))
    {
      var c := conditions[k];
      if IsSpeed(c.key.kind) {
        if c.ticks == -1 && added.ticks > 0 {
          return;
        }
        c.SetTicks(added.ticks, now);
        var oldSpeedDelta := c.speedDelta;
        c.speedDelta := if added.speedDelta == 0 then roll else added.speedDelta;
        var newSpeedChange := c.speedDelta - oldSpeedDelta;
        if newSpeedChange != 0 {
          ChangeSpeed(newSpeedChange);
        }
      } else if !(c.ticks == -1 && added.ticks > 0) && !(added.ticks >= 0 && c.endTime > now + added.ticks) {
        c.SetTicks(added.ticks, now);
      }
    }

    /** `startCondition` and `push_back`. */
    method Start(condition: Condition, now: int, roll: int)
      requires Distinct(conditions) && condition !in conditions
      modifies `varSpeed, `conditions, condition
      ensures Distinct(conditions)
      ensures var started := StartedCond(old(condition.Value()), now, roll);
              Values(conditions) == old(Values(conditions)) + [started] && varSpeed == old(varSpeed) + Delta(started)
    {
      if condition.ticks > 0 {
        condition.SetTicks(condition.ticks, now);
      }
      if IsSpeed(condition.key.kind) {
        if condition.speedDelta == 0 {
          condition.speedDelta := roll;
        }
        ChangeSpeed(condition.speedDelta);
      }
      conditions := conditions + [condition];
    }

    /** `erase` and `endCondition`. */
    method Erase(k: nat)
      requires k < |conditions|
      modifies `varSpeed, `conditions
      ensures conditions == old(conditions)[..k] + old(conditions)[k + 1..]
      ensures varSpeed == old(varSpeed) - Delta(old(conditions[k].Value()))
    {
      var condition := conditions[k];
      conditions := conditions[..k] + conditions[k + 1..];
      if IsSpeed(condition.key.kind) {
        ChangeSpeed(0 - condition.speedDelta);
      }
    }

    /** `removeCondition` by type, or by type and id: a paralysis is not lifted in mid-step unless
        forced. */
    method RemoveConditions(kind: Type, id: Option<int>, force: bool, walkDelay: int)
      requires Valid()
      modifies `varSpeed, `conditions
      ensures Snapshot() == Step(old(Snapshot()), RemoveType(kind, id, !force && walkDelay > 0)) && Valid()
    {
      hide Balanced, Where, SpeedSum, Swept, Distinct, Ends, Delta, Step;
      StepBalanced(Snapshot(), RemoveType(kind, id, !force && walkDelay > 0));
      ghost var f, list, cells, n, spent := OfType(kind, id), conditions, Values(conditions), 0, 0;
      ghost var kept: seq<Condition> := [];
      var it := 0;
      SweptNone(cells, f);
      assert kept + list[0..] == list;
      while it < |conditions|
        invariant n <= |list| && it == |kept| && conditions == kept + list[n..] && Distinct(conditions)
        invariant Swept(cells, f, Values(kept), n, spent) && varSpeed == old(varSpeed) - spent
        invariant !force && walkDelay > 0 && kind == Paralyze ==> conditions == list && spent == 0
        decreases |list| - n
      {
        var condition := conditions[it];
        Pieces(kept, list, n);
        ghost var shown := Values(kept);
        SweptMore(cells, f, shown, n, spent);
        var other := !(condition.key.kind == kind && (id == None || id == Some(condition.key.id)));
        assert cells[n] == condition.Value();
        EndsType(kind, id, cells[n]);
        n := n + 1;
        if other {
          it := it + 1;
          ValuesAppended(kept, condition);
          Regroup(kept, condition, list[n..]);
          kept := kept + [condition];
          assert Values(kept) == shown + [cells[n - 1]];
          continue;
        }
        if !force && kind == Paralyze {
          if walkDelay > 0 {
            RemovedType(old(Snapshot()), kind, id, true);
            return;
          }
        }
        ErasedPieces(kept, condition, list[n..]);
        Erase(it);
        spent := spent + Delta(condition.Value());
      }
      Pieces(kept, list, n);
      SweptAll(cells, f, Values(kept), n, spent);
      assert conditions == kept;
      RemovedType(old(Snapshot()), kind, id, !force && walkDelay > 0);
    }

    /** `removeCondition` of one condition object. */
    method RemoveCondition(condition: Condition, force: bool, walkDelay: int)
      requires Valid()
      modifies `varSpeed, `conditions
      ensures condition !in old(conditions) ==> Snapshot() == old(Snapshot())
      ensures condition in old(conditions) ==>
        Snapshot() == Step(old(Snapshot()), RemoveOne(condition.key, !force && walkDelay > 0))
      ensures Valid()
    {
      hide Balanced, Where, SpeedSum;
      StepBalanced(Snapshot(), RemoveOne(condition.key, !force && walkDelay > 0));
      var k := IndexOf(conditions, condition);
      if k == |conditions| {
        return;
      }
      if !force && condition.key.kind == Paralyze && walkDelay > 0 {
        return;
      }
      UniqueOf(Snapshot());
      WhereKey(Values(conditions), k);
      ErasedValues(conditions, k);
      Erase(k);
    }

    /** One condition of the copy: it may have left the list meanwhile. */
    method ExecuteOne(condition: Condition, interval: nat, now: int, verdict: Key -> bool, ghost k: nat)
      returns (lasts: bool)
      requires
        && k < |conditions| && conditions[k] == condition
        && forall j :: 0 <= j < |conditions| && conditions[j] == condition ==> j == k
      modifies `varSpeed, `conditions, condition`ticks
      ensures
        && lasts == Lasts(old(condition.Value()), now, verdict)
        && condition.Value() == Ran(old(condition.Value()), interval)
      ensures lasts ==> conditions == old(conditions) && varSpeed == old(varSpeed)
      ensures !lasts ==>
        conditions == old(conditions)[..k] + old(conditions)[k + 1..]
        && varSpeed == old(varSpeed) - Delta(condition.Value())
    {
      var at := IndexOf(conditions, condition);
      if at < |conditions| {
        lasts := condition.Execute(interval, now, verdict);
        if !lasts {
          at := IndexOf(conditions, condition);
          if at < |conditions| {
            Erase(at);
          }
        }
      } else {
        lasts := true;
      }
    }

    /** `executeConditions`: a copy of the list is gone through. */
    method ExecuteConditions(interval: nat, now: int, verdict: Key -> bool)
      requires Valid()
      modifies `varSpeed, `conditions, conditions
      ensures Snapshot() == Step(old(Snapshot()), Execute(interval, now, verdict)) && Valid()
    {
      hide Balanced, Where, SpeedSum, Executed, Ran, Lasts, RanSoFar, Distinct, Values, Condition.Value, Delta;
      StepBalanced(Snapshot(), Execute(interval, now, verdict));
      var tempConditions := conditions;
      var n := 0;
      ghost var cells, spent := Values(conditions), 0;
      ghost var kept: seq<Condition> := [];
      RanNone(cells, interval, now, verdict);
      assert kept + tempConditions[0..] == tempConditions;
      while n < |tempConditions|
        invariant
          && n <= |tempConditions| && conditions == kept + tempConditions[n..] && Distinct(conditions)
          && Distinct(tempConditions)
        invariant forall x :: x in kept ==> x in tempConditions
        invariant forall j :: n <= j < |tempConditions| ==> tempConditions[j].Value() == cells[j]
        invariant RanSoFar(cells, interval, now, verdict, Values(kept), n, spent) && varSpeed == old(varSpeed) - spent
        decreases |tempConditions| - n
      {
        var condition := tempConditions[n];
        Pieces(kept, tempConditions, n);
        ghost var shown := Values(kept);
        RanMore(cells, interval, now, verdict, shown, n, spent);
        Apart(kept, condition, tempConditions[n + 1..]);
        OthersAre(tempConditions, n);
        ErasedPieces(kept, condition, tempConditions[n + 1..]);
        Regroup(kept, condition, tempConditions[n + 1..]);
        n := n + 1;
        var lasts := ExecuteOne(condition, interval, now, verdict, |kept|);
        forall j | n <= j < |tempConditions| ensures tempConditions[j].Value() == cells[j] {
          assert tempConditions[j] != condition;
        }
        SameValues(kept, shown);
        RanDelta(cells[n - 1], interval);
        if lasts {
          ValuesAppended(kept, condition);
          kept := kept + [condition];
          assert Values(kept) == shown + [Ran(cells[n - 1], interval)];
        } else {
          spent := spent + Delta(condition.Value());
        }
      }
      Pieces(kept, tempConditions, n);
      RanAll(cells, interval, now, verdict, Values(kept), n, spent);
      assert conditions == kept;
    }
  }

  /** `std::find`. */
  method IndexOf(list: seq<Condition>, c: Condition) returns (k: nat)
    ensures k <= |list| && (k < |list| <==> c in list) && (k < |list| ==> list[k] == c)
  {
    k := 0;
    while k < |list| && list[k] != c
      invariant k <= |list| && c !in list[..k]
    {
      k := k + 1;
    }
  }

  lemma UniqueOf(s: State)
    requires Balanced(s)
    ensures Unique(s.list)
  {
  }

  /** In a list without double keys one key picks one condition. */
  lemma {:induction false} WhereKey(cells: seq<Cond>, k: nat)
    requires Unique(cells) && k < |cells|
    ensures Where(cells, OfKey(cells[k].key), false) == cells[..k] + cells[k + 1..]
    ensures SpeedSum(Where(cells, OfKey(cells[k].key), true)) == Delta(cells[k])
  {
    var f := OfKey(cells[k].key);
    UniqueRest(cells);
    if k == 0 {
      WhereOther(cells[1..], f);
      SumOne(cells[0]);
      assert [cells[0]] + [] == [cells[0]] && [] + cells[1..] == cells[1..];
    } else {
      WhereKey(cells[1..], k - 1);
      assert cells[..k] + cells[k + 1..] == [cells[0]] + (cells[1..][..k - 1] + cells[1..][k..]);
      assert [] + Where(cells[1..], f, true) == Where(cells[1..], f, true);
    }
  }

  lemma {:induction false} WhereOther(cells: seq<Cond>, f: Filter)
    requires forall c :: c in cells ==> !Ends(f, c)
    ensures Where(cells, f, false) == cells && Where(cells, f, true) == []
  {
    if cells != [] {
      WhereOther(cells[1..], f);
    }
  }

  lemma ErasedValues(list: seq<Condition>, k: nat)
    requires k < |list|
    ensures Values(list[..k] + list[k + 1..]) == Values(list)[..k] + Values(list)[k + 1..]
    ensures Distinct(list) ==> Distinct(list[..k] + list[k + 1..])
  {
    var left := list[..k] + list[k + 1..];
    assert forall i :: 0 <= i < |left| ==> left[i] == list[if i < k then i else i + 1];
  }

  /** The conditions before `n` have been executed. */
  predicate RanSoFar(cells: seq<Cond>, interval: nat, now: int, verdict: Key -> bool, kept: seq<Cond>, n: nat,
                     spent: int) {
    n <= |cells| && kept + Executed(cells[n..], interval, now, verdict) == Executed(cells, interval, now, verdict)
    && spent + SpeedSum(Where(cells[n..], Over(now, verdict), true)) == SpeedSum(Where(cells, Over(now, verdict), true))
  }

  lemma RanNone(cells: seq<Cond>, interval: nat, now: int, verdict: Key -> bool)
    ensures RanSoFar(cells, interval, now, verdict, [], 0, 0)
  {
    assert cells[0..] == cells;
    assert [] + Executed(cells, interval, now, verdict) == Executed(cells, interval, now, verdict);
  }

  lemma RanMore(cells: seq<Cond>, interval: nat, now: int, verdict: Key -> bool, kept: seq<Cond>, n: nat, spent: int)
    requires n < |cells| && RanSoFar(cells, interval, now, verdict, kept, n, spent)
    ensures if Lasts(cells[n], now, verdict)
            then RanSoFar(cells, interval, now, verdict, kept + [Ran(cells[n], interval)], n + 1, spent)
            else RanSoFar(cells, interval, now, verdict, kept, n + 1, spent + Delta(cells[n]))
  {
    hide Where, SpeedSum, Lasts, Ran;
    assert cells[n..][1..] == cells[n + 1..] && cells[n..][0] == cells[n];
    WhereFirst(cells, n, Over(now, verdict));
    var later, c := Executed(cells[n + 1..], interval, now, verdict), Ran(cells[n], interval);
    assert [] + later == later && (kept + [c]) + later == kept + ([c] + later);
  }

  lemma RanAll(cells: seq<Cond>, interval: nat, now: int, verdict: Key -> bool, kept: seq<Cond>, n: nat, spent: int)
    requires n == |cells| && RanSoFar(cells, interval, now, verdict, kept, n, spent)
    ensures kept == Executed(cells, interval, now, verdict) && spent == SpeedSum(Where(cells, Over(now, verdict), true))
  {
    WhereDone(cells, Over(now, verdict));
    assert kept + [] == kept;
  }

  lemma EndsType(kind: Type, id: Option<int>, c: Cond)
    ensures Ends(OfType(kind, id), c) <==> c.key.kind == kind && (id == None || id == Some(c.key.id))
  {
  }

  lemma RemovedType(s: State, kind: Type, id: Option<int>, delayed: bool)
    ensures
      Step(s, RemoveType(kind, id, delayed)) == if delayed && kind == Paralyze then s else Removed(s, OfType(kind, id))
  {
  }

  /** Of the conditions before `n` these are kept, and the others took this much speed with them. */
  predicate Swept(cells: seq<Cond>, f: Filter, kept: seq<Cond>, n: nat, spent: int) {
    n <= |cells| && kept + Where(cells[n..], f, false) == Where(cells, f, false)
    && spent + SpeedSum(Where(cells[n..], f, true)) == SpeedSum(Where(cells, f, true))
  }

  lemma SweptNone(cells: seq<Cond>, f: Filter)
    ensures Swept(cells, f, [], 0, 0)
  {
    assert cells[0..] == cells;
    assert [] + Where(cells, f, false) == Where(cells, f, false);
  }

  lemma SweptMore(cells: seq<Cond>, f: Filter, kept: seq<Cond>, n: nat, spent: int)
    requires n < |cells| && Swept(cells, f, kept, n, spent)
    ensures if Ends(f, cells[n]) then Swept(cells, f, kept, n + 1, spent + Delta(cells[n]))
      else Swept(cells, f, kept + [cells[n]], n + 1, spent)
  {
    hide Where, SpeedSum, Ends;
    WhereFirst(cells, n, f);
    var later := Where(cells[n + 1..], f, false);
    assert [] + later == later && (kept + [cells[n]]) + later == kept + ([cells[n]] + later);
  }

  lemma SweptAll(cells: seq<Cond>, f: Filter, kept: seq<Cond>, n: nat, spent: int)
    requires n == |cells| && Swept(cells, f, kept, n, spent)
    ensures kept == Where(cells, f, false) && spent == SpeedSum(Where(cells, f, true))
  {
    WhereDone(cells, f);
    assert kept + [] == kept;
  }

  lemma Pieces(kept: seq<Condition>, list: seq<Condition>, n: nat)
    requires n <= |list|
    ensures n < |list| ==> list[n..] == [list[n]] + list[n + 1..] && (kept + list[n..])[|kept|] == list[n]
    ensures n == |list| ==> kept + list[n..] == kept
  {
  }

  lemma Apart(kept: seq<Condition>, c: Condition, later: seq<Condition>)
    requires Distinct(kept + ([c] + later))
    ensures c !in kept && c !in later && (kept + ([c] + later))[|kept|] == c
    ensures forall j :: 0 <= j < |kept + ([c] + later)| && (kept + ([c] + later))[j] == c ==> j == |kept|
  {
    var all := kept + ([c] + later);
    assert all[|kept|] == c;
    assert forall i :: 0 <= i < |kept| ==> all[i] == kept[i];
    assert forall i :: 0 <= i < |later| ==> all[|kept| + 1 + i] == later[i];
  }

  lemma RanDelta(c: Cond, interval: nat)
    ensures Delta(Ran(c, interval)) == Delta(c)
  {
  }

  lemma OthersAre(list: seq<Condition>, n: nat)
    requires Distinct(list) && n < |list|
    ensures list[n] in list && forall j :: n < j < |list| ==> list[j] != list[n]
  {
  }

  lemma SameValues(list: seq<Condition>, shown: seq<Cond>)
    requires |shown| == |list| && forall i :: 0 <= i < |list| ==> shown[i] == list[i].Value()
    ensures Values(list) == shown
  {
  }

  lemma Regroup(kept: seq<Condition>, c: Condition, later: seq<Condition>)
    ensures kept + ([c] + later) == (kept + [c]) + later
  {
  }

  lemma ErasedPieces(kept: seq<Condition>, c: Condition, later: seq<Condition>)
    ensures var all := kept + ([c] + later); all[..|kept|] + all[|kept| + 1..] == kept + later
    ensures Distinct(kept + ([c] + later)) ==> Distinct(kept + later)
  {
    var all, left := kept + ([c] + later), kept + later;
    assert forall i :: 0 <= i < |left| ==> left[i] == all[if i < |kept| then i else i + 1];
  }

  lemma WhereFirst(cells: seq<Cond>, n: nat, f: Filter)
    requires n < |cells|
    ensures
      Where(cells[n..], f, false) == (if Ends(f, cells[n]) then [] else [cells[n]]) + Where(cells[n + 1..], f, false)
    ensures SpeedSum(Where(cells[n..], f, true)) == (if Ends(f, cells[n]) then Delta(cells[n]) else 0)
      + SpeedSum(Where(cells[n + 1..], f, true))
  {
    assert cells[n..][1..] == cells[n + 1..];
    SumSplit(if Ends(f, cells[n]) then [cells[n]] else [], Where(cells[n + 1..], f, true));
    SumOne(cells[n]);
  }

  lemma WhereDone(cells: seq<Cond>, f: Filter)
    ensures Where(cells[|cells|..], f, false) == [] && SpeedSum(Where(cells[|cells|..], f, true)) == 0
  {
  }

  lemma ValuesAppended(list: seq<Condition>, c: Condition)
    ensures Values(list + [c]) == Values(list) + [c.Value()]
  {
  }
}
