/**
 * The checklist store (`ChecklistManager`): a dictionary from step id to the
 * value the page last recorded for it, mirrored into durable browser storage
 * after every toggle, with completion statistics derived on demand.
 */
module Checklist {
  import opened Wrappers

  /**
   * A value held in the dictionary. Toggling always writes a boolean; a value
   * of another JSON type can only arrive from storage and matters here only
   * through its JavaScript truthiness.
   */
  datatype JsValue = JBool(b: bool) | JOther(truthy: bool)

  type State = map<string, JsValue>

  /** JavaScript truthiness of a stored value. */
  function Truthy(v: JsValue): bool
  {
    match v
    case JBool(b) => b
    case JOther(t) => t
  }

  /**
   * The properties every plain object inherits from `Object.prototype`. Each
   * holds a function or, for `__proto__`, the prototype itself: all truthy,
   * and none of them the boolean `true`.
   */
  const InheritedKeys: set<string> := {
    "constructor", "hasOwnProperty", "isPrototypeOf", "propertyIsEnumerable",
    "toLocaleString", "toString", "valueOf", "__defineGetter__", "__defineSetter__",
    "__lookupGetter__", "__lookupSetter__", "__proto__"
  }

  /**
   * Truthiness of `state[s]`: an own value as stored; otherwise the lookup
   * falls through to `Object.prototype`, which yields a truthy inherited
   * property or `undefined`, which is falsy.
   */
  function WasTruthy(m: State, s: string): bool
  {
    if s in m then Truthy(m[s]) else s in InheritedKeys
  }

  /** `state[s] === true`: only the boolean `true` counts as completed. */
  predicate Completed(m: State, s: string)
  {
    s in m && m[s] == JBool(true)
  }

  /** The steps whose value is exactly `true`: what the statistics count. */
  function CompletedSteps(m: State): set<string>
  {
    set k | k in m && m[k] == JBool(true)
  }

  /** `state[s] = !state[s]`: the step gets the negation of its truthiness, as a boolean; nothing else changes. */
  function Toggled(m: State, s: string): (r: State)
    ensures s in r && r[s] == JBool(!WasTruthy(m, s))
    ensures r.Keys == m.Keys + {s}
    ensures forall k :: k in m && k != s ==> r[k] == m[k]
  {
    m[s := JBool(!WasTruthy(m, s))]
  }

  /** The state after toggling step `s` `n` times in a row. */
  function ToggledTimes(m: State, s: string, n: nat): State
    decreases n
  {
    if n == 0 then m else Toggled(ToggledTimes(m, s, n - 1), s)
  }

  // ---------------------------------------------------------------------
  // completion
  // ---------------------------------------------------------------------

  /** A step that was never recorded is not completed. */
  lemma NeverToggledNotCompleted(m: State, s: string)
    requires s !in m
    ensures !Completed(m, s) && s !in CompletedSteps(m)
  {
  }

  /** After a toggle the step is completed exactly when it was falsy before. */
  lemma ToggleCompletes(m: State, s: string)
    ensures Completed(Toggled(m, s), s) <==> !WasTruthy(m, s)
    ensures forall k :: k != s ==> (Completed(Toggled(m, s), k) <==> Completed(m, k))
  {
  }

  /**
   * For a step that is `true` or falsy, toggling twice gives the step back
   * its truthiness as a boolean (an absent or falsy step comes back as an
   * explicit `false`) and so restores its completion; every other step is
   * untouched.
   */
  lemma ToggleTwice(m: State, s: string)
    requires WasTruthy(m, s) ==> Completed(m, s)
    ensures Toggled(Toggled(m, s), s) == m[s := JBool(WasTruthy(m, s))]
    ensures Completed(Toggled(Toggled(m, s), s), s) <==> Completed(m, s)
  {
  }

  /**
   * A truthy value that is not `true` is not completed, but after two
   * toggles it has become the boolean `true`. Two such values: a non-boolean
   * truthy value from storage, and a step id such as `constructor` that reads
   * the inherited method, so that its first toggle stores `false`.
   */
  lemma ToggleTwiceNormalises()
    ensures var m := map["step-1" := JOther(true)];
      !Completed(m, "step-1") && Completed(Toggled(Toggled(m, "step-1"), "step-1"), "step-1")
    ensures var e: State := map[];
      && !Completed(e, "constructor")
      && Toggled(e, "constructor")["constructor"] == JBool(false)
      && Completed(Toggled(Toggled(e, "constructor"), "constructor"), "constructor")
  {
  }

  /**
   * After `n >= 1` toggles the step holds its original truthiness when `n`
   * is even and its negation when `n` is odd; other steps never change.
   */
  lemma {:induction false} ToggleParity(m: State, s: string, n: nat)
    requires n >= 1
    ensures s in ToggledTimes(m, s, n)
    ensures ToggledTimes(m, s, n)[s] == JBool(if n % 2 == 1 then !WasTruthy(m, s) else WasTruthy(m, s))
    ensures ToggledTimes(m, s, n).Keys == m.Keys + {s}
    ensures forall k :: k in m && k != s ==> ToggledTimes(m, s, n)[k] == m[k]
    decreases n
  {
    if n > 1 {
      ToggleParity(m, s, n - 1);
    }
  }

  /**
   * For a step that is `true` or falsy: an even number of toggles restores
   * completion, an odd number flips it.
   */
  lemma ToggleParityCompleted(m: State, s: string, n: nat)
    requires WasTruthy(m, s) ==> Completed(m, s)
    ensures Completed(ToggledTimes(m, s, n), s) <==> (Completed(m, s) != (n % 2 == 1))
  {
    if n >= 1 {
      ToggleParity(m, s, n);
    }
  }

  // ---------------------------------------------------------------------
  // statistics
  // ---------------------------------------------------------------------

  /** A JavaScript number as `Math.round` can return it here. */
  datatype JsNumber = Finite(value: int) | NaN | PosInfinity

  /** What `getStats` returns. */
  datatype Stats = Stats(completed: nat, total: nat, percentage: JsNumber)

  /**
   * `Math.round(completed / total * 100)` on exact rationals: the integer
   * nearest to `100 * completed / total`, halves rounded up; dividing by zero
   * gives NaN (0/0) or Infinity.
   */
  function RoundedPercent(completed: nat, total: nat): (p: JsNumber)
    ensures total > 0 ==> p.Finite? && 2 * p.value * total - total <= 200 * completed < 2 * p.value * total + total
    ensures total == 0 ==> p == (if completed == 0 then NaN else PosInfinity)
  {
    if total == 0 then (if completed == 0 then NaN else PosInfinity)
    else
      var q := (200 * completed + total) / (2 * total);
      assert 2 * total * q <= 200 * completed + total < 2 * total * q + 2 * total;
      Finite(q)
  }

  /** With some steps rendered and no more completed than rendered, the percentage lies in 0..100. */
  lemma PercentInRange(completed: nat, total: nat)
    requires 0 < total && completed <= total
    ensures var p := RoundedPercent(completed, total); 0 <= p.value <= 100
    ensures completed == 0 ==> RoundedPercent(completed, total) == Finite(0)
    ensures completed == total ==> RoundedPercent(completed, total) == Finite(100)
  {
    var p := RoundedPercent(completed, total).value;
    RoundingBounds(completed, total, p);
  }

  /** The integer nearest to `100 * c / t` for `0 <= c <= t` is between 0 and 100, and exact at both ends. */
  lemma RoundingBounds(c: nat, t: nat, p: int)
    requires 0 < t && c <= t
    requires 2 * p * t - t <= 200 * c < 2 * p * t + t
    ensures 0 <= p <= 100
    ensures c == 0 ==> p == 0
    ensures c == t ==> p == 100
  {
    var lo, hi := (2 * p - 1) * t, (2 * p + 1) * t;
    assert lo == 2 * p * t - t && hi == 2 * p * t + t by {
      Spread(p, t);
    }
    assert 200 * c <= 200 * t;
    CancelPositive(0, 2 * p + 1, t);
    CancelPositive(2 * p - 1, 200, t);
    if c == 0 {
      CancelPositive(2 * p - 1, 0, t);
    }
    if c == t {
      CancelPositive(200, 2 * p + 1, t);
    }
  }

  /** Multiplying `2 * p - 1` and `2 * p + 1` out. */
  lemma Spread(p: int, t: int)
    ensures (2 * p - 1) * t == 2 * p * t - t && (2 * p + 1) * t == 2 * p * t + t
  {
  }

  /** Dividing both sides of `x * t <= y * t` (or `<`) by a positive `t`. */
  lemma CancelPositive(x: int, y: int, t: int)
    requires t > 0
    ensures x * t <= y * t ==> x <= y
    ensures x * t < y * t ==> x < y
  {
    assert x * t - y * t == (x - y) * t;
  }

  /** Only recorded steps are counted. */
  lemma CompletedWithinRecorded(m: State)
    ensures CompletedSteps(m) <= m.Keys && |CompletedSteps(m)| <= |m|
  {
    assert CompletedSteps(m) <= m.Keys;
    SubsetCard(CompletedSteps(m), m.Keys);
  }

  lemma {:induction false} SubsetCard<T>(a: set<T>, b: set<T>)
    requires a <= b
    ensures |a| <= |b|
    decreases |b|
  {
    if a != {} {
      var x :| x in a;
      SubsetCard(a - {x}, b - {x});
    }
  }

  /** The completed steps after a toggle: `s` leaves them if it was truthy and joins them otherwise. */
  lemma ToggledCompletedSteps(m: State, s: string)
    ensures s in CompletedSteps(m) <==> Completed(m, s)
    ensures WasTruthy(m, s) ==> CompletedSteps(Toggled(m, s)) == CompletedSteps(m) - {s}
    ensures !WasTruthy(m, s) ==> s !in CompletedSteps(m) && CompletedSteps(Toggled(m, s)) == CompletedSteps(m) + {s}
  {
    var r := Toggled(m, s);
    forall k | k != s ensures k in CompletedSteps(r) <==> k in CompletedSteps(m) {
      assert k in r <==> k in m;
      if k in m { assert r[k] == m[k]; }
    }
  }

  /**
   * A toggle moves the completed count by the step's change: one fewer if it
   * was exactly `true`, one more if it becomes `true`.
   */
  lemma ToggleCount(m: State, s: string)
    ensures |CompletedSteps(Toggled(m, s))|
      == |CompletedSteps(m)| - (if Completed(m, s) then 1 else 0) + (if WasTruthy(m, s) then 0 else 1)
  {
    ToggledCompletedSteps(m, s);
    CardinalityStep(CompletedSteps(m), s);
  }

  /** Removing or adding one element moves a set's size by one, if it was in or out of it. */
  lemma CardinalityStep<T>(a: set<T>, x: T)
    ensures x in a ==> |a - {x}| == |a| - 1
    ensures x !in a ==> |a - {x}| == |a| && |a + {x}| == |a| + 1
  {
    if x !in a {
      assert a - {x} == a;
    }
  }

  // ---------------------------------------------------------------------
  // the store
  // ---------------------------------------------------------------------

  class ChecklistManager {
    const storageKey: string
    /** The in-memory dictionary (`this.state`). */
    var state: State
    /** What durable storage holds under `storageKey`; `None` when nothing readable is there. */
    var stored: Option<State>

    /** `loadState`: start from the stored dictionary, or from an empty one when none can be read. */
    constructor (storageKey: string, stored: Option<State>)
      ensures this.storageKey == storageKey && this.stored == stored
      ensures state == stored.GetOr(map[])
    {
      this.storageKey := storageKey;
      this.stored := stored;
      state := stored.GetOr(map[]);
    }

    /**
     * `saveState`: write the dictionary to storage. `writeOk` is whether the
     * write succeeded; a failed write is absorbed and leaves storage as it was.
     */
    method SaveState(writeOk: bool)
      modifies this`stored
      ensures stored == if writeOk then Some(state) else old(stored)
    {
      if writeOk {
        stored := Some(state);
      }
    }

    /** `isCompleted`: the step is one of those the statistics count. */
    function IsCompleted(stepId: string): (done: bool)
      reads this
      ensures done <==> stepId in CompletedSteps(state)
      ensures done ==> WasTruthy(state, stepId)
    {
      Completed(state, stepId)
    }

    /**
     * `toggle`: flip the step, persist, and return the new value, which is
     * what `isCompleted` reports from then on. Memory holds the toggle even
     * when the write fails.
     */
    method Toggle(stepId: string, writeOk: bool) returns (now: bool)
      modifies this`state, this`stored
      ensures state == Toggled(old(state), stepId)
      ensures now == !WasTruthy(old(state), stepId) && now == IsCompleted(stepId)
      ensures stored == if writeOk then Some(state) else old(stored)
    {
      state := state[stepId := JBool(!WasTruthy(state, stepId))];
      SaveState(writeOk);
      now := state[stepId].b;
    }

    /**
     * `getStats`: how many steps are exactly `true`, the rendered total the
     * caller passes, and the rounded percentage of one against the other.
     */
    function GetStats(totalSteps: nat): (st: Stats)
      reads this
      ensures st.completed == |CompletedSteps(state)| <= |state| && st.total == totalSteps
      ensures totalSteps > 0 ==> st.percentage.Finite?
      ensures totalSteps > 0 ==> 2 * st.percentage.value * totalSteps - totalSteps <= 200 * st.completed
      ensures totalSteps > 0 ==> 200 * st.completed < 2 * st.percentage.value * totalSteps + totalSteps
      ensures 0 < totalSteps && st.completed <= totalSteps ==> 0 <= st.percentage.value <= 100
      ensures totalSteps == 0 && st.completed == 0 ==> st.percentage == NaN
    {
      var completed := |CompletedSteps(state)|;
      CompletedWithinRecorded(state);
      assert 0 < totalSteps && completed <= totalSteps ==> 0 <= RoundedPercent(completed, totalSteps).value <= 100 by {
        if 0 < totalSteps && completed <= totalSteps { PercentInRange(completed, totalSteps); }
      }
      Stats(completed, totalSteps, RoundedPercent(completed, totalSteps))
    }
  }

  /** Toggling through the store twice, with the writes succeeding, restores completion and storage agrees with memory. */
  method ToggleTwiceThroughStore(c: ChecklistManager, stepId: string) returns (first: bool, second: bool)
    requires WasTruthy(c.state, stepId) ==> Completed(c.state, stepId)
    modifies c
    ensures first != second && second == old(c.IsCompleted(stepId)) == c.IsCompleted(stepId)
    ensures c.stored == Some(c.state)
  {
    ghost var m := c.state;
    first := c.Toggle(stepId, true);
    second := c.Toggle(stepId, true);
    ToggleTwice(m, stepId);
  }
}
