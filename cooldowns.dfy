/** The per-key cooldown gate in front of action execution. */
module Cooldowns {
  import opened Opt
  import opened Js

  /** `_last.get(key) || 0` */
  function LastRun(last: map<Value, int>, key: Value): int {
    if key in last then last[key] else 0
  }

  /** `Number(cooldownMs) || 0`: NaN (and every non-numeric window) becomes 0. */
  function Window(cooldownMs: Value): real {
    NumberOrZero(cooldownMs)
  }

  /** Whether a run of `key` at `now` is allowed with a window of `ms` milliseconds. */
  predicate Allows(last: map<Value, int>, key: Value, ms: real, now: int) {
    ms <= 0.0 || (now - LastRun(last, key)) as real >= ms
  }

  /** A window of at most zero always allows the run. */
  lemma NonPositiveWindowAllows(last: map<Value, int>, key: Value, ms: real, now: int)
    requires ms <= 0.0
    ensures Allows(last, key, ms, now)
  {
  }

  /** A window that does not read as a number is no window at all. */
  lemma NonNumericWindowAllows(last: map<Value, int>, key: Value, cooldownMs: Value, now: int)
    requires ToNumber(cooldownMs).None?
    ensures Window(cooldownMs) == 0.0
    ensures Allows(last, key, Window(cooldownMs), now)
  {
  }

  /** A key never marked counts as last run at time 0: allowed only once `now` reaches the window. */
  lemma NeverMarked(last: map<Value, int>, key: Value, ms: real, now: int)
    requires key !in last
    ensures Allows(last, key, ms, now) <==> ms <= 0.0 || now as real >= ms
  {
  }

  /** After a mark at `t`, a later check at `t2` passes exactly when the window has elapsed. */
  lemma AfterMark(last: map<Value, int>, key: Value, t: int, ms: real, t2: int)
    requires ms > 0.0
    ensures Allows(last[key := t], key, ms, t2) <==> (t2 - t) as real >= ms
  {
  }

  /** Marking one key leaves the answer for every other key as it was. */
  lemma MarkIsLocal(last: map<Value, int>, key: Value, t: int, other: Value, ms: real, now: int)
    requires other != key
    ensures Allows(last[key := t], other, ms, now) == Allows(last, other, ms, now)
  {
  }

  class Gate {
    /** `_last` */
    var last: map<Value, int>

    constructor()
      ensures last == map[]
    {
      last := map[];
    }

    /** `canRun(key, cooldownMs)` at time `now`. */
    method CanRun(key: Value, cooldownMs: Value, now: int) returns (r: bool)
      ensures r == Allows(last, key, Window(cooldownMs), now)
    {
      var ms := NumberOrZero(cooldownMs);
      if ms <= 0.0 {
        return true;
      }
      var lastRun := if key in last then last[key] else 0;
      return (now - lastRun) as real >= ms;
    }

    /** `markRan(key)` at time `now`. */
    method MarkRan(key: Value, now: int)
      modifies this
      ensures last == old(last)[key := now]
    {
      last := last[key := now];
    }
  }
}
