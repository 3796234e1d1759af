/** Exponential backoff with a shared counter (src/utils/backoff.rs). */
module Backoff {
  const U64_MAX: nat := 0xFFFF_FFFF_FFFF_FFFF
  const U32_SIZE: nat := 0x1_0000_0000
  const MAX_ATTEMPT: nat := 10

  function Min(a: nat, b: nat): nat {
    if a <= b then a else b
  }

  function Pow2(n: nat): nat {
    if n == 0 then 1 else 2 * Pow2(n - 1)
  }

  function SaturatingMul(a: nat, b: nat): nat {
    Min(a * b, U64_MAX)
  }

  /** exponential_backoff, in milliseconds. */
  function Delay(attempt: nat, base: nat, max: nat): nat {
    Min(SaturatingMul(base, Min(Pow2(Min(attempt, MAX_ATTEMPT)), U64_MAX)), max)
  }

  lemma {:induction false} Pow2Bounds(n: nat)
    requires n <= MAX_ATTEMPT
    ensures 1 <= Pow2(n) <= Pow2(MAX_ATTEMPT) == 1024
    decreases MAX_ATTEMPT - n
  {
    if n < MAX_ATTEMPT {
      Pow2Bounds(n + 1);
    }
  }

  /** Every delay lies between the base, or the cap if that is smaller, and the cap. */
  lemma DelayBounds(attempt: nat, base: nat, max: nat)
    requires base <= U64_MAX && max <= U64_MAX
    ensures Min(base, max) <= Delay(attempt, base, max) <= max
  {
    var p := Pow2(Min(attempt, MAX_ATTEMPT));
    Pow2Bounds(Min(attempt, MAX_ATTEMPT));
    assert base * p >= base * 1;
  }

  /** Saturation never shows: the cap hides it. */
  lemma DelayIsCappedPower(attempt: nat, base: nat, max: nat)
    requires max <= U64_MAX
    ensures Delay(attempt, base, max) == Min(base * Pow2(Min(attempt, MAX_ATTEMPT)), max)
  {
    Pow2Bounds(Min(attempt, MAX_ATTEMPT));
  }

  lemma {:induction false} PowerDoubles(n: nat)
    ensures Pow2(n + 1) == 2 * Pow2(n) && Pow2(0) == 1
  {
  }

  /** The first delay is the base, each further one up to the tenth doubles it, and from there it stays. */
  lemma DelayDoubles(n: nat, base: nat, max: nat)
    requires max <= 0xFFFF_FFFF_FFFF_FFFF
    ensures Delay(0, base, max) == if base <= max then base else max
    ensures n < 10 ==>
              Delay(n + 1, base, max) == if 2 * Delay(n, base, max) <= max then 2 * Delay(n, base, max) else max
    ensures n >= 10 ==> Delay(n, base, max) == Delay(10, base, max)
  {
    DelayIsCappedPower(0, base, max);
    DelayIsCappedPower(n, base, max);
    DelayIsCappedPower(n + 1, base, max);
    PowerDoubles(n);
    hide Delay, Pow2;
    if n < 10 {
      Doubled(base, Pow2(n), max);
    }
  }

  lemma Doubled(base: nat, p: nat, max: nat)
    ensures Min(base * (2 * p), max) == Min(2 * Min(base * p, max), max)
  {
    assert base * (2 * p) == 2 * (base * p);
  }

  // ----- the counter -----

  type U32 = x: nat | x < U32_SIZE

  class BackoffCounter {
    var counter: U32

    constructor ()
      ensures counter == 0
    {
      counter := 0;
    }

    /** next_delay without interference: the counter runs through 0 to 10 and starts again. */
    method NextDelay(base: nat, max: nat) returns (delay: nat)
      modifies this
      ensures delay == Delay(old(counter), base, max)
      ensures old(counter) <= MAX_ATTEMPT ==> counter == (old(counter) + 1) % 11
      ensures counter <= MAX_ATTEMPT
    {
      var attempt := counter;
      counter := (counter + 1) % U32_SIZE;
      delay := Delay(attempt, base, max);
      if attempt >= MAX_ATTEMPT {
        counter := 0;
      }
    }
  }

  /** The first `n` delays of a fresh counter: the k-th is min(base * 2^(k mod 11), max). */
  method Delays(n: nat, base: nat, max: nat) returns (delays: seq<nat>)
    requires max <= U64_MAX
    ensures |delays| == n
    ensures forall k :: 0 <= k < n ==> delays[k] == Min(base * Pow2(k % 11), max)
    ensures forall k :: 0 <= k < n ==>
              delays[k] == if k % 11 == 0 then Min(base, max) else Min(2 * delays[k - 1], max)
  {
    var c := new BackoffCounter();
    delays := [];
    for k := 0 to n
      invariant c.counter == k % 11 && |delays| == k
      invariant forall j :: 0 <= j < k ==> delays[j] == Min(base * Pow2(j % 11), max)
    {
      DelayIsCappedPower(k % 11, base, max);
      var delay := c.NextDelay(base, max);
      delays := delays + [delay];
    }
    DelaysDouble(delays, base, max);
  }

  lemma DelaysDouble(delays: seq<nat>, base: nat, max: nat)
    requires max <= U64_MAX
    requires forall k :: 0 <= k < |delays| ==> delays[k] == Min(base * Pow2(k % 11), max)
    ensures forall k :: 0 <= k < |delays| ==>
              delays[k] == if k % 11 == 0 then Min(base, max) else Min(2 * delays[k - 1], max)
  {
    forall k | 0 <= k < |delays|
      ensures delays[k] == if k % 11 == 0 then Min(base, max) else Min(2 * delays[k - 1], max)
    {
      PowerDoubles(0);
      if k % 11 != 0 {
        assert (k - 1) % 11 == k % 11 - 1;
        PowerDoubles(k % 11 - 1);
        Doubled(base, Pow2(k % 11 - 1), max);
      }
    }
  }

  // ----- concurrent callers -----

  /** The shared counter, and the callers that drew an attempt of 10 or more and have not reset it yet. */
  datatype State = State(counter: nat, resetting: set<nat>)

  datatype Action = FetchAdd(caller: nat) | Store(caller: nat)

  predicate Enabled(s: State, a: Action) {
    if a.FetchAdd? then a.caller !in s.resetting else a.caller in s.resetting
  }

  function Apply(s: State, a: Action): State
    requires Enabled(s, a)
  {
    match a
    case FetchAdd(caller) =>
      State((s.counter + 1) % U32_SIZE, if s.counter >= MAX_ATTEMPT then s.resetting + {caller} else s.resetting)
    case Store(caller) => State(0, s.resetting - {caller})
  }

  ghost predicate Run(states: seq<State>, actions: seq<Action>) {
    && |states| == |actions| + 1 && states[0] == State(0, {})
    && forall i :: 0 <= i < |actions| ==> Enabled(states[i], actions[i]) && states[i + 1] == Apply(states[i], actions[i])
  }

  /** Without interference the steps of one caller are those of NextDelay: 0 to 10, and again. */
  lemma OneCaller(n: nat, caller: nat)
    requires n <= 10
    ensures var s := State(n, {});
            && Enabled(s, FetchAdd(caller))
            && var t := Apply(s, FetchAdd(caller));
               && (caller in t.resetting <==> n == 10)
               && (if n == 10 then Apply(t, Store(caller)) == State(0, {}) else t == State(n + 1, {}))
  {
  }

  /** The counter never runs ahead of the callers that still owe a reset. */
  lemma {:induction false} CounterBounded(states: seq<State>, actions: seq<Action>, i: nat)
    requires Run(states, actions) && i < |states|
    ensures states[i].counter <= 10 + |states[i].resetting|
  {
    if i > 0 {
      CounterBounded(states, actions, i - 1);
      var s, a := states[i - 1], actions[i - 1];
      assert states[i - 1 + 1] == Apply(s, a);
    }
  }

  /** Callers that owe a reset, together with the current one, would have to number 2^32 - 11 to wrap it. */
  lemma CounterDoesNotWrap(states: seq<State>, actions: seq<Action>, i: nat)
    requires Run(states, actions) && i < |actions| && actions[i].FetchAdd?
    requires |states[i].resetting| < 0x1_0000_0000 - 11
    ensures states[i + 1].counter == states[i].counter + 1
  {
    CounterBounded(states, actions, i);
  }
}
