/** The bounded retry around a provider function. The loop of the backoff library is: reset the
    policy, then call, and after a failure ask the policy for the next delay, which may say stop. */
module Retry {

  const STOP := -1

  datatype Attempt = Attempt(updated: bool, ok: bool)

  class LimitedBackOff {
    const interval: int
    const retryLimit: int
    var retryCount: nat

    constructor (interval: int, retryLimit: int)
      ensures this.interval == interval && this.retryLimit == retryLimit && retryCount == 0
    {
      this.interval, this.retryLimit, retryCount := interval, retryLimit, 0;
    }

    method Reset()
      modifies this
      ensures retryCount == 0
    {
      retryCount := 0;
    }

    method NextBackOff() returns (delay: int)
      modifies this
      ensures var stops := retryLimit >= 0 && old(retryCount) >= retryLimit;
              delay == (if stops then STOP else interval) && retryCount == (if stops then old(retryCount) else old(retryCount) + 1)
    {
      if retryLimit >= 0 && retryCount >= retryLimit {
        return STOP;
      }
      retryCount := retryCount + 1;
      return interval;
    }
  }

  /** A provider function whose i-th call has the i-th outcome of a script. */
  class ScriptedProvider {
    const script: nat -> Attempt
    var calls: nat

    constructor (script: nat -> Attempt)
      ensures this.script == script && calls == 0
    {
      this.script, calls := script, 0;
    }

    method Provide() returns (r: Attempt)
      modifies this
      ensures r == script(old(calls)) && calls == old(calls) + 1
    {
      r := script(calls);
      calls := calls + 1;
    }
  }

  ghost predicate Succeeds(script: nat -> Attempt, start: nat, i: nat) {
    script(start + i).ok
  }

  /** `total` calls from number `start` on: all fail but perhaps the last, which succeeds unless
      the limit is used up. */
  ghost predicate Ends(script: nat -> Attempt, start: nat, limit: int, total: nat) {
    && total > 0
    && (forall i: nat | i < total - 1 :: !Succeeds(script, start, i))
    && (limit >= 0 ==> total <= limit + 1)
    && (Succeeds(script, start, total - 1) || total == limit + 1)
  }

  ghost predicate FirstSuccess(script: nat -> Attempt, start: nat, i: nat) {
    Succeeds(script, start, i) && forall j: nat | j < i :: !Succeeds(script, start, j)
  }

  /** The number of calls is the position of the first success, but no more than the limit
      allows; without a success it is the limit plus one. */
  lemma EndsAfter(script: nat -> Attempt, start: nat, limit: int, total: nat, first: nat)
    requires Ends(script, start, limit, total)
    ensures FirstSuccess(script, start, first) ==> total == if limit >= 0 && limit < first then limit + 1 else first + 1
    ensures (forall i: nat :: !Succeeds(script, start, i)) ==> limit >= 0 && total == limit + 1
  {
    var last: nat := total - 1;
    assert Succeeds(script, start, last) || total == limit + 1;
  }

  /** Without a limit the loop can only end on the first success. */
  lemma UnlimitedEndsOnSuccess(script: nat -> Attempt, start: nat, limit: int, total: nat)
    requires limit < 0 && Ends(script, start, limit, total)
    ensures FirstSuccess(script, start, total - 1)
  {
  }

  /** The outcomes of `n` calls. */
  ghost function Outcomes(script: nat -> Attempt, start: nat, n: nat): seq<Attempt> {
    if n == 0 then [] else Outcomes(script, start, n - 1) + [script(start + (n - 1))]
  }

  class RetryableProvider {
    const backOff: LimitedBackOff
    const wrapped: ScriptedProvider
    var retried: seq<Attempt>

    constructor (backOff: LimitedBackOff, wrapped: ScriptedProvider)
      ensures this.backOff == backOff && this.wrapped == wrapped && retried == []
    {
      this.backOff, this.wrapped, retried := backOff, wrapped, [];
    }

    /** `horizon` witnesses that an unlimited retry meets a success; each failed attempt that is
        retried is reported through `retried` once. */
    method Provide(ghost horizon: nat) returns (r: Attempt)
      requires backOff.interval >= 0
      requires backOff.retryLimit >= 0 || Succeeds(wrapped.script, wrapped.calls, horizon)
      modifies this, backOff, wrapped
      ensures wrapped.calls > old(wrapped.calls)
      ensures var total := wrapped.calls - old(wrapped.calls);
              && Ends(wrapped.script, old(wrapped.calls), backOff.retryLimit, total)
              && r == wrapped.script(wrapped.calls - 1)
              && retried == old(retried) + Outcomes(wrapped.script, old(wrapped.calls), total - 1)
              && backOff.retryCount == total - 1
    {
      ghost var start, before := wrapped.calls, retried;
      backOff.Reset();
      while true
        invariant wrapped.calls == start + backOff.retryCount
        invariant backOff.retryLimit >= 0 ==> backOff.retryCount <= backOff.retryLimit
        invariant forall i: nat | i < backOff.retryCount :: !Succeeds(wrapped.script, start, i)
        invariant backOff.retryLimit < 0 ==> backOff.retryCount <= horizon
        invariant retried == before + Outcomes(wrapped.script, start, backOff.retryCount)
        decreases (if backOff.retryLimit >= 0 then backOff.retryLimit else horizon) - backOff.retryCount
      {
        r := wrapped.Provide();
        assert r.ok == Succeeds(wrapped.script, start, backOff.retryCount);
        if r.ok {
          return;
        }
        var delay := backOff.NextBackOff();
        if delay == STOP {
          return;
        }
        retried := retried + [r];
      }
    }
  }
}
