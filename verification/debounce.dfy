/** The loop between the informer and the provider: it counts events, gathers removals, and
    flushes after a quiet delay or a maximum wait. Runs are instantaneous; time is in
    nanoseconds. */
module Debounce {
  import opened Kube
  import opened Commit
  import opened Informer
  import opened Removal
  import opened Provider
  import opened K8sClient
  import RunSpec

  const DEBOUNCE_DELAY: nat := 200_000_000
  const DEBOUNCE_MAX_DELAY: nat := 10_000_000_000

  /** One call of the provider: how many events it answers and which keys it removes; without
      keys it is a plain run. */
  datatype Batch = Batch(events: nat, keys: Removals)

  /** The loop's variables; `timer` is the deadline of the armed timer. */
  datatype Loop = Loop(eventCount: nat, firstEventTime: nat, timer: Option<nat>, cumulative: Removals)

  const IDLE := Loop(0, 0, None, map[])

  ghost predicate Gathers(libs: Libs, sanitize: bool, before: Removals, event: SecretEvent, after: Removals) {
    match event
    case Added(_) => after == before
    case Updated(secret, oldSecret) => Accumulates(libs, sanitize, before, oldSecret, secret, after)
  }

  /** An event arrives at time `now`. */
  ghost predicate OnEvent(libs: Libs, sanitize: bool, a: Loop, event: SecretEvent, now: nat, b: Loop, flushed: Option<Batch>) {
    var count := a.eventCount + 1;
    var first := if count == 1 then now else a.firstEventTime;
    exists cumulative :: Gathers(libs, sanitize, a.cumulative, event, cumulative) &&
      if now - first >= DEBOUNCE_MAX_DELAY
      then flushed == Some(Batch(count, cumulative)) && b == Loop(0, first, None, map[])
      else flushed == None && b == Loop(count, first, Some(now + DEBOUNCE_DELAY), cumulative)
  }

  lemma EventHandled(libs: Libs, sanitize: bool, a: Loop, event: SecretEvent, now: nat, cumulative: Removals, b: Loop, flushed: Option<Batch>)
    requires Gathers(libs, sanitize, a.cumulative, event, cumulative)
    requires var first := if a.eventCount == 0 then now else a.firstEventTime;
             if now - first >= DEBOUNCE_MAX_DELAY
             then flushed == Some(Batch(a.eventCount + 1, cumulative)) && b == Loop(0, first, None, map[])
             else flushed == None && b == Loop(a.eventCount + 1, first, Some(now + DEBOUNCE_DELAY), cumulative)
    ensures OnEvent(libs, sanitize, a, event, now, b, flushed)
  {
  }

  /** The armed timer fires. */
  ghost predicate OnTimer(a: Loop, b: Loop, flushed: Option<Batch>) {
    && a.timer.Some?
    && flushed == Some(Batch(a.eventCount, a.cumulative))
    && b == Loop(0, a.firstEventTime, None, map[])
  }

  /** How a run of the provider ended, and whether the status file could be written after it. */
  datatype Ran = Ran(updated: bool, ok: bool, statusOk: bool, run: Option<RunSpec.Run>)

  /** An error is reported when the run fails, or when it updated something and the status does
      not get written. */
  predicate Reports(ran: Ran) {
    !ran.ok || (ran.updated && !ran.statusOk)
  }

  class InformerLoop {
    const provider: K8sProvider
    const cluster: K8sCluster
    const fetch: seq<string> -> RunSpec.Fetched
    var eventCount: nat
    var firstEventTime: nat
    var debounceTimer: Option<nat>
    var keysToRemoveCumulative: Removals
    var ready: bool
    var errors: nat

    constructor (provider: K8sProvider, cluster: K8sCluster, fetch: seq<string> -> RunSpec.Fetched)
      ensures State() == IDLE && this.provider == provider && this.cluster == cluster && this.fetch == fetch
      ensures !ready && errors == 0
    {
      this.provider, this.cluster, this.fetch := provider, cluster, fetch;
      eventCount, firstEventTime, debounceTimer, keysToRemoveCumulative := 0, 0, None, map[];
      ready, errors := false, 0;
    }

    ghost function State(): Loop
      reads this
    {
      Loop(eventCount, firstEventTime, debounceTimer, keysToRemoveCumulative)
    }

    ghost predicate CanRun()
      reads provider, cluster
    {
      && provider.Cleared() && cluster.Valid()
      && RunSpec.RunnableOn(provider.libs, provider.sanitizeEnabled, provider.requiredK8sSecrets, fetch, cluster.secrets)
    }

    /** Nothing but a failed Kubernetes call can make a run on these Secrets fail. */
    ghost predicate NoReasonToFail(secrets: Cluster) {
      RunSpec.NoReasonToFail(provider.libs, provider.requiredK8sSecrets, fetch, secrets)
    }

    /** The provider ran on the batch from the given cache and cluster to the present ones, and
        succeeded unless it had a reason to fail. */
    ghost predicate RanOn(cache: Cache, before: Cluster, faults: nat, keys: Removals, ran: Ran)
      reads provider, cluster
    {
      && provider.Cleared() && cluster.Valid()
      && RunSpec.RunOutcome(provider.libs, provider.sanitizeEnabled, provider.requiredK8sSecrets, fetch, keys, before, cache,
                            ran.updated, ran.ok, ran.run, cluster.secrets, provider.prevSecretsChecksums)
      && (cluster.faults == faults && NoReasonToFail(before) ==> ran.ok)
    }

    method SetSecretsUpdated() returns (ok: bool)
    {
      ok := *;
    }

    /** One run, with cleanup if there are keys to remove and without otherwise, and the status
        written after an update. */
    method RunProvider(keys: Removals) returns (updated: bool, ok: bool, statusOk: bool, ghost run: Option<RunSpec.Run>)
      requires CanRun()
      modifies provider, cluster
      ensures RanOn(old(provider.prevSecretsChecksums), old(cluster.secrets), old(cluster.faults), keys, Ran(updated, ok, statusOk, run))
    {
      if keys != map[] {
        updated, ok, run := provider.ProvideWithCleanup(keys, fetch, cluster);
      } else {
        updated, ok, run := provider.Provide(fetch, cluster);
      }
      statusOk := true;
      if ok && updated {
        statusOk := SetSecretsUpdated();
      }
    }

    /** runProvideSecrets: one run on the batch; its outcome is reported and the batch forgotten,
        whatever it was. */
    method RunProvideSecrets() returns (batch: Batch, ghost ran: Ran)
      requires CanRun()
      modifies this, provider, cluster
      ensures batch == Batch(old(eventCount), old(keysToRemoveCumulative))
      ensures State() == Loop(0, old(firstEventTime), None, map[])
      ensures RanOn(old(provider.prevSecretsChecksums), old(cluster.secrets), old(cluster.faults), batch.keys, ran)
      ensures ready == ran.ok && errors == old(errors) + (if Reports(ran) then 1 else 0)
    {
      batch := Batch(eventCount, keysToRemoveCumulative);
      var updated, ok, statusOk;
      ghost var run;
      updated, ok, statusOk, run := RunProvider(keysToRemoveCumulative);
      ran := Ran(updated, ok, statusOk, run);
      Settle(updated, ok, statusOk);
    }

    /** The outcome is reported and the batch forgotten. */
    method Settle(updated: bool, ok: bool, statusOk: bool)
      modifies this
      ensures State() == Loop(0, old(firstEventTime), None, map[])
      ensures ready == ok && errors == old(errors) + (if !ok || (updated && !statusOk) then 1 else 0)
    {
      if keysToRemoveCumulative != map[] {
        keysToRemoveCumulative := map[];
      }
      ready := ok;
      if !ok || (updated && !statusOk) {
        errors := errors + 1;
      }
      debounceTimer := None;
      eventCount := 0;
    }

    /** What one event adds to the pending removals. */
    method GatherKeys(event: SecretEvent)
      modifies this`keysToRemoveCumulative
      ensures Gathers(provider.libs, provider.sanitizeEnabled, old(keysToRemoveCumulative), event, keysToRemoveCumulative)
    {
      if event.Updated? {
        ghost var before := keysToRemoveCumulative;
        var name := event.secret.name;
        keysToRemoveCumulative := provider.MergeReAddedKeys(keysToRemoveCumulative, Some(event.oldSecret), Some(event.secret));
        ghost var merged := keysToRemoveCumulative;
        var keysToRemove := provider.GetRemovedKeys(Some(event.oldSecret), Some(event.secret));
        ghost var removed := RemovalsFor(keysToRemove, name);
        if name in keysToRemove {
          keysToRemoveCumulative := keysToRemoveCumulative[name := RemovalsFor(keysToRemoveCumulative, name) + keysToRemove[name]];
        }
        NothingLost(provider.KeysIn(Some(event.oldSecret)), provider.KeysIn(Some(event.secret)));
        SomeMember(removed);
        assert keysToRemoveCumulative == Extended(merged, name, removed);
        assert Accumulates(provider.libs, provider.sanitizeEnabled, before, event.oldSecret, event.secret, keysToRemoveCumulative);
      }
    }

    /** The event is counted and its keys gathered. */
    method TakeIn(event: SecretEvent, now: nat)
      modifies this`eventCount, this`firstEventTime, this`keysToRemoveCumulative
      ensures eventCount == old(eventCount) + 1 && firstEventTime == if eventCount == 1 then now else old(firstEventTime)
      ensures Gathers(provider.libs, provider.sanitizeEnabled, old(keysToRemoveCumulative), event, keysToRemoveCumulative)
    {
      eventCount := eventCount + 1;
      if eventCount == 1 {
        firstEventTime := now;
      }
      GatherKeys(event);
    }

    /** Past the maximum delay the batch is flushed at once, otherwise the timer is armed anew. */
    method FlushOrWait(ghost before: Loop, ghost event: SecretEvent, now: nat) returns (flushed: Option<Batch>, ghost ran: Option<Ran>)
      requires CanRun()
      requires Gathers(provider.libs, provider.sanitizeEnabled, before.cumulative, event, keysToRemoveCumulative)
      requires eventCount == before.eventCount + 1 && firstEventTime == if eventCount == 1 then now else before.firstEventTime
      modifies this, provider, cluster
      ensures OnEvent(provider.libs, provider.sanitizeEnabled, before, event, now, State(), flushed)
      ensures flushed.Some? <==> ran.Some?
      ensures flushed.Some? ==> RanOn(old(provider.prevSecretsChecksums), old(cluster.secrets), old(cluster.faults), flushed.value.keys, ran.value)
      ensures flushed.None? ==> provider.prevSecretsChecksums == old(provider.prevSecretsChecksums) && cluster.secrets == old(cluster.secrets)
      ensures errors == old(errors) + (if ran.Some? && Reports(ran.value) then 1 else 0)
    {
      ghost var cumulative := keysToRemoveCumulative;
      if now - firstEventTime >= DEBOUNCE_MAX_DELAY {
        var batch;
        ghost var r;
        batch, r := RunProvideSecrets();
        flushed, ran := Some(batch), Some(r);
      } else {
        debounceTimer := Some(now + DEBOUNCE_DELAY);
        flushed, ran := None, None;
      }
      EventHandled(provider.libs, provider.sanitizeEnabled, before, event, now, cumulative, State(), flushed);
    }

    method HandleEvent(event: SecretEvent, now: nat) returns (flushed: Option<Batch>, ghost ran: Option<Ran>)
      requires CanRun()
      modifies this, provider, cluster
      ensures OnEvent(provider.libs, provider.sanitizeEnabled, old(State()), event, now, State(), flushed)
      ensures flushed.Some? <==> ran.Some?
      ensures flushed.Some? ==> RanOn(old(provider.prevSecretsChecksums), old(cluster.secrets), old(cluster.faults), flushed.value.keys, ran.value)
      ensures flushed.None? ==> provider.prevSecretsChecksums == old(provider.prevSecretsChecksums) && cluster.secrets == old(cluster.secrets)
      ensures errors == old(errors) + (if ran.Some? && Reports(ran.value) then 1 else 0)
    {
      ghost var before := State();
      TakeIn(event, now);
      flushed, ran := FlushOrWait(before, event, now);
    }

    method HandleTimer() returns (flushed: Option<Batch>, ghost ran: Ran)
      requires CanRun() && debounceTimer.Some?
      modifies this, provider, cluster
      ensures OnTimer(old(State()), State(), flushed)
      ensures flushed.Some? && RanOn(old(provider.prevSecretsChecksums), old(cluster.secrets), old(cluster.faults), flushed.value.keys, ran)
      ensures errors == old(errors) + (if Reports(ran) then 1 else 0)
    {
      var batch;
      batch, ran := RunProvideSecrets();
      return Some(batch), ran;
    }
  }

  // ---- timed runs ----

  /** An event reaches the loop, the informer drops an update, or the timer fires. */
  datatype Action = Event(event: SecretEvent) | Unseen(secret: Secret) | Timer

  /** Something happens at `time`; `flushed` is the batch it hands to the provider, if any. */
  datatype Moment = Moment(time: nat, action: Action, flushed: Option<Batch>)

  /** Time never passes an armed deadline: the timer fires when due, unless an event arriving at
      that very instant is served first. */
  ghost predicate Happens(libs: Libs, sanitize: bool, a: Loop, m: Moment, b: Loop) {
    match m.action
    case Event(event) => (a.timer.Some? ==> m.time <= a.timer.value) && OnEvent(libs, sanitize, a, event, m.time, b, m.flushed)
    case Unseen(_) => (a.timer.Some? ==> m.time <= a.timer.value) && b == a && m.flushed == None
    case Timer => a.timer == Some(m.time) && OnTimer(a, b, m.flushed)
  }

  ghost predicate TimedRun(libs: Libs, sanitize: bool, loops: seq<Loop>, moments: seq<Moment>) {
    && |loops| == |moments| + 1 && loops[0] == IDLE
    && (forall i, j | 0 <= i < j < |moments| :: moments[i].time <= moments[j].time)
    && (forall i, j | 0 <= i < j == i + 1 <= |moments| :: Happens(libs, sanitize, loops[i], moments[i], loops[j]))
  }

  ghost function EventsIn(moments: seq<Moment>): nat {
    if moments == [] then 0
    else EventsIn(moments[..|moments| - 1]) + (if moments[|moments| - 1].action.Event? then 1 else 0)
  }

  ghost function Answered(moments: seq<Moment>): nat {
    if moments == [] then 0
    else
      var flushed := moments[|moments| - 1].flushed;
      Answered(moments[..|moments| - 1]) + (if flushed.Some? then flushed.value.events else 0)
  }

  /** The timer is armed iff events are pending, its deadline is within the bound, and removals
      are pending only with events. */
  ghost predicate WellTimed(loop: Loop) {
    && (loop.timer.Some? <==> loop.eventCount > 0)
    && (loop.timer.Some? ==> loop.timer.value < loop.firstEventTime + DEBOUNCE_MAX_DELAY + DEBOUNCE_DELAY)
    && (loop.cumulative != map[] ==> loop.eventCount > 0)
  }

  lemma StaysWellTimed(libs: Libs, sanitize: bool, a: Loop, m: Moment, b: Loop)
    requires WellTimed(a) && Happens(libs, sanitize, a, m, b)
    ensures WellTimed(b)
    ensures m.flushed.Some? ==> m.flushed.value.events > 0 && m.time < b.firstEventTime + DEBOUNCE_MAX_DELAY + DEBOUNCE_DELAY
    ensures b.eventCount + (if m.flushed.Some? then m.flushed.value.events else 0) == a.eventCount + (if m.action.Event? then 1 else 0)
  {
  }

  /** Over any arrival pattern: the loop is always well timed; every event is either answered by
      a flushed batch or pending; no batch is empty. */
  lemma {:induction false} ConservesEvents(libs: Libs, sanitize: bool, loops: seq<Loop>, moments: seq<Moment>)
    requires TimedRun(libs, sanitize, loops, moments)
    ensures forall i | 0 <= i < |loops| :: WellTimed(loops[i])
    ensures Answered(moments) + loops[|moments|].eventCount == EventsIn(moments)
    ensures forall i | 0 <= i < |moments| && moments[i].flushed.Some? :: moments[i].flushed.value.events > 0
  {
    if moments != [] {
      var n := |moments| - 1;
      ConservesEvents(libs, sanitize, loops[..|loops| - 1], moments[..n]);
      assert loops[..|loops| - 1][n] == loops[n] && WellTimed(loops[n]);
      StaysWellTimed(libs, sanitize, loops[n], moments[n], loops[n + 1]);
    }
  }

  /** Index of the event that opened the batch pending after `n` moments. */
  ghost predicate Opens(loops: seq<Loop>, moments: seq<Moment>, i: nat, n: nat) {
    && i < n <= |moments| && |loops| == |moments| + 1
    && moments[i].action.Event? && loops[i].eventCount == 0
    && forall j | i < j <= n :: loops[j].eventCount > 0
  }

  lemma {:induction false} FirstEventOpens(libs: Libs, sanitize: bool, loops: seq<Loop>, moments: seq<Moment>, n: nat) returns (i: nat)
    requires TimedRun(libs, sanitize, loops, moments) && n <= |moments| && loops[n].eventCount > 0
    ensures Opens(loops, moments, i, n) && loops[n].firstEventTime == moments[i].time
  {
    assert n > 0;
    assert Happens(libs, sanitize, loops[n - 1], moments[n - 1], loops[n]);
    if loops[n - 1].eventCount == 0 {
      i := n - 1;
    } else {
      i := FirstEventOpens(libs, sanitize, loops, moments, n - 1);
    }
  }

  /** Every batch is flushed before 10 s + 200 ms after its first event, and an event that is
      still pending has not waited longer than that at the latest moment either. */
  lemma FlushedInTime(libs: Libs, sanitize: bool, loops: seq<Loop>, moments: seq<Moment>, n: nat) returns (i: nat)
    requires TimedRun(libs, sanitize, loops, moments) && n < |moments|
    requires loops[n].eventCount > 0
    ensures Opens(loops, moments, i, n)
    ensures moments[n].time < moments[i].time + 10_200_000_000
  {
    ConservesEvents(libs, sanitize, loops, moments);
    i := FirstEventOpens(libs, sanitize, loops, moments, n);
    assert WellTimed(loops[n]);
    assert Happens(libs, sanitize, loops[n], moments[n], loops[n + 1]);
  }

  /** Index of the last event before `n`. */
  ghost predicate LastEvent(moments: seq<Moment>, j: nat, n: nat) {
    && j < n <= |moments| && moments[j].action.Event?
    && forall k | j < k < n :: !moments[k].action.Event?
  }

  lemma {:induction false} LastEventArms(libs: Libs, sanitize: bool, loops: seq<Loop>, moments: seq<Moment>, n: nat) returns (j: nat)
    requires TimedRun(libs, sanitize, loops, moments) && n <= |moments| && loops[n].timer.Some?
    ensures LastEvent(moments, j, n) && loops[n].timer.value == moments[j].time + 200_000_000
  {
    assert n > 0;
    assert Happens(libs, sanitize, loops[n - 1], moments[n - 1], loops[n]);
    if moments[n - 1].action.Event? {
      j := n - 1;
    } else {
      j := LastEventArms(libs, sanitize, loops, moments, n - 1);
    }
  }

  /** No batch is flushed early: by the timer 200 ms after the last event, by an event once 10 s
      have passed since the first. */
  lemma FlushedNotEarly(libs: Libs, sanitize: bool, loops: seq<Loop>, moments: seq<Moment>, n: nat) returns (i: nat, j: nat)
    requires TimedRun(libs, sanitize, loops, moments) && n < |moments| && moments[n].flushed.Some?
    ensures Opens(loops, moments, i, n) && LastEvent(moments, j, n)
    ensures moments[n].action.Timer? ==> moments[n].time == moments[j].time + 200_000_000
    ensures moments[n].action.Event? ==> moments[n].time >= moments[i].time + 10_000_000_000
    ensures !moments[n].action.Unseen?
  {
    ConservesEvents(libs, sanitize, loops, moments);
    assert WellTimed(loops[n]);
    assert Happens(libs, sanitize, loops[n], moments[n], loops[n + 1]);
    i := FirstEventOpens(libs, sanitize, loops, moments, n);
    j := LastEventArms(libs, sanitize, loops, moments, n);
  }
}
