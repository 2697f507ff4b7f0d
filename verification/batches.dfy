/** What the flushed batches contain: the debounce loop and the informer's filter seen together
    with the Secrets they watch. */
module Batches {
  import opened Kube
  import opened Commit
  import opened Destinations
  import opened Gather
  import opened Informer
  import opened Removal
  import opened Debounce
  import RunSpec
  import Runs

  /** What a moment does to the watched Secrets. */
  function UpdatesOf(m: Moment): seq<Step> {
    match m.action
    case Event(Updated(secret, _)) => [Update(secret)]
    case Unseen(secret) => [Update(secret)]
    case _ => []
  }

  /** The batch, if any, leaves after the update. */
  function StepsOf(m: Moment): seq<Step> {
    UpdatesOf(m) + (if m.flushed.Some? then [Flush] else [])
  }

  function AllSteps(moments: seq<Moment>): seq<Step> {
    if moments == [] then [] else AllSteps(moments[..|moments| - 1]) + StepsOf(moments[|moments| - 1])
  }

  /** The moment is what the informer makes of one update of a watched Secret that stays
      labelled: forwarded with its old state, or dropped. Creations concern other Secrets. */
  ghost predicate Seen(current: Cluster, m: Moment) {
    match m.action
    case Event(Updated(secret, oldSecret)) =>
      && secret.name in current && current[secret.name] == oldSecret
      && Forwarded(oldSecret, secret) && HasManagedByProviderLabel(secret)
    case Event(Added(secret)) => secret.name !in current
    case Unseen(secret) =>
      secret.name in current && !Forwarded(current[secret.name], secret) && HasManagedByProviderLabel(secret)
    case Timer => true
  }

  ghost predicate Faithful(initial: Cluster, moments: seq<Moment>) {
    && (forall s | s in initial :: initial[s].name == s && HasManagedByProviderLabel(initial[s]))
    && forall i | 0 <= i < |moments| :: Seen(Current(initial, AllSteps(moments[..i])), moments[i])
  }

  /** The Secrets when the batch of moment `n` is handed over: everything up to the moment's own
      update. */
  function UpTo(moments: seq<Moment>, n: nat): seq<Step>
    requires n < |moments|
  {
    AllSteps(moments[..n]) + UpdatesOf(moments[n])
  }

  lemma AllStepsStep(moments: seq<Moment>, n: nat)
    requires n < |moments|
    ensures AllSteps(moments[..n + 1]) == UpTo(moments, n) + (if moments[n].flushed.Some? then [Flush] else [])
  {
    assert moments[..n + 1][..n] == moments[..n];
  }

  lemma MomentLabelled(initial: Cluster, steps: seq<Step>, current: Cluster, m: Moment)
    requires StayLabelled(initial, steps) && Seen(current, m)
    ensures StayLabelled(initial, steps + UpdatesOf(m))
    ensures StayLabelled(initial, steps + StepsOf(m))
  {
    assert forall i | 0 <= i < |StepsOf(m)| && StepsOf(m)[i].Update? :: HasManagedByProviderLabel(StepsOf(m)[i].secret);
  }

  lemma {:induction false} StayLabelledBefore(initial: Cluster, moments: seq<Moment>, n: nat)
    requires Faithful(initial, moments) && n <= |moments|
    ensures StayLabelled(initial, AllSteps(moments[..n]))
  {
    if n > 0 {
      var front := moments[..n - 1];
      StayLabelledBefore(initial, moments, n - 1);
      MomentLabelled(initial, AllSteps(front), Current(initial, AllSteps(front)), moments[n - 1]);
      assert moments[..n][..n - 1] == front;
    }
  }

  lemma RunExtends(libs: Libs, initial: Cluster, steps: seq<Step>, sums: seq<Removals>, step: Step, b: Removals)
    requires Run(libs, initial, steps, sums)
    requires Stepped(libs, Current(initial, steps), step, sums[|steps|], b)
    ensures Run(libs, initial, steps + [step], sums + [b])
  {
    var longer, all := steps + [step], sums + [b];
    forall i | 0 <= i < |longer| ensures Stepped(libs, Current(initial, longer[..i]), longer[i], all[i], all[i + 1]) {
      assert longer[..i] == steps[..i];
      assert steps[..|steps|] == steps;
    }
  }

  /** One moment in the eyes of the accumulation: its update first, then its flush. */
  lemma MomentSteps(libs: Libs, initial: Cluster, steps: seq<Step>, sums: seq<Removals>, a: Loop, m: Moment, b: Loop) returns (sums': seq<Removals>)
    requires Run(libs, initial, steps, sums) && sums[|steps|] == a.cumulative
    requires Happens(libs, true, a, m, b) && Seen(Current(initial, steps), m)
    ensures var mid := steps + UpdatesOf(m);
            && Run(libs, initial, mid, sums')
            && (if m.flushed.Some? then sums'[|mid|] == m.flushed.value.keys && b.cumulative == map[] else sums'[|mid|] == b.cumulative)
  {
    match m.action
    case Event(event) =>
      var cumulative :| Gathers(libs, true, a.cumulative, event, cumulative) &&
        if m.flushed.Some? then m.flushed.value.keys == cumulative && b.cumulative == map[] else b.cumulative == cumulative;
      if event.Updated? {
        RunExtends(libs, initial, steps, sums, Update(event.secret), cumulative);
        sums' := sums + [cumulative];
      } else {
        assert steps + [] == steps;
        sums' := sums;
      }
    case Unseen(secret) =>
      RunExtends(libs, initial, steps, sums, Update(secret), a.cumulative);
      sums' := sums + [a.cumulative];
    case Timer =>
      assert steps + [] == steps;
      sums' := sums;
  }

  /** The loop's pending removals are the accumulation of the moments so far. */
  lemma {:induction false} LoopAccumulates(libs: Libs, initial: Cluster, loops: seq<Loop>, moments: seq<Moment>, n: nat) returns (sums: seq<Removals>)
    requires TimedRun(libs, true, loops, moments) && Faithful(initial, moments) && n <= |moments|
    ensures Run(libs, initial, AllSteps(moments[..n]), sums) && sums[|AllSteps(moments[..n])|] == loops[n].cumulative
  {
    if n == 0 {
      sums := [map[]];
    } else {
      var before := LoopAccumulates(libs, initial, loops, moments, n - 1);
      var m := moments[n - 1];
      assert Happens(libs, true, loops[n - 1], m, loops[n]) && Seen(Current(initial, AllSteps(moments[..n - 1])), m);
      sums := MomentSteps(libs, initial, AllSteps(moments[..n - 1]), before, loops[n - 1], m, loops[n]);
      AllStepsStep(moments, n - 1);
      var mid := UpTo(moments, n - 1);
      if m.flushed.Some? {
        RunExtends(libs, initial, mid, sums, Flush, map[]);
        sums := sums + [map[]];
      } else {
        assert mid + [] == mid;
      }
    }
  }

  /** End to end, for any arrival pattern and whatever the informer drops: the keys a batch asks
      the provider to remove from a Secret are, without repetition, exactly those its conjur-map
      has held since the previous batch and holds no longer. */
  lemma BatchRemovesExactly(libs: Libs, initial: Cluster, loops: seq<Loop>, moments: seq<Moment>, n: nat, s: string)
    requires TimedRun(libs, true, loops, moments) && Faithful(initial, moments)
    requires n < |moments| && moments[n].flushed.Some? && s in initial
    ensures s in Current(initial, UpTo(moments, n))
    ensures var list := RemovalsFor(moments[n].flushed.value.keys, s);
            && NoDup(list)
            && Elements(list) == EverHeld(libs, initial, UpTo(moments, n), s) - ConjurMapKeys(libs, Current(initial, UpTo(moments, n))[s])
            && forall k :: k in list <==>
                 (exists m :: HeldAfter(libs, initial, UpTo(moments, n), s, k, m)) && !HoldsKey(libs, Current(initial, UpTo(moments, n))[s], k)
  {
    var before := LoopAccumulates(libs, initial, loops, moments, n);
    assert Happens(libs, true, loops[n], moments[n], loops[n + 1]);
    var sums := MomentSteps(libs, initial, AllSteps(moments[..n]), before, loops[n], moments[n], loops[n + 1]);
    StayLabelledBefore(initial, moments, n);
    MomentLabelled(initial, AllSteps(moments[..n]), Current(initial, AllSteps(moments[..n])), moments[n]);
    AccumulatesExactly(libs, initial, UpTo(moments, n), sums, s);
    ListedIffHeld(libs, initial, UpTo(moments, n), s, RemovalsFor(moments[n].flushed.value.keys, s));
  }

  lemma ListedIffHeld(libs: Libs, initial: Cluster, steps: seq<Step>, s: string, list: seq<string>)
    requires s in initial && s in Current(initial, steps)
    requires Elements(list) == EverHeld(libs, initial, steps, s) - ConjurMapKeys(libs, Current(initial, steps)[s])
    ensures forall k :: k in list <==>
              (exists m :: HeldAfter(libs, initial, steps, s, k, m)) && !HoldsKey(libs, Current(initial, steps)[s], k)
  {
    KeysAreHeld(libs, Current(initial, steps)[s]);
    forall k ensures k in list <==> (exists m :: HeldAfter(libs, initial, steps, s, k, m)) && !HoldsKey(libs, Current(initial, steps)[s], k) {
      EverHeldIff(libs, initial, steps, s, k);
      assert k in list <==> k in Elements(list);
    }
  }

  /** So a destination the Secret had at any moment since the previous batch, and whose key its
      conjur-map has no longer, is listed by that key. */
  lemma DroppedDestinationIsListed(libs: Libs, initial: Cluster, loops: seq<Loop>, moments: seq<Moment>, n: nat, s: string, m: nat, v: string, d: Dest)
    requires TimedRun(libs, true, loops, moments) && Faithful(initial, moments)
    requires n < |moments| && moments[n].flushed.Some? && s in initial
    requires m <= |UpTo(moments, n)| && NoFlushFrom(UpTo(moments, n), m) && s in Current(initial, UpTo(moments, n)[..m])
    requires Contributes(libs, Current(initial, UpTo(moments, n)[..m])[s], v, d)
    requires s in Current(initial, UpTo(moments, n)) && !HoldsKey(libs, Current(initial, UpTo(moments, n))[s], d.secretName)
    ensures d.secretName in RemovalsFor(moments[n].flushed.value.keys, s)
  {
    BatchRemovesExactly(libs, initial, loops, moments, n, s);
    DestinationKeyIsHeld(libs, Current(initial, UpTo(moments, n)[..m])[s], v, d);
    assert HeldAfter(libs, initial, UpTo(moments, n), s, d.secretName, m);
  }

  /** And after a completed run on the batch: no key the Secret's conjur-map has held since the
      previous batch and holds no longer is left in the Secret unless the new data fills it, and
      every key still mapped that was there is there. The run must see the Secret, and its new
      data must differ from what was last recorded. */
  lemma BatchLeavesNoStaleKey(libs: Libs, required: seq<string>, initial: Cluster, loops: seq<Loop>, moments: seq<Moment>, n: nat, s: string,
                              before: Cluster, cache: Cache, run: RunSpec.Run, after: Cluster, cache': Cache)
    requires TimedRun(libs, true, loops, moments) && Faithful(initial, moments)
    requires n < |moments| && moments[n].flushed.Some? && s in initial
    requires RunSpec.Happened(libs, true, required, before, cache, run, after, cache') && RunSpec.Completed(libs, cache, run)
    requires run.keys == moments[n].flushed.value.keys
    requires Runs.LookedAt(libs, required, before, s) && (s in run.keys ==> s in Stale(libs, cache, run.newData))
    ensures s in Current(initial, UpTo(moments, n)) && s in after
    ensures forall k | k in EverHeld(libs, initial, UpTo(moments, n), s) && k !in ConjurMapKeys(libs, Current(initial, UpTo(moments, n))[s]) ::
              k in DataOf(after[s]) ==> s in run.newData && k in run.newData[s]
    ensures forall k | k in ConjurMapKeys(libs, Current(initial, UpTo(moments, n))[s]) && k in DataOf(before[s]) :: k in DataOf(after[s])
  {
    BatchRemovesExactly(libs, initial, loops, moments, n, s);
    ListedGoOthersStay(libs, required, before, cache, run, after, cache', s);
    assert forall k :: k in Elements(RemovalsFor(run.keys, s)) <==> k in RemovalsFor(run.keys, s);
  }

  /** Of the listed keys only those with new data are left; no other key is lost. */
  lemma ListedGoOthersStay(libs: Libs, required: seq<string>, before: Cluster, cache: Cache, run: RunSpec.Run, after: Cluster, cache': Cache, s: string)
    requires RunSpec.Happened(libs, true, required, before, cache, run, after, cache') && RunSpec.Completed(libs, cache, run)
    requires Runs.LookedAt(libs, required, before, s) && (s in run.keys ==> s in Stale(libs, cache, run.newData))
    ensures s in after
    ensures forall k | k in RemovalsFor(run.keys, s) && k in DataOf(after[s]) :: s in run.newData && k in run.newData[s]
    ensures forall k | k !in RemovalsFor(run.keys, s) && k in DataOf(before[s]) :: k in DataOf(after[s])
  {
    if s in run.keys {
      Runs.ListedKeysGo(libs, true, required, before, cache, run, after, cache', s);
    }
    StillThere(libs, required, before, cache, run, after, cache', s);
    forall k | k in DataOf(before[s]) && k !in RemovalsFor(run.keys, s) ensures k in DataOf(after[s]) {
      KeyKept(libs, required, before, cache, run, after, cache', s, k);
    }
  }

  lemma StillThere(libs: Libs, required: seq<string>, before: Cluster, cache: Cache, run: RunSpec.Run, after: Cluster, cache': Cache, s: string)
    requires RunSpec.Happened(libs, true, required, before, cache, run, after, cache') && s in before
    ensures s in after
  {
    assert after.Keys == before.Keys;
  }

  lemma KeyKept(libs: Libs, required: seq<string>, before: Cluster, cache: Cache, run: RunSpec.Run, after: Cluster, cache': Cache, s: string, k: string)
    requires RunSpec.Happened(libs, true, required, before, cache, run, after, cache')
    requires s in before && k in DataOf(before[s]) && k !in RemovalsFor(run.keys, s)
    ensures s in after && k in DataOf(after[s])
  {
    if s in run.done {
      Runs.WrittenSecret(libs, true, required, before, cache, run, after, cache', s, k);
    } else {
      Runs.UnwrittenSecret(libs, true, required, before, cache, run, after, cache', s);
    }
  }
}
