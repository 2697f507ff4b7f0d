/** The provider that skips writes by checksum refines one that always writes: whatever the
    faults, the cluster goes through states an always-writing provider could go through. */
module Refinement {
  import opened Kube
  import opened Checksum
  import opened SecretData
  import opened Destinations
  import opened Commit
  import opened RunSpec
  import opened Runs

  /** A provider without cache: any subset of the Secrets is written before a fault, all of them
      when there is none. */
  ghost predicate AlwaysWrites(before: Cluster, newData: NewData, keys: Removals, written: set<string>, ok: bool, after: Cluster) {
    && written <= newData.Keys && newData.Keys <= before.Keys
    && (ok <==> written == newData.Keys)
    && after == SecretsAfter(before, before, keys, newData, written)
  }

  ghost predicate CouldAlwaysWrite(before: Cluster, newData: NewData, keys: Removals, ok: bool, after: Cluster) {
    exists written :: AlwaysWrites(before, newData, keys, written, ok, after)
  }

  /** One run of the caching provider, which wrote `done` before a fault or all that was stale. */
  ghost predicate SkipsUnchanged(libs: Libs, before: Cluster, cache: Cache, newData: NewData, keys: Removals, done: set<string>, ok: bool, after: Cluster, cache': Cache) {
    && newData.Keys <= before.Keys
    && Committed(libs, before, cache, before, keys, newData, done, after, cache')
    && (ok <==> done == Stale(libs, cache, newData))
  }

  /** The Secret holds everything the provider last wrote to it. */
  ghost predicate Holds(secret: Secret, entries: Data) {
    && secret.data.Some?
    && forall k | k in entries :: k in secret.data.value && secret.data.value[k] == entries[k]
  }

  /** The checksum stands for these entries, and the Secret holds them. */
  ghost predicate Vouches(libs: Libs, checksum: Bytes, secret: Secret, entries: Data) {
    PrintableKeys(entries) && checksum == ChecksumOf(libs, entries) && Holds(secret, entries)
  }

  /** A recorded checksum means the cluster agrees with that written map on all its keys. */
  ghost predicate CacheSound(libs: Libs, cluster: Cluster, cache: Cache) {
    forall s | s in cache :: s in cluster && exists entries :: Vouches(libs, cache[s], cluster[s], entries)
  }

  /** Others may do anything to the cluster except change what the provider last wrote. */
  ghost predicate EditedByOthers(libs: Libs, before: Cluster, cache: Cache, after: Cluster) {
    forall s, entries | s in cache && s in before && Vouches(libs, cache[s], before[s], entries) ::
      s in after && Holds(after[s], entries)
  }

  datatype State = State(cluster: Cluster, cache: Cache)
  /** A run, with the keys it was given to remove, or other people's edits. */
  datatype Step =
    | RunStep(newData: NewData, keys: Removals, done: set<string>, ok: bool)
    | EditStep

  ghost predicate Moves(libs: Libs, a: State, step: Step, b: State) {
    match step
    case RunStep(newData, keys, done, ok) =>
      && (forall s | s in newData :: PrintableKeys(newData[s]))
      && SkipsUnchanged(libs, a.cluster, a.cache, newData, keys, done, ok, b.cluster, b.cache)
    case EditStep => b.cache == a.cache && EditedByOthers(libs, a.cluster, a.cache, b.cluster)
  }

  ghost predicate Trace(libs: Libs, states: seq<State>, steps: seq<Step>) {
    && |states| == |steps| + 1
    && forall i | 0 <= i < |steps| :: Moves(libs, states[i], steps[i], states[i + 1])
  }

  lemma WriteHolds(secret: Secret, removed: seq<string>, entries: Data)
    ensures Holds(Overlaid(secret, removed, entries), entries)
  {
  }

  /** None of the keys to remove is there, except those that are written. */
  ghost predicate NothingToRemove(secret: Secret, removed: seq<string>, entries: Data) {
    forall k | k in removed && k !in entries :: k !in DataOf(secret)
  }

  /** Laying over what is already held changes nothing exactly when nothing is left to remove. */
  lemma RewriteIsIdentityIff(secret: Secret, removed: seq<string>, entries: Data)
    requires Holds(secret, entries)
    ensures Overlaid(secret, removed, entries) == secret <==> NothingToRemove(secret, removed, entries)
  {
    var data := secret.data.value;
    var rewritten := (data - Elements(removed)) + entries;
    if NothingToRemove(secret, removed, entries) {
      assert rewritten == data;
    }
    if rewritten == data {
      forall k | k in removed && k !in entries ensures k !in data {
        assert k !in rewritten;
      }
    }
  }

  lemma RunKeepsCacheSound(libs: Libs, a: State, step: Step, b: State)
    requires step.RunStep? && Moves(libs, a, step, b) && CacheSound(libs, a.cluster, a.cache)
    ensures CacheSound(libs, b.cluster, b.cache)
  {
    var newData, keys, done := step.newData, step.keys, step.done;
    var sums := Sums(libs, newData);
    forall s | s in b.cache ensures s in b.cluster && exists entries :: Vouches(libs, b.cache[s], b.cluster[s], entries) {
      if s in done {
        WriteHolds(a.cluster[s], RemovalsFor(keys, s), newData[s]);
        assert b.cache[s] == sums[s];
        assert b.cluster[s] == Overlaid(a.cluster[s], RemovalsFor(keys, s), newData[s]);
        assert Vouches(libs, b.cache[s], b.cluster[s], newData[s]);
      } else {
        assert b.cache[s] == a.cache[s] && b.cluster[s] == a.cluster[s];
      }
    }
  }

  lemma EditKeepsCacheSound(libs: Libs, a: State, b: State)
    requires Moves(libs, a, EditStep, b) && CacheSound(libs, a.cluster, a.cache)
    ensures CacheSound(libs, b.cluster, b.cache)
  {
    forall s | s in b.cache ensures s in b.cluster && exists entries :: Vouches(libs, b.cache[s], b.cluster[s], entries) {
      var entries :| Vouches(libs, a.cache[s], a.cluster[s], entries);
      assert s in b.cluster && Holds(b.cluster[s], entries);
      assert Vouches(libs, b.cache[s], b.cluster[s], entries);
    }
  }

  lemma {:induction false} AlwaysCacheSound(libs: Libs, states: seq<State>, steps: seq<Step>, i: nat)
    requires Trace(libs, states, steps) && states[0].cache == map[] && i < |states|
    ensures CacheSound(libs, states[i].cluster, states[i].cache)
  {
    if i > 0 {
      AlwaysCacheSound(libs, states, steps, i - 1);
      assert Moves(libs, states[i - 1], steps[i - 1], states[i]);
      if steps[i - 1].EditStep? {
        EditKeepsCacheSound(libs, states[i - 1], states[i]);
      } else {
        RunKeepsCacheSound(libs, states[i - 1], steps[i - 1], states[i]);
      }
    }
  }

  /** A Secret that is not stale already holds its new data. */
  lemma FreshHolds(libs: Libs, cluster: Cluster, cache: Cache, newData: NewData, s: string)
    requires Injective(libs) && CacheSound(libs, cluster, cache)
    requires s in newData && PrintableKeys(newData[s]) && s !in Stale(libs, cache, newData)
    ensures s in cluster && Holds(cluster[s], newData[s])
  {
    assert s in cache && cache[s] == Sums(libs, newData)[s] == ChecksumOf(libs, newData[s]);
    var entries :| Vouches(libs, cache[s], cluster[s], entries);
    TextInjective(entries, newData[s]);
  }

  /** No Secret that is not stale holds a key it was to lose. */
  ghost predicate FreshAreClean(libs: Libs, cluster: Cluster, cache: Cache, newData: NewData, keys: Removals) {
    forall s | s in newData && s in cluster && s !in Stale(libs, cache, newData) :: NothingToRemove(cluster[s], RemovalsFor(keys, s), newData[s])
  }

  /** Writing the Secrets that are not stale as well makes no difference exactly when they hold
      no key they were to lose. */
  lemma FreshWritesAreInvisibleIff(libs: Libs, before: Cluster, cache: Cache, newData: NewData, keys: Removals)
    requires Injective(libs) && CacheSound(libs, before, cache)
    requires newData.Keys <= before.Keys && forall s | s in newData :: PrintableKeys(newData[s])
    ensures SecretsAfter(before, before, keys, newData, newData.Keys) == SecretsAfter(before, before, keys, newData, Stale(libs, cache, newData))
            <==> FreshAreClean(libs, before, cache, newData, keys)
  {
    var stale := Stale(libs, cache, newData);
    var all, some := SecretsAfter(before, before, keys, newData, newData.Keys), SecretsAfter(before, before, keys, newData, stale);
    forall s | s in newData && s !in stale
      ensures all[s] == some[s] <==> NothingToRemove(before[s], RemovalsFor(keys, s), newData[s])
    {
      FreshHolds(libs, before, cache, newData, s);
      RewriteIsIdentityIff(before[s], RemovalsFor(keys, s), newData[s]);
    }
    SameWhereUntouched(before, keys, newData, stale);
  }

  lemma SameWhereUntouched(before: Cluster, keys: Removals, newData: NewData, stale: set<string>)
    ensures var all, some := SecretsAfter(before, before, keys, newData, newData.Keys), SecretsAfter(before, before, keys, newData, stale);
            all == some <==> forall s | s in newData && s in before && s !in stale :: all[s] == some[s]
  {
    var all, some := SecretsAfter(before, before, keys, newData, newData.Keys), SecretsAfter(before, before, keys, newData, stale);
    assert forall s | s in before && (s !in newData || s in stale) :: all[s] == some[s];
  }

  /** Over any run of provider steps, with or without removals and including runs that fail
      part-way, and other people's edits, starting with an empty cache: a provider step is one the
      always-writing provider takes from the same cluster to the same cluster with the same result,
      always if it fails or removes nothing, and otherwise exactly when no Secret it skips holds a
      key it was to lose. */
  lemma SkippingRefinesAlwaysWriting(libs: Libs, states: seq<State>, steps: seq<Step>, i: nat)
    requires Injective(libs) && Trace(libs, states, steps) && states[0].cache == map[]
    requires i < |steps| && steps[i].RunStep?
    ensures var RunStep(newData, keys, done, ok) := steps[i];
            CouldAlwaysWrite(states[i].cluster, newData, keys, ok, states[i + 1].cluster)
            <==> !ok || FreshAreClean(libs, states[i].cluster, states[i].cache, newData, keys)
    ensures steps[i].keys == map[] ==> FreshAreClean(libs, states[i].cluster, states[i].cache, steps[i].newData, steps[i].keys)
  {
    AlwaysCacheSound(libs, states, steps, i);
    var RunStep(newData, keys, done, ok) := steps[i];
    assert Moves(libs, states[i], steps[i], states[i + 1]);
    StepRefines(libs, states[i], newData, keys, done, ok, states[i + 1]);
  }

  lemma StepRefines(libs: Libs, a: State, newData: NewData, keys: Removals, done: set<string>, ok: bool, b: State)
    requires Injective(libs) && CacheSound(libs, a.cluster, a.cache) && Moves(libs, a, RunStep(newData, keys, done, ok), b)
    ensures CouldAlwaysWrite(a.cluster, newData, keys, ok, b.cluster)
            <==> !ok || FreshAreClean(libs, a.cluster, a.cache, newData, keys)
  {
    FreshWritesAreInvisibleIff(libs, a.cluster, a.cache, newData, keys);
    if ok {
      assert FreshAreClean(libs, a.cluster, a.cache, newData, keys) ==> AlwaysWrites(a.cluster, newData, keys, newData.Keys, ok, b.cluster);
    } else {
      assert done < Stale(libs, a.cache, newData);
      assert AlwaysWrites(a.cluster, newData, keys, done, ok, b.cluster);
    }
  }

  // ---- runs of the provider ----

  /** No name the run reads contains a colon; Kubernetes accepts none that does, as a data key or
      in an annotation. */
  ghost predicate ColonFreeNames(run: Run) {
    && (forall v, d | Lists(run.dests, v, d) :: ColonFree(d.secretName))
    && (forall s | s in run.originals :: PrintableKeys(DataOf(run.originals[s])))
    && (forall s, g | s in run.groups && g in run.groups[s] :: ColonFree(g.name))
  }

  /** Then the new data can be printed without ambiguity. */
  lemma NewDataIsPrintable(libs: Libs, sanitize: bool, run: Run, s: string)
    requires IsOrder(run.order, run.conjur.Keys) && ColonFreeNames(run)
    requires IsNewData(libs, sanitize, run.originals, run.dests, run.groups, run.conjur, run.order, run.keys, run.newData)
    requires s in run.newData
    ensures PrintableKeys(run.newData[s])
  {
    forall k | k in run.newData[s] ensures ColonFree(k) {
      assert At(run.newData, s, k).Some?;
      NewKeyOrigin(libs, sanitize, run, s, k);
      forall w ensures ColonFree(NormalizeK8sSecretName(w)) {
        NormalizeFixpoint(w);
      }
      if RenderedAt(libs, run.originals, run.groups, run.conjur, s, k).Some? && !ColonFree(k) {
        UnnamedGroup(run.conjur, run.groups[s], k);
      }
    }
  }

  /** Every run of the provider, with or without removals, is a step of such a trace. */
  lemma RunIsMove(libs: Libs, sanitize: bool, required: seq<string>, before: Cluster, cache: Cache, run: Run, after: Cluster, cache': Cache)
    requires Happened(libs, sanitize, required, before, cache, run, after, cache') && ColonFreeNames(run)
    ensures Moves(libs, State(before, cache), RunStep(run.newData, run.keys, run.done, run.done == Stale(libs, cache, run.newData)), State(after, cache'))
  {
    forall s | s in run.newData ensures PrintableKeys(run.newData[s]) {
      NewDataIsPrintable(libs, sanitize, run, s);
    }
    RunIsSkippingStep(libs, sanitize, required, before, cache, run, after, cache');
  }

  lemma RunIsSkippingStep(libs: Libs, sanitize: bool, required: seq<string>, before: Cluster, cache: Cache, run: Run, after: Cluster, cache': Cache)
    requires Happened(libs, sanitize, required, before, cache, run, after, cache')
    ensures SkipsUnchanged(libs, before, cache, run.newData, run.keys, run.done, run.done == Stale(libs, cache, run.newData), after, cache')
  {
    assert SecretsAfter(before, run.originals, run.keys, run.newData, run.done) == SecretsAfter(before, before, run.keys, run.newData, run.done);
  }

  // ---- delivery ----

  function HeldAt(cluster: Cluster, s: string, k: string): Option<Bytes> {
    if s in cluster && k in DataOf(cluster[s]) then Some(DataOf(cluster[s])[k]) else None
  }

  /** From a sound cache, after a completed run the cluster holds all the new data, whether it was
      written or skipped. */
  lemma NewDataIsHeld(libs: Libs, sanitize: bool, required: seq<string>, before: Cluster, cache: Cache, run: Run, after: Cluster, cache': Cache, s: string)
    requires Happened(libs, sanitize, required, before, cache, run, after, cache') && Completed(libs, cache, run)
    requires Injective(libs) && CacheSound(libs, before, cache) && ColonFreeNames(run) && s in run.newData
    ensures s in after && Holds(after[s], run.newData[s])
  {
    if s in run.done {
      assert after[s] == Overlaid(before[s], RemovalsFor(run.keys, s), run.newData[s]);
      WriteHolds(before[s], RemovalsFor(run.keys, s), run.newData[s]);
    } else {
      NewDataIsPrintable(libs, sanitize, run, s);
      FreshHolds(libs, before, cache, run.newData, s);
      UnwrittenSecret(libs, sanitize, required, before, cache, run, after, cache', s);
    }
  }

  /** So every gathered destination whose variable was fetched holds that variable's value in the
      cluster, decoded as its content type asks, or the rendered group of the same name. */
  lemma DestinationsAreDelivered(libs: Libs, sanitize: bool, required: seq<string>, before: Cluster, cache: Cache, run: Run, after: Cluster, cache': Cache, v: string, d: Dest)
    requires Happened(libs, sanitize, required, before, cache, run, after, cache') && Completed(libs, cache, run)
    requires Injective(libs) && CacheSound(libs, before, cache) && ColonFreeNames(run)
    requires Lists(run.dests, v, d) && d.secretName != "*" && v in run.conjur && v != "*"
    ensures var rendered := RenderedAt(libs, run.originals, run.groups, run.conjur, d.k8sSecretName, d.secretName);
            HeldAt(after, d.k8sSecretName, d.secretName) == if rendered.Some? then rendered
            else Some(if d.contentType == "base64" && libs.decodeBase64(run.conjur[v]).Some? then libs.decodeBase64(run.conjur[v]).value else run.conjur[v])
  {
    var s, k := d.k8sSecretName, d.secretName;
    OwnValue(libs, sanitize, run.originals, run.dests, run.index, run.groups, run.conjur, run.order, v, d);
    assert At(run.newData, s, k) == NewAt(libs, sanitize, run.originals, run.dests, run.groups, run.conjur, run.order, s, k);
    NewDataIsHeld(libs, sanitize, required, before, cache, run, after, cache', s);
  }
}
