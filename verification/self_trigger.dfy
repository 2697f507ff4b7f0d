/** The provider's own writes, seen through the informer's filter. */
module SelfTrigger {
  import opened Kube
  import opened Checksum
  import opened SecretData
  import opened Commit
  import opened RunSpec
  import opened Runs
  import opened Informer

  lemma OverlayForwarded(secret: Secret, removed: seq<string>, entries: Data)
    requires CONJUR_MAP_KEY !in removed && CONJUR_MAP_KEY !in entries
    ensures Forwarded(secret, Overlaid(secret, removed, entries)) <==> HasManagedByProviderLabel(secret) && secret.data.None?
  {
    var after := Overlaid(secret, removed, entries);
    assert !RelevantAnnotationsChanged(secret, after) && !LabelsChanged(secret, after);
    assert Lookup(after.data.value, CONJUR_MAP_KEY) == Lookup(DataOf(secret), CONJUR_MAP_KEY);
  }

  /** A write of the provider passes the filter exactly when the Secret is labelled and its
      `Data` was nil. */
  lemma WriteForwarded(libs: Libs, sanitize: bool, required: seq<string>, before: Cluster, cache: Cache, run: Run, after: Cluster, cache': Cache, s: string)
    requires Happened(libs, sanitize, required, before, cache, run, after, cache') && MapsKept(run) && s in run.done
    ensures s in before && s in after
    ensures Forwarded(before[s], after[s]) <==> HasManagedByProviderLabel(before[s]) && before[s].data.None?
    ensures after[s].data.Some? && HasManagedByProviderLabel(after[s]) == HasManagedByProviderLabel(before[s])
  {
    assert after[s] == Overlaid(before[s], RemovalsFor(run.keys, s), run.newData[s]);
    OverlayForwarded(before[s], RemovalsFor(run.keys, s), run.newData[s]);
  }

  /** Kubernetes returns empty `Data` as nil. No write of the run empties it: each Secret gets new
      data, or has a conjur-map that stays. */
  ghost predicate KeepsData(run: Run, before: Cluster) {
    forall s | s in run.done && s in before && s in run.newData :: run.newData[s] != map[] || CONJUR_MAP_KEY in DataOf(before[s])
  }

  lemma WrittenDataStays(libs: Libs, sanitize: bool, required: seq<string>, before: Cluster, cache: Cache, run: Run, after: Cluster, cache': Cache, s: string)
    requires Happened(libs, sanitize, required, before, cache, run, after, cache') && MapsKept(run) && KeepsData(run, before) && s in run.done
    ensures s in after && after[s].data.Some? && after[s].data.value != map[]
  {
    var k := if run.newData[s] != map[] then SomeKey(run.newData[s]) else CONJUR_MAP_KEY;
    WrittenSecret(libs, sanitize, required, before, cache, run, after, cache', s, k);
  }

  ghost function SomeKey(data: Data): (k: string)
    requires data != map[]
    ensures k in data
  {
    var k :| k in data.Keys;
    k
  }

  datatype State = State(cluster: Cluster, cache: Cache)

  /** Provider runs of any kind, one after the other, with no edits by users, nothing named
      `conjur-map`, and no `Data` emptied. */
  ghost predicate ProviderAlone(libs: Libs, sanitize: bool, required: seq<string>, states: seq<State>, runs: seq<Run>) {
    && |states| == |runs| + 1
    && forall i, j | 0 <= i < j == i + 1 <= |runs| ::
         Happened(libs, sanitize, required, states[i].cluster, states[i].cache, runs[i], states[j].cluster, states[j].cache)
         && NothingNamedConjurMap(libs, runs[i]) && KeepsData(runs[i], states[i].cluster)
  }

  /** Events the informer enqueues for `s` over the first `n` runs. */
  ghost function Events(states: seq<State>, runs: seq<Run>, s: string, n: nat): nat
    requires n <= |runs| && |states| == |runs| + 1
  {
    if n == 0 then 0
    else
      var a, b := states[n - 1].cluster, states[n].cluster;
      Events(states, runs, s, n - 1) + (if s in runs[n - 1].done && s in a && s in b && Forwarded(a[s], b[s]) then 1 else 0)
  }

  ghost predicate WrittenBy(runs: seq<Run>, s: string, n: nat)
    requires n <= |runs|
  {
    exists i :: 0 <= i < n && s in runs[i].done
  }

  /** The label stays, nil `Data` ends with a write, which leaves it non-empty, and a write is
      forwarded iff the Secret is labelled and had none. */
  ghost predicate SeenAs(before: Cluster, after: Cluster, done: set<string>, s: string) {
    && s in before && s in after
    && HasManagedByProviderLabel(after[s]) == HasManagedByProviderLabel(before[s])
    && (after[s].data.None? <==> before[s].data.None? && s !in done)
    && (s in done ==> after[s].data != Some(map[]))
    && (s in done ==> (Forwarded(before[s], after[s]) <==> HasManagedByProviderLabel(before[s]) && before[s].data.None?))
  }

  /** What one run does to a Secret, written or not. */
  lemma RunSeen(libs: Libs, sanitize: bool, required: seq<string>, before: Cluster, cache: Cache, run: Run, after: Cluster, cache': Cache, s: string)
    requires Happened(libs, sanitize, required, before, cache, run, after, cache') && MapsKept(run) && KeepsData(run, before) && s in before
    ensures SeenAs(before, after, run.done, s)
  {
    if s in run.done {
      WriteForwarded(libs, sanitize, required, before, cache, run, after, cache', s);
      WrittenDataStays(libs, sanitize, required, before, cache, run, after, cache', s);
    } else {
      UnwrittenSecret(libs, sanitize, required, before, cache, run, after, cache', s);
    }
  }

  /** The Secret's label is as at the start, its `Data` is nil iff it was and no run wrote it,
      and one event was counted iff the label is set and a write ended the nil `Data`. */
  ghost predicate Counted(states: seq<State>, runs: seq<Run>, s: string, n: nat)
    requires n <= |runs| && |states| == |runs| + 1 && s in states[0].cluster
  {
    var first := states[0].cluster[s];
    && s in states[n].cluster
    && HasManagedByProviderLabel(states[n].cluster[s]) == HasManagedByProviderLabel(first)
    && (states[n].cluster[s].data.None? <==> first.data.None? && !WrittenBy(runs, s, n))
    && Events(states, runs, s, n) == if HasManagedByProviderLabel(first) && first.data.None? && WrittenBy(runs, s, n) then 1 else 0
  }

  lemma CountOne(states: seq<State>, runs: seq<Run>, s: string, n: nat)
    requires 0 < n <= |runs| && |states| == |runs| + 1 && s in states[0].cluster && Counted(states, runs, s, n - 1)
    requires SeenAs(states[n - 1].cluster, states[n].cluster, runs[n - 1].done, s)
    ensures Counted(states, runs, s, n)
  {
    assert WrittenBy(runs, s, n) <==> WrittenBy(runs, s, n - 1) || s in runs[n - 1].done;
  }

  lemma AloneSees(libs: Libs, sanitize: bool, required: seq<string>, states: seq<State>, runs: seq<Run>, s: string, i: nat)
    requires ProviderAlone(libs, sanitize, required, states, runs) && i < |runs| && s in states[i].cluster
    ensures SeenAs(states[i].cluster, states[i + 1].cluster, runs[i].done, s)
  {
    NamesKeepMaps(libs, sanitize, required, states[i].cluster, states[i].cache, runs[i], states[i + 1].cluster, states[i + 1].cache);
    RunSeen(libs, sanitize, required, states[i].cluster, states[i].cache, runs[i], states[i + 1].cluster, states[i + 1].cache, s);
  }

  ghost predicate SeenAt(states: seq<State>, runs: seq<Run>, s: string, i: nat)
    requires i < |runs| && |states| == |runs| + 1
  {
    s in states[i].cluster ==> SeenAs(states[i].cluster, states[i + 1].cluster, runs[i].done, s)
  }

  lemma {:induction false} CountAll(states: seq<State>, runs: seq<Run>, s: string, n: nat)
    requires n <= |runs| && |states| == |runs| + 1 && s in states[0].cluster
    requires forall i | 0 <= i < n :: SeenAt(states, runs, s, i)
    ensures Counted(states, runs, s, n)
  {
    if n > 0 {
      CountAll(states, runs, s, n - 1);
      assert SeenAt(states, runs, s, n - 1);
      CountOne(states, runs, s, n);
    }
  }

  /** Over any number of runs the provider triggers itself at most once per Secret: exactly when
      the Secret is labelled, had nil `Data`, and was written at all. */
  lemma SelfTriggersAtMostOnce(libs: Libs, sanitize: bool, required: seq<string>, states: seq<State>, runs: seq<Run>, s: string, n: nat)
    requires ProviderAlone(libs, sanitize, required, states, runs) && n <= |runs| && s in states[0].cluster
    ensures Counted(states, runs, s, n)
  {
    forall i | 0 <= i < n ensures SeenAt(states, runs, s, i) {
      if s in states[i].cluster {
        AloneSees(libs, sanitize, required, states, runs, s, i);
      }
    }
    CountAll(states, runs, s, n);
  }
}
