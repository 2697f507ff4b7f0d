/** The effect of the update loop on the cluster and on the checksum cache. */
module Commit {
  import opened Kube
  import opened Checksum
  import opened SecretData
  import Destinations

  type Cluster = map<string, Secret>
  type Cache = map<string, Bytes>
  type Removals = map<string, seq<string>>

  function RemovalsFor(keys: Removals, s: string): seq<string> {
    if s in keys then keys[s] else []
  }

  /** A Secret after the listed keys are deleted and the new entries laid over it. */
  function Overlaid(secret: Secret, removed: seq<string>, entries: Data): Secret {
    secret.(data := Some((DataOf(secret) - Elements(removed)) + entries))
  }

  /** The checksum of each Secret's new data. */
  function Sums(libs: Libs, newData: NewData): Cache {
    map s | s in newData :: ChecksumOf(libs, newData[s])
  }

  /** The Secrets whose new checksum differs from the recorded one. */
  function StaleSums(cache: Cache, sums: Cache): set<string> {
    set s | s in sums && ContentHasChanged(s, sums[s], cache)
  }

  function Stale(libs: Libs, cache: Cache, newData: NewData): set<string> {
    StaleSums(cache, Sums(libs, newData))
  }

  /** The cluster once the Secrets of `done` are written. */
  function SecretsAfter(before: Cluster, originals: Originals, keys: Removals, newData: NewData, done: set<string>): Cluster {
    map s | s in before ::
      if s in done && s in originals && s in newData then Overlaid(originals[s], RemovalsFor(keys, s), newData[s]) else before[s]
  }

  /** The cache once their checksums are recorded. */
  function CacheAfter(cache: Cache, sums: Cache, done: set<string>): Cache {
    map s | s in cache.Keys + done && (s in sums || s in cache) :: if s in done && s in sums then sums[s] else cache[s]
  }

  /** The loop wrote exactly the Secrets of `done`, all of them stale, and recorded exactly
      their checksums. */
  ghost predicate Committed(libs: Libs, before: Cluster, cache: Cache, originals: Originals, keys: Removals,
                            newData: NewData, done: set<string>, after: Cluster, cache': Cache) {
    && done <= Stale(libs, cache, newData)
    && done <= originals.Keys
    && done <= before.Keys
    && after == SecretsAfter(before, originals, keys, newData, done)
    && cache' == CacheAfter(cache, Sums(libs, newData), done)
  }

  /** The new data of a run, entries added for pure removals included. */
  ghost predicate IsNewData(libs: Libs, sanitize: bool, originals: Originals, dests: Destinations.Dests, groups: Groups,
                            conjur: Data, order: seq<string>, keys: Removals, newData: NewData) {
    && (forall v | v in order :: v in conjur)
    && newData.Keys <= originals.Keys
    && (forall s, k :: At(newData, s, k) == NewAt(libs, sanitize, originals, dests, groups, conjur, order, s, k))
    && (forall s | s in newData && newData[s] == map[] :: s in keys)
    && (forall s | s in originals && s in keys :: s in newData)
  }

  lemma CommitSecret(before: Cluster, originals: Originals, keys: Removals, newData: NewData, done: set<string>, s: string)
    requires s in originals && s in newData && s in before
    ensures SecretsAfter(before, originals, keys, newData, done + {s})
         == SecretsAfter(before, originals, keys, newData, done)[s := Overlaid(originals[s], RemovalsFor(keys, s), newData[s])]
  {
  }

  lemma CommitChecksum(cache: Cache, sums: Cache, done: set<string>, s: string)
    requires s in sums
    ensures CacheAfter(cache, sums, done + {s}) == CacheAfter(cache, sums, done)[s := sums[s]]
  {
  }

  lemma CommitNothing(before: Cluster, originals: Originals, keys: Removals, newData: NewData, cache: Cache, sums: Cache)
    ensures SecretsAfter(before, originals, keys, newData, {}) == before
    ensures CacheAfter(cache, sums, {}) == cache
  {
  }

  /** A Secret not written yet is still judged against the cache the run started with. */
  lemma JudgedByOldCache(cache: Cache, sums: Cache, done: set<string>, rest: set<string>, s: string)
    requires done == StaleSums(cache, sums) - rest && s in rest && s in sums
    ensures ContentHasChanged(s, sums[s], CacheAfter(cache, sums, done)) <==> s in StaleSums(cache, sums)
    ensures (if s in StaleSums(cache, sums) then done + {s} else done) == StaleSums(cache, sums) - (rest - {s})
  {
    assert s !in done;
  }
}
