/** What a whole run means for each key of each Secret. */
module Runs {
  import opened Kube
  import opened Checksum
  import opened Destinations
  import opened SecretData
  import opened Gather
  import opened Commit
  import opened K8sClient
  import opened RunSpec

  /** A written Secret keeps its identity and ends as (old data minus removals) overlaid by its
      new data: a live key wrongly listed for removal survives with its current value. */
  lemma WrittenSecret(libs: Libs, sanitize: bool, required: seq<string>, before: Cluster, cache: Cache, run: Run, after: Cluster, cache': Cache, s: string, k: string)
    requires Happened(libs, sanitize, required, before, cache, run, after, cache')
    requires s in run.done
    ensures s in after && after[s].name == before[s].name && after[s].labels == before[s].labels && after[s].annotations == before[s].annotations
    ensures after[s].data.Some?
    ensures var data := after[s].data.value;
            if k in run.newData[s] then k in data && data[k] == run.newData[s][k]
            else if k in RemovalsFor(run.keys, s) then k !in data
            else if k in DataOf(before[s]) then k in data && data[k] == DataOf(before[s])[k]
            else k !in data
  {
  }

  /** All other Secrets are left alone. */
  lemma UnwrittenSecret(libs: Libs, sanitize: bool, required: seq<string>, before: Cluster, cache: Cache, run: Run, after: Cluster, cache': Cache, s: string)
    requires Happened(libs, sanitize, required, before, cache, run, after, cache')
    requires s !in run.done
    ensures s in after <==> s in before
    ensures s in after ==> after[s] == before[s]
    ensures s in cache' <==> s in cache
    ensures s in cache' ==> cache'[s] == cache[s]
  {
  }

  /** The run has looked at the Secret. */
  ghost predicate LookedAt(libs: Libs, required: seq<string>, before: Cluster, s: string) {
    s in before && if required != [] then s in required else IsLabeled(before[s]) && Admissible(libs, before[s])
  }

  /** After a completed run a Secret with listed keys, its conjur-map emptied or deleted included,
      has lost them all, except those its new data fills, iff it was stale or had none of them. */
  lemma ListedKeysGo(libs: Libs, sanitize: bool, required: seq<string>, before: Cluster, cache: Cache, run: Run, after: Cluster, cache': Cache, s: string)
    requires Happened(libs, sanitize, required, before, cache, run, after, cache') && Completed(libs, cache, run)
    requires LookedAt(libs, required, before, s) && s in run.keys
    ensures s in run.newData && s in after
    ensures s in run.done <==> s in Stale(libs, cache, run.newData)
    ensures s in run.done ==> forall k | k in run.keys[s] :: k in DataOf(after[s]) <==> k in run.newData[s]
    ensures (forall k | k in run.keys[s] && k !in run.newData[s] :: k !in DataOf(after[s]))
            <==> s in Stale(libs, cache, run.newData) || forall k | k in run.keys[s] && k !in run.newData[s] :: k !in DataOf(before[s])
  {
    assert s in run.originals;
    if s in run.done {
      assert after[s] == Overlaid(before[s], run.keys[s], run.newData[s]);
    }
  }

  // ---- what a removal needs ----

  /** What is asked for comes from a Secret with a destination or a group. */
  lemma AskedIsRelevant(libs: Libs, originals: Originals, dests: Dests, index: Index, groups: Groups, id: string) returns (s: string)
    requires Gathered(libs, originals, dests, index, groups) && Wants(dests, groups, id)
    ensures s in originals && IsRelevant(libs, originals[s])
  {
    if id in dests {
      var e := dests[id][0];
      assert Lists(dests, id, e) && Contributes(libs, originals[e.k8sSecretName], id, e);
      s := e.k8sSecretName;
    } else {
      s :| s in groups && GroupsWant(groups[s], id);
      assert groups[s][0] in Elements(groups[s]);
    }
  }

  /** There is nothing to ask Conjur for exactly when no gathered Secret has a destination or a
      group. */
  lemma NothingToAskIff(libs: Libs, originals: Originals, dests: Dests, index: Index, groups: Groups, ids: seq<string>)
    requires Gathered(libs, originals, dests, index, groups) && IsFetchList(ids, dests, groups)
    ensures ids == [] <==> forall s | s in originals :: !IsRelevant(libs, originals[s])
  {
    if s :| s in originals && IsRelevant(libs, originals[s]) {
      var id := RelevantAsks(libs, originals, dests, index, groups, s);
      assert ids == ["*"] || id in ids;
    } else if ids != [] {
      assert ids[0] in ids;
      var s := AskedIsRelevant(libs, originals, dests, index, groups, ids[0]);
    }
  }

  /** The retriever refuses an empty request. Then a run with keys to remove fails and changes
      nothing if no Secret it reads has a destination or a group, and the keys are lost with it. */
  lemma RemovalNeedsRequest(libs: Libs, sanitize: bool, required: seq<string>, fetch: seq<string> -> Fetched, keys: Removals,
                            before: Cluster, cache: Cache, updated: bool, ok: bool, run: Option<Run>, after: Cluster, cache': Cache)
    requires RunOutcome(libs, sanitize, required, fetch, keys, before, cache, updated, ok, run, after, cache')
    requires keys != map[] && fetch([]) == Failed
    requires forall s | Reads(required, before, s) :: !IsRelevant(libs, before[s])
    ensures !ok && !updated && after == before && cache' == cache
  {
    if run.Some? {
      var r := run.value;
      assert forall s | s in r.originals :: Reads(required, before, s);
      forall ids | IsFetchList(ids, r.dests, r.groups) ensures ids == [] {
        NothingToAskIff(libs, r.originals, r.dests, r.index, r.groups, ids);
      }
    }
  }

  /** Put the other way: what an answered run gathered has a destination or a group somewhere. */
  lemma AnsweredRunHasSource(libs: Libs, sanitize: bool, required: seq<string>, fetch: seq<string> -> Fetched,
                             before: Cluster, cache: Cache, run: Run, after: Cluster, cache': Cache)
    requires Happened(libs, sanitize, required, before, cache, run, after, cache') && Answered(fetch, run) && fetch([]) == Failed
    ensures exists s :: s in run.originals && IsRelevant(libs, run.originals[s])
  {
    var ids :| IsFetchList(ids, run.dests, run.groups) && fetch(ids) == Values(run.conjur);
    NothingToAskIff(libs, run.originals, run.dests, run.index, run.groups, ids);
  }

  // ---- a removal that goes through ----

  /** A labelled Secret whose conjur-map was deleted, leaving a key behind, and another one with a
      single destination. */
  ghost predicate DeletedBesideMapped(libs: Libs, gone: Secret, key: string, kept: Secret, k: string, v: string) {
    && IsLabeled(gone) && gone.annotations == map[] && gone.data.Some?
    && CONJUR_MAP_KEY !in gone.data.value && key in gone.data.value
    && IsLabeled(kept) && kept.annotations == map[] && kept.name != gone.name
    && RawMap(kept) != [] && libs.parseConjurMap(RawMap(kept)) == Yaml(map[k := Id(v)], true)
    && k != "*" && v != "*"
  }

  function PairOf(gone: Secret, kept: Secret): Cluster {
    map[gone.name := gone, kept.name := kept]
  }

  function PairRun(gone: Secret, key: string, kept: Secret, k: string, v: string, value: Bytes): Run {
    var e := Dest(kept.name, k, "text");
    Run(PairOf(gone, kept), map[v := [e]], map[v := {KeyOf(e)}], map[], map[v := value], [v], map[gone.name := [key]],
        map[gone.name := map[], kept.name := map[k := value]], {gone.name, kept.name})
  }

  lemma PairGathered(libs: Libs, gone: Secret, key: string, kept: Secret, k: string, v: string, value: Bytes)
    requires DeletedBesideMapped(libs, gone, key, kept, k, v)
    ensures var run := PairRun(gone, key, kept, k, v, value); Gathered(libs, run.originals, run.dests, run.index, run.groups)
    ensures Admissible(libs, gone) && Admissible(libs, kept)
  {
    PairContributes(libs, gone, key, kept, k, v);
    var run := PairRun(gone, key, kept, k, v, value);
    assert run.dests[v] == [Dest(kept.name, k, "text")];
  }

  lemma PairContributes(libs: Libs, gone: Secret, key: string, kept: Secret, k: string, v: string)
    requires DeletedBesideMapped(libs, gone, key, kept, k, v)
    ensures Admissible(libs, gone) && Admissible(libs, kept) && GroupSet(libs, gone) == {} && GroupSet(libs, kept) == {}
    ensures MapEntries(libs, gone) == map[] && MapEntries(libs, kept) == map[k := Id(v)]
    ensures forall w, d :: !Contributes(libs, gone, w, d) && (Contributes(libs, kept, w, d) <==> w == v && d == Dest(kept.name, k, "text"))
  {
    assert MapEntries(libs, gone) == map[] && MapEntries(libs, kept) == map[k := Id(v)];
    assert GroupSet(libs, gone) == {} && GroupSet(libs, kept) == {};
  }

  /** One destination, one fetched variable: one slot is filled. */
  lemma SingleSlot(libs: Libs, originals: Originals, e: Dest, v: string, value: Bytes, s: string, k: string)
    requires e.contentType == "text" && e.secretName != "*" && v != "*"
    ensures NewAt(libs, true, originals, map[v := [e]], map[], map[v := value], [v], s, k)
         == if e.k8sSecretName == s && e.secretName == k then Some(value) else None
  {
    var dests: Dests, conjur: Data := map[v := [e]], map[v := value];
    assert Served(dests, v) == [e] && [v][..0] == [] && [e][..0] == [];
    assert Written(libs, dests, conjur, [], s, k) == None;
    assert PutAll(libs, [e], v, value, s, k, None) == Put(libs, e, v, value, s, k, None);
    assert !Missing(dests, conjur, s, k) && !Wiped(originals, dests, s, k);
  }

  lemma PairNewData(libs: Libs, gone: Secret, key: string, kept: Secret, k: string, v: string, value: Bytes)
    requires DeletedBesideMapped(libs, gone, key, kept, k, v)
    ensures var run := PairRun(gone, key, kept, k, v, value);
            IsNewData(libs, true, run.originals, run.dests, run.groups, run.conjur, run.order, run.keys, run.newData)
  {
    var run := PairRun(gone, key, kept, k, v, value);
    forall s, x ensures At(run.newData, s, x) == NewAt(libs, true, run.originals, run.dests, run.groups, run.conjur, run.order, s, x) {
      SingleSlot(libs, run.originals, Dest(kept.name, k, "text"), v, value, s, x);
    }
    var slot: Data := map[k := value];
    assert k in slot;
  }

  lemma AllCommittedAtFirst(libs: Libs, before: Cluster, keys: Removals, newData: NewData)
    requires newData.Keys <= before.Keys
    ensures Stale(libs, map[], newData) == newData.Keys
    ensures Committed(libs, before, map[], before, keys, newData, newData.Keys,
                      SecretsAfter(before, before, keys, newData, newData.Keys), CacheAfter(map[], Sums(libs, newData), newData.Keys))
  {
    assert Sums(libs, newData).Keys == newData.Keys;
  }

  lemma PairSelected(libs: Libs, gone: Secret, key: string, kept: Secret, k: string, v: string, value: Bytes)
    requires DeletedBesideMapped(libs, gone, key, kept, k, v)
    ensures var run := PairRun(gone, key, kept, k, v, value);
            Selected(libs, [], run.originals, PairOf(gone, kept)) && IsOrder(run.order, run.conjur.Keys)
  {
  }

  /** A first run that writes all its new data happened and completed. */
  lemma FirstRun(libs: Libs, required: seq<string>, before: Cluster, run: Run) returns (after: Cluster, cache': Cache)
    requires Gathered(libs, run.originals, run.dests, run.index, run.groups) && Selected(libs, required, run.originals, before)
    requires IsOrder(run.order, run.conjur.Keys)
    requires IsNewData(libs, true, run.originals, run.dests, run.groups, run.conjur, run.order, run.keys, run.newData)
    requires run.originals == before && run.done == run.newData.Keys
    ensures Happened(libs, true, required, before, map[], run, after, cache') && Completed(libs, map[], run)
  {
    AllCommittedAtFirst(libs, before, run.keys, run.newData);
    after, cache' := SecretsAfter(before, before, run.keys, run.newData, run.done), CacheAfter(map[], Sums(libs, run.newData), run.done);
  }

  lemma PairHappened(libs: Libs, gone: Secret, key: string, kept: Secret, k: string, v: string, value: Bytes) returns (after: Cluster, cache': Cache)
    requires DeletedBesideMapped(libs, gone, key, kept, k, v)
    ensures Happened(libs, true, [], PairOf(gone, kept), map[], PairRun(gone, key, kept, k, v, value), after, cache')
    ensures Completed(libs, map[], PairRun(gone, key, kept, k, v, value))
  {
    PairGathered(libs, gone, key, kept, k, v, value);
    PairSelected(libs, gone, key, kept, k, v, value);
    PairNewData(libs, gone, key, kept, k, v, value);
    var run := PairRun(gone, key, kept, k, v, value);
    assert run.newData.Keys == run.done;
    after, cache' := FirstRun(libs, [], PairOf(gone, kept), run);
  }

  /** Beside a Secret that gives the run something to ask for, the one whose conjur-map was deleted
      loses the key that was left behind, in a completed run on Conjur's answer. */
  lemma DeletedMapLosesKey(libs: Libs, fetch: seq<string> -> Fetched, gone: Secret, key: string, kept: Secret, k: string, v: string, value: Bytes)
    returns (run: Run, after: Cluster, cache': Cache)
    requires DeletedBesideMapped(libs, gone, key, kept, k, v)
    requires fetch([]) == Failed && fetch([v]) == Values(map[v := value])
    ensures Happened(libs, true, [], PairOf(gone, kept), map[], run, after, cache') && Completed(libs, map[], run) && Answered(fetch, run)
    ensures LookedAt(libs, [], PairOf(gone, kept), gone.name) && run.keys == map[gone.name := [key]]
    ensures gone.name in after && key !in DataOf(after[gone.name])
  {
    run := PairRun(gone, key, kept, k, v, value);
    after, cache' := PairHappened(libs, gone, key, kept, k, v, value);
    PairAsked(Dest(kept.name, k, "text"), v);
    assert fetch([v]) == Values(run.conjur);
    PairGathered(libs, gone, key, kept, k, v, value);
    assert key in run.keys[gone.name] && key !in run.newData[gone.name];
    ListedKeysGo(libs, true, [], PairOf(gone, kept), map[], run, after, cache', gone.name);
  }

  lemma PairAsked(e: Dest, v: string)
    requires v != "*"
    ensures IsFetchList([v], map[v := [e]], map[])
  {
  }

  /** The only sources of a new value: a destination naming the key, a fetched variable under a
      `*` destination, a wiped existing key of a `*` Secret, or a rendered group. */
  lemma NewKeyOrigin(libs: Libs, sanitize: bool, run: Run, s: string, k: string)
    requires IsOrder(run.order, run.conjur.Keys)
    requires IsNewData(libs, sanitize, run.originals, run.dests, run.groups, run.conjur, run.order, run.keys, run.newData)
    requires At(run.newData, s, k).Some?
    ensures (exists v, d :: Lists(run.dests, v, d) && Names(d, s, k))
         || (exists v, w, d :: Lists(run.dests, v, d) && w in run.conjur && Stars(d, w, s, k))
         || (sanitize && Wiped(run.originals, run.dests, s, k))
         || RenderedAt(libs, run.originals, run.groups, run.conjur, s, k).Some?
  {
    WrittenSettles(libs, run.dests, run.conjur, run.order, s, k);
    forall v | v in run.conjur && ExplicitOf(libs, run.dests, run.conjur, v, s, k).Some?
      ensures exists w, d :: Lists(run.dests, w, d) && Names(d, s, k)
    {
      var d := ExplicitWitness(libs, Served(run.dests, v), run.conjur[v], s, k);
      assert Lists(run.dests, v, d) || Lists(run.dests, "*", d);
    }
    forall w | w in run.conjur && StarredOf(libs, run.dests, run.conjur, w, s, k).Some?
      ensures exists v, d :: Lists(run.dests, v, d) && w in run.conjur && Stars(d, w, s, k)
    {
      var d := StarWitness(libs, Served(run.dests, w), w, run.conjur[w], s, k);
      assert Lists(run.dests, w, d) || Lists(run.dests, "*", d);
    }
  }

  lemma {:induction false} ExplicitWitness(libs: Libs, ds: seq<Dest>, raw: Bytes, s: string, k: string) returns (d: Dest)
    requires Explicit(libs, ds, raw, s, k).Some?
    ensures d in ds && Names(d, s, k) && Explicit(libs, ds, raw, s, k) == Some(ValueFor(libs, d, raw))
  {
    d := ds[|ds| - 1];
    if !Names(d, s, k) {
      d := ExplicitWitness(libs, ds[..|ds| - 1], raw, s, k);
    }
  }

  lemma {:induction false} StarWitness(libs: Libs, ds: seq<Dest>, varID: string, raw: Bytes, s: string, k: string) returns (d: Dest)
    requires Starred(libs, ds, varID, raw, s, k).Some?
    ensures d in ds && Stars(d, varID, s, k) && Starred(libs, ds, varID, raw, s, k) == Some(ValueFor(libs, d, raw))
  {
    if Starred(libs, ds[..|ds| - 1], varID, raw, s, k).Some? {
      d := StarWitness(libs, ds[..|ds| - 1], varID, raw, s, k);
    } else {
      d := ds[|ds| - 1];
    }
  }

  lemma {:induction false} ExplicitFinds(libs: Libs, ds: seq<Dest>, raw: Bytes, s: string, k: string, d: Dest)
    requires d in ds && Names(d, s, k)
    ensures Explicit(libs, ds, raw, s, k).Some?
  {
    if !Names(ds[|ds| - 1], s, k) {
      ExplicitFinds(libs, ds[..|ds| - 1], raw, s, k, d);
    }
  }

  lemma {:induction false} StarFinds(libs: Libs, ds: seq<Dest>, varID: string, raw: Bytes, s: string, k: string, d: Dest)
    requires d in ds && Stars(d, varID, s, k)
    ensures Starred(libs, ds, varID, raw, s, k).Some?
  {
    if d in ds[..|ds| - 1] {
      StarFinds(libs, ds[..|ds| - 1], varID, raw, s, k, d);
    }
  }

  /** A key of a Secret is claimed by one variable only, so a gathered slot has one source. */
  lemma OneSource(libs: Libs, originals: Originals, dests: Dests, index: Index, groups: Groups, v: string, d: Dest, w: string, e: Dest)
    requires Gathered(libs, originals, dests, index, groups)
    requires Lists(dests, v, d) && Lists(dests, w, e) && KeyOf(d) == KeyOf(e)
    ensures v == w && d == e
  {
    assert Contributes(libs, originals[d.k8sSecretName], v, d);
    assert Contributes(libs, originals[d.k8sSecretName], w, e);
  }

  /** Every destination whose variable was fetched gets that variable's value, decoded as its
      content type asks, unless a group of the same name is rendered over it. */
  lemma OwnValue(libs: Libs, sanitize: bool, originals: Originals, dests: Dests, index: Index, groups: Groups, conjur: Data, order: seq<string>, v: string, d: Dest)
    requires Gathered(libs, originals, dests, index, groups) && IsOrder(order, conjur.Keys)
    requires Lists(dests, v, d) && d.secretName != "*" && v in conjur && v != "*"
    ensures CreateAt(libs, sanitize, originals, dests, conjur, order, d.k8sSecretName, d.secretName)
         == Some(if d.contentType == "base64" && libs.decodeBase64(conjur[v]).Some? then libs.decodeBase64(conjur[v]).value else conjur[v])
  {
    var s, k := d.k8sSecretName, d.secretName;
    forall w, e | w in conjur && e in Served(dests, w) && Names(e, s, k) ensures w == v && e == d {
      if Lists(dests, w, e) {
        OneSource(libs, originals, dests, index, groups, v, d, w, e);
      } else {
        OneSource(libs, originals, dests, index, groups, v, d, "*", e);
      }
    }
    ExplicitFinds(libs, Served(dests, v), conjur[v], s, k, d);
    forall w | w in conjur && ExplicitOf(libs, dests, conjur, w, s, k).Some?
      ensures ExplicitOf(libs, dests, conjur, w, s, k) == Some(ValueFor(libs, d, conjur[v]))
    {
      var e := ExplicitWitness(libs, Served(dests, w), conjur[w], s, k);
    }
    WrittenSettles(libs, dests, conjur, order, s, k);
    forall w, e | Lists(dests, w, e) && Names(e, s, k) ensures w in conjur {
      OneSource(libs, originals, dests, index, groups, v, d, w, e);
    }
  }

  /** Without `*`, a request answered in full fills every destination with its own variable's
      value, blanks nothing, and gives every group spec its fetched value. */
  lemma FetchCoverage(libs: Libs, sanitize: bool, originals: Originals, dests: Dests, index: Index, groups: Groups, ids: seq<string>, conjur: Data, order: seq<string>)
    requires Gathered(libs, originals, dests, index, groups) && IsOrder(order, conjur.Keys)
    requires "*" !in dests && IsFetchList(ids, dests, groups)
    requires forall id | id in ids :: id in conjur
    ensures forall v, d | Lists(dests, v, d) && d.secretName != "*" ::
              v in conjur && CreateAt(libs, sanitize, originals, dests, conjur, order, d.k8sSecretName, d.secretName)
                              == Some(if d.contentType == "base64" && libs.decodeBase64(conjur[v]).Some? then libs.decodeBase64(conjur[v]).value else conjur[v])
    ensures forall s, k :: !Missing(dests, conjur, s, k)
    ensures forall s, g, spec | s in groups && g in groups[s] && spec in g.specs :: spec.path in conjur
  {
    forall v, d | Lists(dests, v, d) && d.secretName != "*"
      ensures v in conjur && CreateAt(libs, sanitize, originals, dests, conjur, order, d.k8sSecretName, d.secretName)
                              == Some(if d.contentType == "base64" && libs.decodeBase64(conjur[v]).Some? then libs.decodeBase64(conjur[v]).value else conjur[v])
    {
      assert Wants(dests, groups, v);
      OwnValue(libs, sanitize, originals, dests, index, groups, conjur, order, v, d);
    }
    forall s, g, spec | s in groups && g in groups[s] && spec in g.specs ensures spec.path in conjur {
      assert SpecsWant(g.specs, spec.path) && GroupsWant(groups[s], spec.path) && Wants(dests, groups, spec.path);
    }
  }

  /** When only `*` keys ask for `*` and fetched ids normalise to distinct names, no slot is
      contested, so the iteration order cannot show. */
  lemma DistinctNamesUncontested(libs: Libs, originals: Originals, dests: Dests, index: Index, groups: Groups, conjur: Data, s: string, k: string)
    requires Gathered(libs, originals, dests, index, groups)
    requires forall d | Lists(dests, "*", d) :: d.secretName == "*"
    requires forall v, w | v in conjur && w in conjur && NormalizeK8sSecretName(v) == NormalizeK8sSecretName(w) :: v == w
    ensures Uncontested(libs, dests, conjur, s, k)
  {
    forall v, w | v in conjur && w in conjur
      && ExplicitOf(libs, dests, conjur, v, s, k).Some? && ExplicitOf(libs, dests, conjur, w, s, k).Some?
      ensures ExplicitOf(libs, dests, conjur, v, s, k) == ExplicitOf(libs, dests, conjur, w, s, k)
    {
      var d := ExplicitWitness(libs, Served(dests, v), conjur[v], s, k);
      var e := ExplicitWitness(libs, Served(dests, w), conjur[w], s, k);
      assert Lists(dests, v, d) || Lists(dests, "*", d);
      assert Lists(dests, w, e) || Lists(dests, "*", e);
      OneSource(libs, originals, dests, index, groups, v, d, w, e);
    }
    forall v, w | v in conjur && w in conjur
      && StarredOf(libs, dests, conjur, v, s, k).Some? && StarredOf(libs, dests, conjur, w, s, k).Some?
      ensures StarredOf(libs, dests, conjur, v, s, k) == StarredOf(libs, dests, conjur, w, s, k)
    {
      var d := StarWitness(libs, Served(dests, v), v, conjur[v], s, k);
      var e := StarWitness(libs, Served(dests, w), w, conjur[w], s, k);
    }
  }

  /** Under `*` a fetched variable fills the key it normalises to, decoded as the `*` destination
      asks, if no destination names that key and no other fetched variable falls on it. */
  lemma StarValue(libs: Libs, sanitize: bool, originals: Originals, dests: Dests, index: Index, groups: Groups, conjur: Data, order: seq<string>, v: string, d: Dest)
    requires Gathered(libs, originals, dests, index, groups) && IsOrder(order, conjur.Keys)
    requires Lists(dests, "*", d) && d.secretName == "*" && v in conjur
    requires forall w, e | Lists(dests, w, e) && e.k8sSecretName == d.k8sSecretName :: e.secretName != NormalizeK8sSecretName(v)
    requires forall w | w in conjur && NormalizeK8sSecretName(w) == NormalizeK8sSecretName(v) :: w == v
    ensures CreateAt(libs, sanitize, originals, dests, conjur, order, d.k8sSecretName, NormalizeK8sSecretName(v))
         == Some(if d.contentType == "base64" && libs.decodeBase64(conjur[v]).Some? then libs.decodeBase64(conjur[v]).value else conjur[v])
  {
    var s, k := d.k8sSecretName, NormalizeK8sSecretName(v);
    forall w, e | w in conjur && e in Served(dests, w) && e.k8sSecretName == s ensures !Names(e, s, k) && (Stars(e, w, s, k) ==> w == v && e == d) {
      if Lists(dests, w, e) {
        if e.secretName == "*" {
          OneSource(libs, originals, dests, index, groups, "*", d, w, e);
        }
      } else {
        assert Lists(dests, "*", e);
        if e.secretName == "*" {
          OneSource(libs, originals, dests, index, groups, "*", d, "*", e);
        }
      }
    }
    forall w | w in conjur ensures ExplicitOf(libs, dests, conjur, w, s, k).None? {
      if ExplicitOf(libs, dests, conjur, w, s, k).Some? {
        var e := ExplicitWitness(libs, Served(dests, w), conjur[w], s, k);
      }
    }
    StarFinds(libs, Served(dests, v), v, conjur[v], s, k, d);
    forall w | w in conjur && StarredOf(libs, dests, conjur, w, s, k).Some?
      ensures StarredOf(libs, dests, conjur, w, s, k) == Some(ValueFor(libs, d, conjur[v]))
    {
      var e := StarWitness(libs, Served(dests, w), w, conjur[w], s, k);
    }
    WrittenSettles(libs, dests, conjur, order, s, k);
  }

  /** A destination whose variable was not fetched is blanked when sanitising. */
  lemma MissingIsBlanked(libs: Libs, originals: Originals, dests: Dests, conjur: Data, order: seq<string>, v: string, d: Dest)
    requires IsOrder(order, conjur.Keys) && Lists(dests, v, d) && d.secretName != "*" && v !in conjur
    ensures CreateAt(libs, true, originals, dests, conjur, order, d.k8sSecretName, d.secretName) == Some([])
  {
    assert Names(d, d.k8sSecretName, d.secretName);
  }

  /** No fetched variable and no missing one is for the key. */
  ghost predicate NobodysKey(dests: Dests, conjur: Data, s: string, k: string) {
    && (forall v, d | Lists(dests, v, d) && d.k8sSecretName == s :: d.secretName != k)
    && (forall w, e | w in conjur && e in Served(dests, w) && e.k8sSecretName == s && e.secretName == "*" :: NormalizeK8sSecretName(w) != k)
  }

  /** Such a key stays out of the new data, except that an existing one of a Secret with a `*`
      destination is blanked when sanitising; never the conjur-map itself. */
  lemma NobodysKeyIsWiped(libs: Libs, sanitize: bool, originals: Originals, dests: Dests, conjur: Data, order: seq<string>, s: string, k: string)
    requires IsOrder(order, conjur.Keys) && NobodysKey(dests, conjur, s, k)
    ensures CreateAt(libs, sanitize, originals, dests, conjur, order, s, k)
         == if sanitize && k != "conjur-map" && s in originals && k in DataOf(originals[s])
               && exists v, d :: Lists(dests, v, d) && d.k8sSecretName == s && d.secretName == "*"
            then Some([]) else None
  {
    forall w, e | w in conjur && e in Served(dests, w) ensures !Names(e, s, k) && !Stars(e, w, s, k) {
      if !Lists(dests, w, e) {
        assert Lists(dests, "*", e);
      }
    }
    forall w | w in conjur ensures ExplicitOf(libs, dests, conjur, w, s, k).None? && StarredOf(libs, dests, conjur, w, s, k).None? {
      if ExplicitOf(libs, dests, conjur, w, s, k).Some? {
        var e := ExplicitWitness(libs, Served(dests, w), conjur[w], s, k);
      }
      if StarredOf(libs, dests, conjur, w, s, k).Some? {
        var e := StarWitness(libs, Served(dests, w), w, conjur[w], s, k);
      }
    }
    WrittenSettles(libs, dests, conjur, order, s, k);
  }

  // ---- rendered groups ----

  lemma {:induction false} GroupOnce(conjur: Data, groups: seq<Group>, g: Group)
    requires NamesDistinct(groups)
    ensures g in groups ==> GroupSecrets(conjur, groups, g.name) == SpecValues(conjur, g.specs)
    ensures (forall h | h in groups :: h.name != g.name) ==> GroupSecrets(conjur, groups, g.name) == []
  {
    if groups != [] {
      var n := |groups| - 1;
      GroupOnce(conjur, groups[..n], g);
      GroupOnce(conjur, groups[..n], groups[n]);
      assert groups[n] in groups;
      assert forall h | h in groups[..n] :: h in groups && h.name != groups[n].name;
    }
  }

  lemma {:induction false} SpecValuesAt(conjur: Data, specs: seq<SecretSpec>)
    ensures |SpecValues(conjur, specs)| == |specs|
    ensures forall i | 0 <= i < |specs| ::
              SpecValues(conjur, specs)[i] == TemplateSecret(specs[i].alias, if specs[i].path in conjur then conjur[specs[i].path] else [])
  {
    if specs != [] {
      SpecValuesAt(conjur, specs[..|specs| - 1]);
    }
  }

  /** A Secret with both annotations of a group gets, under the group's name, its template rendered
      over the group's specs in order: each alias with the fetched value, or an empty one. */
  lemma GroupIsRendered(libs: Libs, originals: Originals, dests: Dests, index: Index, groups: Groups, conjur: Data, s: string, g: string)
    returns (specs: seq<SecretSpec>, list: seq<TemplateSecret>)
    requires Gathered(libs, originals, dests, index, groups) && s in originals
    requires "conjur.org/conjur-secrets." + g in originals[s].annotations && "conjur.org/secret-file-template." + g in originals[s].annotations
    ensures libs.parseSpecs(originals[s].annotations["conjur.org/conjur-secrets." + g]) == Some(specs) && specs != []
    ensures |list| == |specs| && forall i | 0 <= i < |specs| ::
              list[i] == TemplateSecret(specs[i].alias, if specs[i].path in conjur then conjur[specs[i].path] else [])
    ensures RenderedAt(libs, originals, groups, conjur, s, g) == libs.render(g, originals[s].annotations["conjur.org/secret-file-template." + g], list)
  {
    var a := "conjur.org/conjur-secrets." + g;
    assert a[|SECRET_GROUP_PREFIX|..] == g && a[..|SECRET_GROUP_PREFIX|] == SECRET_GROUP_PREFIX;
    assert NamesGroup(originals[s], a) && !BadGroup(libs, originals[s], a);
    specs := libs.parseSpecs(originals[s].annotations[a]).value;
    assert GroupOf(libs, originals[s], a) == Group(g, specs);
    assert Group(g, specs) in GroupSet(libs, originals[s]);
    assert Group(g, specs) in Elements(groups[s]);
    GroupOnce(conjur, groups[s], Group(g, specs));
    SpecValuesAt(conjur, specs);
    list := SpecValues(conjur, specs);
  }

  /** Nothing else is rendered. */
  lemma OnlyGroupsAreRendered(libs: Libs, originals: Originals, dests: Dests, index: Index, groups: Groups, conjur: Data, s: string, g: string)
    requires Gathered(libs, originals, dests, index, groups) && RenderedAt(libs, originals, groups, conjur, s, g).Some?
    ensures s in originals
    ensures "conjur.org/conjur-secrets." + g in originals[s].annotations && "conjur.org/secret-file-template." + g in originals[s].annotations
  {
    if forall x | x in groups[s] :: x.name != g {
      UnnamedGroup(conjur, groups[s], g);
    }
    var x :| x in groups[s] && x.name == g;
    assert x in GroupSet(libs, originals[s]);
    var a :| a in originals[s].annotations && NamesGroup(originals[s], a) && !BadGroup(libs, originals[s], a) && GroupOf(libs, originals[s], a) == x;
    assert a == "conjur.org/conjur-secrets." + g;
  }

  // ---- the conjur-maps themselves ----

  /** The run touched no conjur-map. */
  ghost predicate MapsKept(run: Run) {
    forall s | s in run.done :: s in run.newData && CONJUR_MAP_KEY !in run.newData[s] && CONJUR_MAP_KEY !in RemovalsFor(run.keys, s)
  }

  /** No destination and no group is named `conjur-map`, no variable under a `*` destination
      normalises to it, and it is not listed for removal. */
  ghost predicate NothingNamedConjurMap(libs: Libs, run: Run) {
    && (forall v, d | Lists(run.dests, v, d) :: d.secretName != CONJUR_MAP_KEY)
    && (forall v, d | v in run.conjur && Lists(run.dests, "*", d) :: NormalizeK8sSecretName(v) != CONJUR_MAP_KEY)
    && (forall v, d | Lists(run.dests, v, d) && d.secretName == "*" :: v == "*")
    && (forall s, g | s in run.groups && g in run.groups[s] :: g.name != CONJUR_MAP_KEY)
    && (forall s | s in run.keys :: CONJUR_MAP_KEY !in run.keys[s])
  }

  lemma {:induction false} UnnamedGroup(conjur: Data, groups: seq<Group>, name: string)
    requires forall g | g in groups :: g.name != name
    ensures GroupSecrets(conjur, groups, name) == []
  {
    if groups != [] {
      UnnamedGroup(conjur, groups[..|groups| - 1], name);
    }
  }

  /** Under those names a run keeps every conjur-map. */
  lemma NamesKeepMaps(libs: Libs, sanitize: bool, required: seq<string>, before: Cluster, cache: Cache, run: Run, after: Cluster, cache': Cache)
    requires Happened(libs, sanitize, required, before, cache, run, after, cache') && NothingNamedConjurMap(libs, run)
    ensures MapsKept(run)
  {
    forall s | s in run.done ensures s in run.newData && CONJUR_MAP_KEY !in run.newData[s] && CONJUR_MAP_KEY !in RemovalsFor(run.keys, s) {
      assert s in Sums(libs, run.newData);
      if s in run.groups {
        UnnamedGroup(run.conjur, run.groups[s], CONJUR_MAP_KEY);
      }
      if At(run.newData, s, CONJUR_MAP_KEY).Some? {
        NewKeyOrigin(libs, sanitize, run, s, CONJUR_MAP_KEY);
      }
    }
  }
}
