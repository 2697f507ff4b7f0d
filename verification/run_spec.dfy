/** What one run of the provider does, as a relation between the cluster and cache before and
    after it. Theorems about several runs are stated over this relation. */
module RunSpec {
  import opened Kube
  import opened Destinations
  import opened SecretData
  import opened Gather
  import opened Commit
  import opened K8sClient
  import Monitor

  /** The answer to a request for variables; `Denied` is an error mentioning 403 or 404. */
  datatype Fetched = Values(values: Data) | Denied | Failed

  /** Everything a run decided. */
  datatype Run = Run(
    originals: Originals,
    dests: Dests,
    index: Index,
    groups: Groups,
    conjur: Data,
    order: seq<string>,
    keys: Removals,
    newData: NewData,
    done: set<string>)

  /** A variable id the run needs: a destination's, or the path of a group's spec. */
  ghost predicate Wants(dests: Dests, groups: Groups, id: string) {
    id in dests || exists s :: s in groups && GroupsWant(groups[s], id)
  }

  ghost predicate IsFetchList(ids: seq<string>, dests: Dests, groups: Groups) {
    if "*" in dests then ids == ["*"]
    else NoDup(ids) && forall id :: id in ids <==> Wants(dests, groups, id)
  }

  /** The Secrets recorded for a run are current ones: all the required ones, or in label mode
      labelled ones, among them every admissible one, with or without a conjur-map. */
  ghost predicate Selected(libs: Libs, required: seq<string>, originals: Originals, secrets: Cluster) {
    && (forall s | s in originals :: s in secrets && secrets[s] == originals[s])
    && (required != [] ==> originals.Keys == Elements(required))
    && (required == [] ==>
          forall s | s in secrets ::
            && (s in originals ==> IsLabeled(secrets[s]))
            && (IsLabeled(secrets[s]) && Admissible(libs, secrets[s]) ==> s in originals))
  }

  /** In label mode no listed Secret fails half-way through its conjur-map. */
  ghost predicate SafeListing(libs: Libs, required: seq<string>, secrets: Cluster) {
    required == [] ==> forall s | s in secrets && IsLabeled(secrets[s]) :: !FailsHalfWay(libs, secrets[s])
  }

  /** The run reads the Secret if it gets that far. */
  ghost predicate Reads(required: seq<string>, secrets: Cluster, s: string) {
    s in secrets && if required != [] then s in required else IsLabeled(secrets[s])
  }

  // ---- when sanitising does not crash ----

  /** A fetched variable has filled something in the Secret. */
  ghost predicate HasEntry(dests: Dests, conjur: Data, s: string) {
    exists w, e :: w in conjur && e in Served(dests, w) && e.k8sSecretName == s
  }

  predicate NothingToWipe(secret: Secret) {
    DataOf(secret).Keys <= {CONJUR_MAP_KEY}
  }

  /** Every destination finds its Secret recorded; when sanitising, a Secret with a `*` destination
      has an entry in the new data or nothing to wipe. */
  ghost predicate SanitizeSafe(sanitize: bool, originals: Originals, dests: Dests, conjur: Data) {
    forall v, d | Lists(dests, v, d) ::
      && d.k8sSecretName in originals
      && (sanitize && d.secretName == "*" ==> HasEntry(dests, conjur, d.k8sSecretName) || NothingToWipe(originals[d.k8sSecretName]))
  }

  /** The pass does not crash on the i-th pair: a `*` destination has no key to wipe, or its Secret
      has an entry, from a fetched variable or from a missing one met before. */
  ghost predicate PairSafe(originals: Originals, dests: Dests, conjur: Data, pairs: seq<(string, Dest)>, i: nat)
    requires i < |pairs|
  {
    var s := pairs[i].1.k8sSecretName;
    && s in originals
    && (pairs[i].1.secretName == "*" ==>
          || NothingToWipe(originals[s])
          || HasEntry(dests, conjur, s)
          || exists j :: 0 <= j < i && pairs[j].1.k8sSecretName == s && pairs[j].1.secretName != "*" && pairs[j].0 !in conjur)
  }

  ghost predicate PassSafe(originals: Originals, dests: Dests, conjur: Data, pairs: seq<(string, Dest)>) {
    forall i | 0 <= i < |pairs| :: PairSafe(originals, dests, conjur, pairs, i)
  }

  lemma {:induction false} SomeOrder<T(!new)>(s: set<T>) returns (o: seq<T>)
    ensures IsOrder(o, s)
  {
    if s == {} {
      o := [];
    } else {
      var x :| x in s;
      var rest := SomeOrder(s - {x});
      assert forall i | 0 <= i < |rest| :: rest[i] in rest;
      o := [x] + rest;
      assert forall y :: y in o <==> y == x || y in rest;
    }
  }

  /** The sanitising pass crashes in no order of the destinations iff it is safe. */
  lemma SafeInEveryOrderIff(originals: Originals, dests: Dests, conjur: Data)
    ensures (forall pairs: seq<(string, Dest)> | Enumerates(pairs, dests) :: PassSafe(originals, dests, conjur, pairs)) <==> SanitizeSafe(true, originals, dests, conjur)
  {
    if SanitizeSafe(true, originals, dests, conjur) {
      forall pairs: seq<(string, Dest)> | Enumerates(pairs, dests) ensures PassSafe(originals, dests, conjur, pairs) {
        forall i | 0 <= i < |pairs| ensures PairSafe(originals, dests, conjur, pairs, i) {
          assert (pairs[i].0, pairs[i].1) in pairs;
          assert Lists(dests, pairs[i].0, pairs[i].1);
        }
      }
    }
    if forall pairs: seq<(string, Dest)> | Enumerates(pairs, dests) :: PassSafe(originals, dests, conjur, pairs) {
      forall v, d | Lists(dests, v, d)
        ensures d.k8sSecretName in originals
        ensures d.secretName == "*" ==> HasEntry(dests, conjur, d.k8sSecretName) || NothingToWipe(originals[d.k8sSecretName])
      {
        var all := set w, e | w in dests && e in dests[w] :: (w, e);
        var rest := SomeOrder(all);
        var pairs := [(v, d)] + rest;
        assert forall w, e :: (w, e) in pairs <==> (w, e) == (v, d) || (w, e) in rest;
        assert Enumerates(pairs, dests);
        assert PairSafe(originals, dests, conjur, pairs, 0);
      }
    }
  }

  /** What the run goes on with is Conjur's answer, or empty values after a denial. */
  ghost predicate GivenAs(fetch: seq<string> -> Fetched, sanitize: bool, ids: seq<string>, conjur: Data) {
    || fetch(ids) == Values(conjur)
    || (sanitize && fetch(ids) == Denied && conjur == map id | id in ids :: [])
  }

  ghost predicate AnswerSafe(libs: Libs, sanitize: bool, required: seq<string>, fetch: seq<string> -> Fetched, secrets: Cluster,
                             originals: Originals, dests: Dests, index: Index, groups: Groups, ids: seq<string>, conjur: Data) {
    && Gathered(libs, originals, dests, index, groups) && Selected(libs, required, originals, secrets)
    && IsFetchList(ids, dests, groups) && GivenAs(fetch, sanitize, ids, conjur)
    ==> SanitizeSafe(sanitize, originals, dests, conjur)
  }

  /** What a run needs of its surroundings, and no more: no Secret it lists fails half-way, and
      whatever it gathers, sanitising what it is given for it is safe. */
  ghost predicate RunnableOn(libs: Libs, sanitize: bool, required: seq<string>, fetch: seq<string> -> Fetched, secrets: Cluster) {
    && SafeListing(libs, required, secrets)
    && forall originals, dests, index, groups, ids, conjur :: AnswerSafe(libs, sanitize, required, fetch, secrets, originals, dests, index, groups, ids, conjur)
  }

  /** The key `*` of the Secret, if it has one, asks for the variable `*`. */
  predicate StarPaired(libs: Libs, secret: Secret) {
    var entries := MapEntries(libs, secret);
    "*" in entries ==>
      var target := EntryDest(secret.name, "*", entries["*"]);
      target.Some? ==> target.value.0 == "*"
  }

  lemma PairedAnswerSafe(libs: Libs, sanitize: bool, required: seq<string>, fetch: seq<string> -> Fetched, secrets: Cluster,
                         originals: Originals, dests: Dests, index: Index, groups: Groups, ids: seq<string>, conjur: Data)
    requires sanitize ==> (forall s | Reads(required, secrets, s) :: StarPaired(libs, secrets[s])) && fetch(["*"]) != Values(map[])
    requires Gathered(libs, originals, dests, index, groups) && Selected(libs, required, originals, secrets)
    requires IsFetchList(ids, dests, groups) && GivenAs(fetch, sanitize, ids, conjur)
    ensures SanitizeSafe(sanitize, originals, dests, conjur)
  {
    assert forall s | s in originals :: Reads(required, secrets, s);
    if sanitize && "*" in dests {
      assert ids == ["*"];
      assert fetch(ids) != Values(conjur) ==> ids[0] in conjur;
    }
    StarsAreSafe(libs, sanitize, originals, dests, index, groups, conjur);
  }

  /** It is enough that the `*` keys of the Secrets the run reads ask for `*` and that fetching all
      is not answered by nothing. */
  lemma RunnableIfPaired(libs: Libs, sanitize: bool, required: seq<string>, fetch: seq<string> -> Fetched, secrets: Cluster)
    requires SafeListing(libs, required, secrets)
    requires sanitize ==> (forall s | Reads(required, secrets, s) :: StarPaired(libs, secrets[s])) && fetch(["*"]) != Values(map[])
    ensures RunnableOn(libs, sanitize, required, fetch, secrets)
  {
    forall originals, dests, index, groups, ids, conjur
      | Gathered(libs, originals, dests, index, groups) && Selected(libs, required, originals, secrets)
        && IsFetchList(ids, dests, groups) && GivenAs(fetch, sanitize, ids, conjur)
      ensures SanitizeSafe(sanitize, originals, dests, conjur)
    {
      PairedAnswerSafe(libs, sanitize, required, fetch, secrets, originals, dests, index, groups, ids, conjur);
    }
  }

  lemma StarsAreSafe(libs: Libs, sanitize: bool, originals: Originals, dests: Dests, index: Index, groups: Groups, conjur: Data)
    requires Gathered(libs, originals, dests, index, groups)
    requires sanitize ==> (forall s | s in originals :: StarPaired(libs, originals[s])) && ("*" in dests ==> conjur != map[])
    ensures SanitizeSafe(sanitize, originals, dests, conjur)
  {
    forall v, d | Lists(dests, v, d)
      ensures d.k8sSecretName in originals
      ensures sanitize && d.secretName == "*" ==> HasEntry(dests, conjur, d.k8sSecretName)
    {
      assert Contributes(libs, originals[d.k8sSecretName], v, d);
      if sanitize && d.secretName == "*" {
        assert v == "*";
        var w :| w in conjur.Keys;
        assert d in Served(dests, w);
      }
    }
  }

  /** The run gathered its Secrets, computed the new data and committed `done`. */
  ghost predicate Happened(libs: Libs, sanitize: bool, required: seq<string>, before: Cluster, cache: Cache,
                           run: Run, after: Cluster, cache': Cache) {
    && Gathered(libs, run.originals, run.dests, run.index, run.groups)
    && Selected(libs, required, run.originals, before)
    && IsOrder(run.order, run.conjur.Keys)
    && IsNewData(libs, sanitize, run.originals, run.dests, run.groups, run.conjur, run.order, run.keys, run.newData)
    && Committed(libs, before, cache, run.originals, run.keys, run.newData, run.done, after, cache')
  }

  /** The run stopped at no error: everything stale was written. */
  ghost predicate Completed(libs: Libs, cache: Cache, run: Run) {
    run.done == Stale(libs, cache, run.newData)
  }

  /** The fetched values are Conjur's answer to the run's own request. */
  ghost predicate Answered(fetch: seq<string> -> Fetched, run: Run) {
    exists ids :: IsFetchList(ids, run.dests, run.groups) && fetch(ids) == Values(run.conjur)
  }

  /** The request was denied and every requested variable counts as empty. */
  ghost predicate Revoked(fetch: seq<string> -> Fetched, run: Run) {
    && run.keys == map[]
    && exists ids :: IsFetchList(ids, run.dests, run.groups) && fetch(ids) == Denied && run.conjur == map id | id in ids :: []
  }

  // ---- when a run has no reason to fail ----

  /** One of the first required Secrets, up to this one, has a group. */
  ghost predicate GroupKnown(libs: Libs, required: seq<string>, secrets: Cluster, i: nat)
    requires i < |required|
  {
    exists j :: 0 <= j <= i && required[j] in secrets && GroupSet(libs, secrets[required[j]]) != {}
  }

  ghost predicate AcceptedAt(libs: Libs, required: seq<string>, secrets: Cluster, i: nat)
    requires i < |required|
  {
    required[i] in secrets && Accepts(libs, secrets[required[i]], false, GroupKnown(libs, required, secrets, i))
  }

  /** Every required Secret exists and is accepted, given the groups known by then. */
  ghost predicate NamedAccepted(libs: Libs, required: seq<string>, secrets: Cluster) {
    forall i | 0 <= i < |required| :: AcceptedAt(libs, required, secrets, i)
  }

  ghost predicate ListAnswered(libs: Libs, required: seq<string>, fetch: seq<string> -> Fetched, secrets: Cluster,
                               originals: Originals, dests: Dests, index: Index, groups: Groups, ids: seq<string>) {
    Gathered(libs, originals, dests, index, groups) && Selected(libs, required, originals, secrets) && IsFetchList(ids, dests, groups)
    ==> fetch(ids).Values?
  }

  /** All required Secrets are acceptable, and whatever a run may ask Conjur for is answered with
      values. */
  ghost predicate NoReasonToFail(libs: Libs, required: seq<string>, fetch: seq<string> -> Fetched, secrets: Cluster) {
    && NamedAccepted(libs, required, secrets)
    && forall originals, dests, index, groups, ids :: ListAnswered(libs, required, fetch, secrets, originals, dests, index, groups, ids)
  }

  /** All outcomes of a run. Without a `run` nothing was touched; a successful one wrote every
      stale Secret; a failed one wrote some, and reports an update only after a revocation. What
      the run works on was built by actions the monitor allows. */
  ghost predicate RunOutcome(libs: Libs, sanitize: bool, required: seq<string>, fetch: seq<string> -> Fetched, keysToRemove: Removals,
                             before: Cluster, cache: Cache, updated: bool, ok: bool, run: Option<Run>, after: Cluster, cache': Cache) {
    match run
    case None =>
      && after == before && cache' == cache && !updated
      && (ok ==> keysToRemove == map[] && required == [] && forall s | s in before && IsLabeled(before[s]) :: !IsRelevant(libs, before[s]))
    case Some(r) =>
      && Happened(libs, sanitize, required, before, cache, r, after, cache')
      && Monitor.Reaches(libs, Monitor.EMPTY, Monitor.Shared(r.originals, r.dests, r.index, r.groups))
      && (ok ==> Completed(libs, cache, r) && r.keys == keysToRemove && Answered(fetch, r) && (updated <==> r.done != {}))
      && (!ok && !updated ==> !Completed(libs, cache, r) && r.keys == keysToRemove && Answered(fetch, r))
      && (!ok && updated ==> sanitize && Revoked(fetch, r))
  }

  lemma EntriesAreListed(libs: Libs, originals: Originals, dests: Dests, index: Index, groups: Groups, s: string)
    requires Gathered(libs, originals, dests, index, groups) && s in originals
    ensures MapEntries(libs, originals[s]) != map[] ==> dests != map[]
  {
    var entries := MapEntries(libs, originals[s]);
    if k :| k in entries {
      var target := EntryDest(s, k, entries[k]);
      assert Contributes(libs, originals[s], target.value.0, target.value.1);
      assert Lists(dests, target.value.0, target.value.1);
    }
  }

  /** With no destination and no group, no listed Secret had anything to say. */
  lemma NothingRelevant(libs: Libs, required: seq<string>, originals: Originals, dests: Dests, index: Index, groups: Groups, secrets: Cluster)
    requires Gathered(libs, originals, dests, index, groups) && dests == map[] && groups == map[]
    requires Selected(libs, required, originals, secrets)
    ensures required == [] ==> forall s | s in secrets && IsLabeled(secrets[s]) :: !IsRelevant(libs, secrets[s])
  {
    if required == [] {
      forall s | s in secrets && IsLabeled(secrets[s]) ensures !IsRelevant(libs, secrets[s]) {
        if s in originals {
          EntriesAreListed(libs, originals, dests, index, groups, s);
        }
      }
    }
  }

  lemma GroupWants(libs: Libs, originals: Originals, groups: Groups, s: string) returns (id: string)
    requires GroupsGathered(libs, originals, groups) && s in originals && GroupSet(libs, originals[s]) != {}
    ensures s in groups && GroupsWant(groups[s], id)
  {
    var g := groups[s][0];
    assert g in Elements(groups[s]) && g.specs != [];
    id := g.specs[0].path;
    assert g.specs[0] in g.specs && SpecsWant(g.specs, id);
  }

  /** A Secret with a destination or a group asks for a variable. */
  lemma RelevantAsks(libs: Libs, originals: Originals, dests: Dests, index: Index, groups: Groups, s: string) returns (id: string)
    requires Gathered(libs, originals, dests, index, groups) && s in originals && IsRelevant(libs, originals[s])
    ensures Wants(dests, groups, id)
  {
    EntriesAreListed(libs, originals, dests, index, groups, s);
    if dests != map[] {
      id :| id in dests.Keys;
    } else {
      id := GroupWants(libs, originals, groups, s);
    }
  }

  /** Gathered destinations or groups ask for something. */
  lemma SomethingAsked(libs: Libs, originals: Originals, dests: Dests, index: Index, groups: Groups) returns (id: string)
    requires Gathered(libs, originals, dests, index, groups) && (dests != map[] || groups != map[])
    ensures Wants(dests, groups, id)
  {
    if dests != map[] {
      id :| id in dests.Keys;
    } else {
      var s :| s in groups.Keys;
      assert groups[s][0] in Elements(groups[s]);
      id := GroupWants(libs, originals, groups, s);
    }
  }

  lemma GroupsKnownIff(libs: Libs, originals: Originals, groups: Groups)
    requires GroupsGathered(libs, originals, groups)
    ensures groups != map[] <==> exists s :: s in originals && GroupSet(libs, originals[s]) != {}
  {
    if groups != map[] {
      var s :| s in groups.Keys;
      assert groups[s][0] in Elements(groups[s]);
    }
  }

  lemma FirstHasSource(libs: Libs, required: seq<string>, secrets: Cluster)
    requires required != [] && NamedAccepted(libs, required, secrets)
    ensures required[0] in secrets
    ensures MapEntries(libs, secrets[required[0]]) != map[] || GroupSet(libs, secrets[required[0]]) != {}
  {
    assert AcceptedAt(libs, required, secrets, 0);
    HasSource(libs, secrets[required[0]], GroupKnown(libs, required, secrets, 0));
  }

  lemma HasSource(libs: Libs, secret: Secret, anyGroups: bool)
    requires Accepts(libs, secret, false, anyGroups)
    ensures MapEntries(libs, secret) != map[] || anyGroups
  {
  }

  /** Named mode gathers something to ask for. */
  lemma NamedHasSource(libs: Libs, required: seq<string>, originals: Originals, dests: Dests, index: Index, groups: Groups, secrets: Cluster)
    requires Gathered(libs, originals, dests, index, groups) && Selected(libs, required, originals, secrets)
    requires required != [] && NamedAccepted(libs, required, secrets)
    ensures dests != map[] || groups != map[]
  {
    var s := required[0];
    FirstHasSource(libs, required, secrets);
    assert s in originals && originals[s] == secrets[s];
    EntriesAreListed(libs, originals, dests, index, groups, s);
    if GroupSet(libs, originals[s]) != {} {
      var id := GroupWants(libs, originals, groups, s);
    }
  }
}
