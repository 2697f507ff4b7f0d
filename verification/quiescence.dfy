/** A second run on unchanged Conjur values finds nothing to write. */
module Quiescence {
  import opened Kube
  import opened Checksum
  import opened Destinations
  import opened SecretData
  import opened Gather
  import opened Commit
  import opened RunSpec
  import opened Runs

  /** Map order shows nowhere. */
  ghost predicate AllDecided(libs: Libs, sanitize: bool, run: Run) {
    forall s, k :: Decided(libs, sanitize, run.originals, run.dests, run.groups, run.conjur, s, k)
  }

  /** The first run completed, with nothing named `conjur-map` and no slot left to map order; the
      second starts where it ended, removes nothing and is given the same Conjur values. */
  ghost predicate BackToBack(libs: Libs, sanitize: bool, required: seq<string>, c0: Cluster, p0: Cache, r1: Run, c1: Cluster, p1: Cache, r2: Run, c2: Cluster, p2: Cache) {
    && Happened(libs, sanitize, required, c0, p0, r1, c1, p1) && Completed(libs, p0, r1)
    && NothingNamedConjurMap(libs, r1) && AllDecided(libs, sanitize, r1)
    && Happened(libs, sanitize, required, c1, p1, r2, c2, p2)
    && r2.keys == map[] && r2.conjur == r1.conjur
  }

  // ---- the same sources ----

  /** A run does not change what a Secret contributes. */
  lemma ContributionKept(libs: Libs, sanitize: bool, required: seq<string>, c0: Cluster, p0: Cache, r1: Run, c1: Cluster, p1: Cache, s: string)
    requires Happened(libs, sanitize, required, c0, p0, r1, c1, p1) && NothingNamedConjurMap(libs, r1) && s in c0
    ensures s in c1 && c1[s].name == c0[s].name && c1[s].labels == c0[s].labels && c1[s].annotations == c0[s].annotations
    ensures RawMap(c1[s]) == RawMap(c0[s])
  {
    if s in r1.done {
      NamesKeepMaps(libs, sanitize, required, c0, p0, r1, c1, p1);
      WrittenSecret(libs, sanitize, required, c0, p0, r1, c1, p1, s, CONJUR_MAP_KEY);
    }
  }

  lemma SameEntries(libs: Libs, a: Secret, b: Secret)
    requires a.name == b.name && a.annotations == b.annotations && RawMap(a) == RawMap(b)
    ensures GoodAnnotations(libs, a) == GoodAnnotations(libs, b)
    ensures MapEntries(libs, a) == MapEntries(libs, b)
    ensures GroupSet(libs, a) == GroupSet(libs, b)
    ensures IsRelevant(libs, a) == IsRelevant(libs, b)
  {
    assert forall x :: NamesGroup(a, x) == NamesGroup(b, x) && BadGroup(libs, a, x) == BadGroup(libs, b, x);
    forall g ensures g in GroupSet(libs, a) <==> g in GroupSet(libs, b) {
      assert forall x | NamesGroup(a, x) && !BadGroup(libs, a, x) :: GroupOf(libs, a, x) == GroupOf(libs, b, x);
    }
  }

  /** A Secret that matters is gathered by both runs, with the same contribution. */
  lemma BothGather(libs: Libs, sanitize: bool, required: seq<string>, c0: Cluster, p0: Cache, r1: Run, c1: Cluster, p1: Cache, r2: Run, c2: Cluster, p2: Cache, s: string)
    requires BackToBack(libs, sanitize, required, c0, p0, r1, c1, p1, r2, c2, p2)
    requires (s in r1.originals && IsRelevant(libs, r1.originals[s])) || (s in r2.originals && IsRelevant(libs, r2.originals[s]))
    ensures s in r1.originals && s in r2.originals && r1.originals[s] == c0[s] && r2.originals[s] == c1[s]
    ensures MapEntries(libs, r1.originals[s]) == MapEntries(libs, r2.originals[s])
    ensures GoodAnnotations(libs, r1.originals[s]) == GoodAnnotations(libs, r2.originals[s])
    ensures GroupSet(libs, r1.originals[s]) == GroupSet(libs, r2.originals[s])
    ensures r1.originals[s].annotations == r2.originals[s].annotations && r1.originals[s].name == r2.originals[s].name
  {
    assert c1.Keys == c0.Keys;
    assert s in c0;
    ContributionKept(libs, sanitize, required, c0, p0, r1, c1, p1, s);
    SameEntries(libs, c0[s], c1[s]);
  }

  lemma SameLists(libs: Libs, sanitize: bool, required: seq<string>, c0: Cluster, p0: Cache, r1: Run, c1: Cluster, p1: Cache, r2: Run, c2: Cluster, p2: Cache, v: string, d: Dest)
    requires BackToBack(libs, sanitize, required, c0, p0, r1, c1, p1, r2, c2, p2)
    ensures Lists(r1.dests, v, d) <==> Lists(r2.dests, v, d)
  {
    var s := d.k8sSecretName;
    if Lists(r1.dests, v, d) {
      assert Contributes(libs, r1.originals[s], v, d) && IsRelevant(libs, r1.originals[s]);
      BothGather(libs, sanitize, required, c0, p0, r1, c1, p1, r2, c2, p2, s);
      assert Contributes(libs, r2.originals[s], v, d);
    }
    if Lists(r2.dests, v, d) {
      assert Contributes(libs, r2.originals[s], v, d) && IsRelevant(libs, r2.originals[s]);
      BothGather(libs, sanitize, required, c0, p0, r1, c1, p1, r2, c2, p2, s);
      assert Contributes(libs, r1.originals[s], v, d);
    }
  }

  ghost predicate SameDests(d1: Dests, d2: Dests) {
    forall v, d :: Lists(d1, v, d) <==> Lists(d2, v, d)
  }

  /** With one source per slot the list order is immaterial to what a variable writes. */
  lemma SameWriters(libs: Libs, originals: Originals, d1: Dests, index: Index, groups: Groups, d2: Dests, conjur: Data, v: string, s: string, k: string)
    requires Gathered(libs, originals, d1, index, groups) && SameDests(d1, d2) && v in conjur
    ensures ExplicitOf(libs, d1, conjur, v, s, k) == ExplicitOf(libs, d2, conjur, v, s, k)
    ensures StarredOf(libs, d1, conjur, v, s, k) == StarredOf(libs, d2, conjur, v, s, k)
  {
    SameServed(d1, d2, v);
    forall a, b | a in Served(d1, v) && b in Served(d1, v) && KeyOf(a) == KeyOf(b) ensures a == b {
      var x := if Lists(d1, v, a) then v else "*";
      var y := if Lists(d1, v, b) then v else "*";
      assert Lists(d1, x, a) && Lists(d1, y, b);
      OneSource(libs, originals, d1, index, groups, x, a, y, b);
    }
    SameExplicit(libs, Served(d1, v), Served(d2, v), conjur[v], s, k);
    SameStarred(libs, Served(d1, v), Served(d2, v), v, conjur[v], s, k);
  }

  lemma SameServed(d1: Dests, d2: Dests, v: string)
    requires SameDests(d1, d2)
    ensures forall d :: d in Served(d1, v) <==> d in Served(d2, v)
  {
    assert forall d :: d in Served(d1, v) <==> Lists(d1, v, d) || Lists(d1, "*", d);
    assert forall d :: d in Served(d2, v) <==> Lists(d2, v, d) || Lists(d2, "*", d);
  }

  lemma SameExplicit(libs: Libs, a: seq<Dest>, b: seq<Dest>, raw: Bytes, s: string, k: string)
    requires forall d :: d in a <==> d in b
    requires forall d, e | d in a && e in a && KeyOf(d) == KeyOf(e) :: d == e
    ensures Explicit(libs, a, raw, s, k) == Explicit(libs, b, raw, s, k)
  {
    if Explicit(libs, a, raw, s, k).Some? {
      var d := ExplicitWitness(libs, a, raw, s, k);
      ExplicitFinds(libs, b, raw, s, k, d);
      var e := ExplicitWitness(libs, b, raw, s, k);
    } else if Explicit(libs, b, raw, s, k).Some? {
      var e := ExplicitWitness(libs, b, raw, s, k);
      ExplicitFinds(libs, a, raw, s, k, e);
    }
  }

  lemma SameStarred(libs: Libs, a: seq<Dest>, b: seq<Dest>, v: string, raw: Bytes, s: string, k: string)
    requires forall d :: d in a <==> d in b
    requires forall d, e | d in a && e in a && KeyOf(d) == KeyOf(e) :: d == e
    ensures Starred(libs, a, v, raw, s, k) == Starred(libs, b, v, raw, s, k)
  {
    if Starred(libs, a, v, raw, s, k).Some? {
      var d := StarWitness(libs, a, v, raw, s, k);
      StarFinds(libs, b, v, raw, s, k, d);
      var e := StarWitness(libs, b, v, raw, s, k);
    } else if Starred(libs, b, v, raw, s, k).Some? {
      var e := StarWitness(libs, b, v, raw, s, k);
      StarFinds(libs, a, v, raw, s, k, e);
    }
  }

  lemma SameWritten(libs: Libs, originals: Originals, d1: Dests, index: Index, groups: Groups, d2: Dests, conjur: Data, o1: seq<string>, o2: seq<string>, s: string, k: string)
    requires Gathered(libs, originals, d1, index, groups) && SameDests(d1, d2)
    requires IsOrder(o1, conjur.Keys) && IsOrder(o2, conjur.Keys) && Uncontested(libs, d1, conjur, s, k)
    ensures Written(libs, d1, conjur, o1, s, k) == Written(libs, d2, conjur, o2, s, k)
  {
    forall v | v in conjur
      ensures ExplicitOf(libs, d1, conjur, v, s, k) == ExplicitOf(libs, d2, conjur, v, s, k)
      ensures StarredOf(libs, d1, conjur, v, s, k) == StarredOf(libs, d2, conjur, v, s, k)
    {
      SameWriters(libs, originals, d1, index, groups, d2, conjur, v, s, k);
    }
    WrittenSettles(libs, d1, conjur, o1, s, k);
    WrittenSettles(libs, d2, conjur, o2, s, k);
  }

  // ---- the same groups ----

  lemma SameGroupSecrets(conjur: Data, a: seq<Group>, b: seq<Group>, name: string)
    requires NamesDistinct(a) && NamesDistinct(b) && Elements(a) == Elements(b)
    ensures GroupSecrets(conjur, a, name) == GroupSecrets(conjur, b, name)
  {
    assert forall g :: g in a <==> g in Elements(b);
    if g :| g in a && g.name == name {
      GroupOnce(conjur, a, g);
      GroupOnce(conjur, b, g);
    } else {
      GroupOnce(conjur, a, Group(name, []));
      GroupOnce(conjur, b, Group(name, []));
    }
  }

  lemma GroupsAreRelevant(libs: Libs, run: Run, s: string)
    requires Gathered(libs, run.originals, run.dests, run.index, run.groups) && s in run.groups
    ensures s in run.originals && IsRelevant(libs, run.originals[s])
  {
    assert run.groups[s][0] in Elements(run.groups[s]);
  }

  lemma SameGroups(libs: Libs, sanitize: bool, required: seq<string>, c0: Cluster, p0: Cache, r1: Run, c1: Cluster, p1: Cache, r2: Run, c2: Cluster, p2: Cache, s: string)
    requires BackToBack(libs, sanitize, required, c0, p0, r1, c1, p1, r2, c2, p2)
    requires s in r1.groups || s in r2.groups
    ensures s in r1.groups && s in r2.groups && s in r1.originals && s in r2.originals
    ensures Elements(r1.groups[s]) == Elements(r2.groups[s]) && NamesDistinct(r1.groups[s]) && NamesDistinct(r2.groups[s])
    ensures r1.originals[s].annotations == r2.originals[s].annotations
  {
    var r := if s in r1.groups then r1 else r2;
    GroupsAreRelevant(libs, r, s);
    assert r.groups[s][0] in Elements(r.groups[s]);
    assert GroupSet(libs, r.originals[s]) != {};
    BothGather(libs, sanitize, required, c0, p0, r1, c1, p1, r2, c2, p2, s);
  }

  lemma SameRendered(libs: Libs, o1: Originals, g1: Groups, o2: Originals, g2: Groups, conjur: Data, s: string, k: string)
    requires s in g1 && s in g2 && s in o1 && s in o2 && o1[s].annotations == o2[s].annotations
    requires GroupSecrets(conjur, g1[s], k) == GroupSecrets(conjur, g2[s], k)
    ensures RenderedAt(libs, o1, g1, conjur, s, k) == RenderedAt(libs, o2, g2, conjur, s, k)
  {
    assert TemplateOf(o1[s], k) == TemplateOf(o2[s], k);
  }

  lemma BothRender(libs: Libs, sanitize: bool, required: seq<string>, c0: Cluster, p0: Cache, r1: Run, c1: Cluster, p1: Cache, r2: Run, c2: Cluster, p2: Cache, s: string, k: string)
    requires BackToBack(libs, sanitize, required, c0, p0, r1, c1, p1, r2, c2, p2)
    ensures RenderedAt(libs, r1.originals, r1.groups, r1.conjur, s, k) == RenderedAt(libs, r2.originals, r2.groups, r1.conjur, s, k)
  {
    if s in r1.groups || s in r2.groups {
      SameGroups(libs, sanitize, required, c0, p0, r1, c1, p1, r2, c2, p2, s);
      SameGroupSecrets(r1.conjur, r1.groups[s], r2.groups[s], k);
      SameRendered(libs, r1.originals, r1.groups, r2.originals, r2.groups, r1.conjur, s, k);
    }
  }

  // ---- the same new data ----

  /** The Secret has a `*` destination. */
  ghost predicate HasStar(dests: Dests, s: string) {
    exists v, d :: Lists(dests, v, d) && d.k8sSecretName == s && d.secretName == "*"
  }

  lemma StarBothGathered(libs: Libs, sanitize: bool, required: seq<string>, c0: Cluster, p0: Cache, r1: Run, c1: Cluster, p1: Cache, r2: Run, c2: Cluster, p2: Cache, s: string)
    requires BackToBack(libs, sanitize, required, c0, p0, r1, c1, p1, r2, c2, p2) && HasStar(r1.dests, s)
    ensures s in c0 && s in c1 && s in r1.originals && s in r2.originals && r1.originals[s] == c0[s] && r2.originals[s] == c1[s]
  {
    var v, d :| Lists(r1.dests, v, d) && d.k8sSecretName == s && d.secretName == "*";
    assert Contributes(libs, r1.originals[s], v, d) && IsRelevant(libs, r1.originals[s]);
    BothGather(libs, sanitize, required, c0, p0, r1, c1, p1, r2, c2, p2, s);
  }

  /** A key that only wiping fills is there after the run iff it was before. */
  lemma WipedKeyStays(libs: Libs, sanitize: bool, required: seq<string>, c0: Cluster, p0: Cache, r1: Run, c1: Cluster, p1: Cache, s: string, k: string)
    requires Happened(libs, sanitize, required, c0, p0, r1, c1, p1) && s in c0
    requires At(r1.newData, s, k) == if k in DataOf(c0[s]) then Some([]) else None
    ensures s in c1 && (k in DataOf(c1[s]) <==> k in DataOf(c0[s]))
  {
    if s in r1.done {
      WrittenSecret(libs, sanitize, required, c0, p0, r1, c1, p1, s, k);
    } else {
      UnwrittenSecret(libs, sanitize, required, c0, p0, r1, c1, p1, s);
    }
  }

  /** A slot filled by wiping alone is filled in both runs or in neither. */
  lemma SameWiped(libs: Libs, sanitize: bool, required: seq<string>, c0: Cluster, p0: Cache, r1: Run, c1: Cluster, p1: Cache, r2: Run, c2: Cluster, p2: Cache, s: string, k: string)
    requires BackToBack(libs, sanitize, required, c0, p0, r1, c1, p1, r2, c2, p2) && SameDests(r1.dests, r2.dests)
    requires At(r1.newData, s, k) == if Wiped(r1.originals, r1.dests, s, k) then Some([]) else None
    ensures Wiped(r1.originals, r1.dests, s, k) <==> Wiped(r2.originals, r2.dests, s, k)
  {
    assert HasStar(r1.dests, s) <==> HasStar(r2.dests, s);
    if HasStar(r1.dests, s) && k != CONJUR_MAP_KEY {
      StarBothGathered(libs, sanitize, required, c0, p0, r1, c1, p1, r2, c2, p2, s);
      WipedKeyStays(libs, sanitize, required, c0, p0, r1, c1, p1, s, k);
    }
  }

  /** Equal sources give an equal slot. */
  lemma SlotBySources(libs: Libs, sanitize: bool, r1: Run, r2: Run, s: string, k: string)
    requires IsOrder(r1.order, r1.conjur.Keys) && IsOrder(r2.order, r1.conjur.Keys) && r1.conjur == r2.conjur
    requires RenderedAt(libs, r1.originals, r1.groups, r1.conjur, s, k) == RenderedAt(libs, r2.originals, r2.groups, r1.conjur, s, k)
    requires RenderedAt(libs, r1.originals, r1.groups, r1.conjur, s, k).Some? || (sanitize && Missing(r1.dests, r1.conjur, s, k))
          || Written(libs, r1.dests, r1.conjur, r1.order, s, k) == Written(libs, r2.dests, r1.conjur, r2.order, s, k)
    requires Missing(r1.dests, r1.conjur, s, k) <==> Missing(r2.dests, r1.conjur, s, k)
    requires At(r1.newData, s, k) == NewAt(libs, sanitize, r1.originals, r1.dests, r1.groups, r1.conjur, r1.order, s, k)
    requires At(r2.newData, s, k) == NewAt(libs, sanitize, r2.originals, r2.dests, r2.groups, r2.conjur, r2.order, s, k)
    ensures At(r1.newData, s, k) == At(r2.newData, s, k)
         || At(r1.newData, s, k) == if Wiped(r1.originals, r1.dests, s, k) then Some([]) else None
    ensures (Wiped(r1.originals, r1.dests, s, k) <==> Wiped(r2.originals, r2.dests, s, k)) ==> At(r1.newData, s, k) == At(r2.newData, s, k)
  {
  }

  lemma SameSlot(libs: Libs, sanitize: bool, required: seq<string>, c0: Cluster, p0: Cache, r1: Run, c1: Cluster, p1: Cache, r2: Run, c2: Cluster, p2: Cache, s: string, k: string)
    requires BackToBack(libs, sanitize, required, c0, p0, r1, c1, p1, r2, c2, p2)
    ensures At(r1.newData, s, k) == At(r2.newData, s, k)
  {
    assert SameDests(r1.dests, r2.dests) by {
      forall v, d ensures Lists(r1.dests, v, d) <==> Lists(r2.dests, v, d) {
        SameLists(libs, sanitize, required, c0, p0, r1, c1, p1, r2, c2, p2, v, d);
      }
    }
    BothRender(libs, sanitize, required, c0, p0, r1, c1, p1, r2, c2, p2, s, k);
    assert Decided(libs, sanitize, r1.originals, r1.dests, r1.groups, r1.conjur, s, k);
    if Uncontested(libs, r1.dests, r1.conjur, s, k) {
      SameWritten(libs, r1.originals, r1.dests, r1.index, r1.groups, r2.dests, r1.conjur, r1.order, r2.order, s, k);
    }
    SlotBySources(libs, sanitize, r1, r2, s, k);
    if At(r1.newData, s, k) != At(r2.newData, s, k) {
      SameWiped(libs, sanitize, required, c0, p0, r1, c1, p1, r2, c2, p2, s, k);
    }
  }

  /** The second run has nothing stale, so it writes nothing: cluster and cache stay as they
      are. This covers fetch-all with sanitising, where blanks and rendered groups of the first
      run are existing keys in the second. */
  lemma Quiescent(libs: Libs, sanitize: bool, required: seq<string>, c0: Cluster, p0: Cache, r1: Run, c1: Cluster, p1: Cache, r2: Run, c2: Cluster, p2: Cache)
    requires BackToBack(libs, sanitize, required, c0, p0, r1, c1, p1, r2, c2, p2)
    ensures Stale(libs, p1, r2.newData) == {} && r2.done == {}
    ensures c2 == c1 && p2 == p1
  {
    forall s | s in r2.newData ensures s in p1 && p1[s] == ChecksumOf(libs, r2.newData[s]) {
      forall k ensures At(r1.newData, s, k) == At(r2.newData, s, k) {
        SameSlot(libs, sanitize, required, c0, p0, r1, c1, p1, r2, c2, p2, s, k);
      }
      SameEntry(r1.newData, r2.newData, s);
      Recorded(libs, sanitize, required, c0, p0, r1, c1, p1, s);
    }
    CommitNothing(c1, r2.originals, r2.keys, r2.newData, p1, Sums(libs, r2.newData));
  }

  lemma SameEntry(a: NewData, b: NewData, s: string)
    requires forall k :: At(a, s, k) == At(b, s, k)
    requires s in b && b[s] != map[]
    ensures s in a && a[s] == b[s]
  {
    var k :| k in b[s];
    assert At(a, s, k).Some?;
    forall k ensures k in a[s] <==> k in b[s] {
      assert At(a, s, k) == At(b, s, k);
    }
    forall k | k in a[s] ensures a[s][k] == b[s][k] {
      assert At(a, s, k) == At(b, s, k);
    }
  }

  /** After a completed run the cache holds the checksum of every piece of new data. */
  lemma Recorded(libs: Libs, sanitize: bool, required: seq<string>, before: Cluster, cache: Cache, run: Run, after: Cluster, cache': Cache, s: string)
    requires Happened(libs, sanitize, required, before, cache, run, after, cache') && Completed(libs, cache, run)
    requires s in run.newData
    ensures s in cache' && cache'[s] == ChecksumOf(libs, run.newData[s])
  {
    var sums := Sums(libs, run.newData);
    assert sums[s] == ChecksumOf(libs, run.newData[s]);
    assert s in StaleSums(cache, sums) || (s in cache && cache[s] == sums[s]);
  }
}
