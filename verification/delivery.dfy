/** From a Secret in the cluster to its data after a run: what a user who writes a conjur-map or a
    group annotation can rely on. */
module Delivery {
  import opened Kube
  import opened Checksum
  import opened Destinations
  import opened SecretData
  import opened Gather
  import opened Commit
  import opened K8sClient
  import opened RunSpec
  import opened Runs
  import opened Refinement
  import opened Forwarding

  /** The run takes the Secret up: it is named, or labelled and acceptable. */
  ghost predicate TakenUp(libs: Libs, required: seq<string>, secrets: Cluster, s: string) {
    && s in secrets
    && if required != [] then s in required else IsLabeled(secrets[s]) && Admissible(libs, secrets[s])
  }

  predicate NamesVariable(entry: Entry) {
    entry.Id? || (entry.Mapping? && entry.varId.Some? && entry.varId.value != "")
  }

  predicate DeclaresSpecs(libs: Libs, declaration: Declaration) {
    libs.parseSpecs(declaration.specs).Some? && libs.parseSpecs(declaration.specs).value != []
  }

  lemma AnnotationsGoodIff(libs: Libs, secret: Secret)
    ensures GoodAnnotations(libs, secret) <==> forall g | Declares(secret, g).Some? :: DeclaresSpecs(libs, Declares(secret, g).value)
    ensures GoodAnnotations(libs, secret) ==> (GroupSet(libs, secret) != {} <==> exists g :: Declares(secret, g).Some?)
  {
    forall a | NamesGroup(secret, a)
      ensures var g := a[|SECRET_GROUP_PREFIX|..];
              Declares(secret, g).Some? && (BadGroup(libs, secret, a) <==> !DeclaresSpecs(libs, Declares(secret, g).value))
    {
      assert a == SECRET_GROUP_PREFIX + a[|SECRET_GROUP_PREFIX|..];
    }
    forall g | Declares(secret, g).Some? ensures NamesGroup(secret, SECRET_GROUP_PREFIX + g) {
      PrefixFound(SECRET_GROUP_PREFIX, g);
      assert (SECRET_GROUP_PREFIX + g)[|SECRET_GROUP_PREFIX|..] == g;
    }
    forall g | Declares(secret, g).Some? && GoodAnnotations(libs, secret) ensures GroupSet(libs, secret) != {} {
      assert GroupOf(libs, secret, SECRET_GROUP_PREFIX + g) in GroupSet(libs, secret);
    }
  }

  /** Which Secrets are accepted beside groups known from others: those whose declared groups have
      specs, whose readable entries all name a variable, whose conjur-map is absent, empty or
      readable unless there is a group, and that are not without both, where that matters. */
  lemma AcceptedIff(libs: Libs, secret: Secret, allowEmptyConjurMap: bool, others: bool)
    ensures var raw := if "conjur-map" in DataOf(secret) then DataOf(secret)["conjur-map"] else [];
            var entries := if raw != [] && libs.parseConjurMap(raw).ok then libs.parseConjurMap(raw).entries else map[];
            var groups := others || exists g :: Declares(secret, g).Some?;
            Accepts(libs, secret, allowEmptyConjurMap, others || GroupSet(libs, secret) != {}) <==>
            && (forall g | Declares(secret, g).Some? :: DeclaresSpecs(libs, Declares(secret, g).value))
            && (forall k | k in entries :: NamesVariable(entries[k]))
            && (raw == [] || libs.parseConjurMap(raw).ok || groups)
            && (entries != map[] || groups || allowEmptyConjurMap)
  {
    AnnotationsGoodIff(libs, secret);
    MapEntriesAreParsed(libs, secret);
    GoodEntriesIff(secret.name, MapEntries(libs, secret));
  }

  /** The conjur-map of the Secret has the entry. */
  ghost predicate MapHas(libs: Libs, secret: Secret, k: string, entry: Entry) {
    && "conjur-map" in DataOf(secret) && DataOf(secret)["conjur-map"] != []
    && var yaml := libs.parseConjurMap(DataOf(secret)["conjur-map"]);
    && yaml.ok && k in yaml.entries && yaml.entries[k] == entry
  }

  lemma MapHasEntry(libs: Libs, secret: Secret, k: string, entry: Entry)
    requires MapHas(libs, secret, k, entry)
    ensures k in MapEntries(libs, secret) && MapEntries(libs, secret)[k] == entry
  {
    MapEntriesAreParsed(libs, secret);
  }

  /** A successful run that takes up a Secret with an entry or a group did its work. */
  lemma SuccessIsWork(libs: Libs, sanitize: bool, required: seq<string>, fetch: seq<string> -> Fetched, keys: Removals,
                      before: Cluster, cache: Cache, updated: bool, run: Option<Run>, after: Cluster, cache': Cache, s: string)
    requires RunOutcome(libs, sanitize, required, fetch, keys, before, cache, updated, true, run, after, cache')
    requires TakenUp(libs, required, before, s)
    requires required == [] ==> MapEntries(libs, before[s]) != map[] || GroupSet(libs, before[s]) != {}
    ensures run.Some? && Completed(libs, cache, run.value) && Answered(fetch, run.value)
    ensures Happened(libs, sanitize, required, before, cache, run.value, after, cache')
    ensures s in run.value.originals && run.value.originals[s] == before[s]
  {
    assert required == [] ==> IsRelevant(libs, before[s]);
    assert run.Some?;
    assert required != [] ==> run.value.originals.Keys == Elements(required);
  }

  /** After a successful run from a sound cache, the key of a conjur-map entry holds the value
      fetched for the entry's variable, decoded if the entry says base64 and it can be; unless both
      annotations of a group of that name are there. */
  lemma EntryIsDelivered(libs: Libs, sanitize: bool, required: seq<string>, fetch: seq<string> -> Fetched, keys: Removals,
                         before: Cluster, cache: Cache, updated: bool, run: Run, after: Cluster, cache': Cache,
                         s: string, k: string, entry: Entry, id: string)
    requires RunOutcome(libs, sanitize, required, fetch, keys, before, cache, updated, true, Some(run), after, cache')
    requires Injective(libs) && CacheSound(libs, before, cache) && ColonFreeNames(run)
    requires TakenUp(libs, required, before, s) && MapHas(libs, before[s], k, entry) && k != "*"
    requires entry == Id(id) || (entry.Mapping? && entry.varId == Some(id))
    requires id in run.conjur && id != "*" && Declares(before[s], k).None?
    ensures s in after && k in DataOf(after[s])
    ensures var value := run.conjur[id];
            DataOf(after[s])[k] == if entry.Mapping? && entry.contentType == Some("base64") && libs.decodeBase64(value).Some?
                                   then libs.decodeBase64(value).value else value
  {
    MapHasEntry(libs, before[s], k, entry);
    SuccessIsWork(libs, sanitize, required, fetch, keys, before, cache, updated, Some(run), after, cache', s);
    var d := EntryIsListed(libs, run, s, k, entry, id);
    DestinationsAreDelivered(libs, sanitize, required, before, cache, run, after, cache', id, d);
    NothingRendered(libs, run, s, k);
  }

  lemma EntryIsListed(libs: Libs, run: Run, s: string, k: string, entry: Entry, id: string) returns (d: Dest)
    requires Gathered(libs, run.originals, run.dests, run.index, run.groups) && s in run.originals
    requires k in MapEntries(libs, run.originals[s]) && MapEntries(libs, run.originals[s])[k] == entry
    requires entry == Id(id) || (entry.Mapping? && entry.varId == Some(id))
    ensures Lists(run.dests, id, d) && d.k8sSecretName == s && d.secretName == k
    ensures d.contentType == "base64" <==> entry.Mapping? && entry.contentType == Some("base64")
  {
    EntriesAreDestinations(libs, run.originals, run.dests, run.index, run.groups, s);
    d := Dest(s, k, if entry.Mapping? && entry.contentType == Some("base64") then "base64" else "text");
    if entry.Mapping? {
      assert entry == Mapping(Some(id), entry.contentType);
    }
  }

  lemma NothingRendered(libs: Libs, run: Run, s: string, k: string)
    requires Gathered(libs, run.originals, run.dests, run.index, run.groups) && s in run.originals
    requires Declares(run.originals[s], k).None?
    ensures RenderedAt(libs, run.originals, run.groups, run.conjur, s, k).None?
  {
    if RenderedAt(libs, run.originals, run.groups, run.conjur, s, k).Some? {
      OnlyGroupsAreRendered(libs, run.originals, run.dests, run.index, run.groups, run.conjur, s, k);
    }
  }

  /** And a group whose template renders over its fetched values holds the result under its name. */
  lemma GroupIsDelivered(libs: Libs, sanitize: bool, required: seq<string>, fetch: seq<string> -> Fetched, keys: Removals,
                         before: Cluster, cache: Cache, updated: bool, run: Run, after: Cluster, cache': Cache,
                         s: string, g: string, specs: seq<SecretSpec>)
    requires RunOutcome(libs, sanitize, required, fetch, keys, before, cache, updated, true, Some(run), after, cache')
    requires Injective(libs) && CacheSound(libs, before, cache) && ColonFreeNames(run)
    requires TakenUp(libs, required, before, s) && Declares(before[s], g).Some?
    requires libs.parseSpecs(Declares(before[s], g).value.specs) == Some(specs) && specs != []
    ensures var list := seq(|specs|, i requires 0 <= i < |specs| => TemplateSecret(specs[i].alias, if specs[i].path in run.conjur then run.conjur[specs[i].path] else []));
            var file := libs.render(g, Declares(before[s], g).value.template, list);
            file.Some? ==> s in after && g in DataOf(after[s]) && DataOf(after[s])[g] == file.value
  {
    DeclaredAreGathered(libs, before[s], g, specs);
    SuccessIsWork(libs, sanitize, required, fetch, keys, before, cache, updated, Some(run), after, cache', s);
    var specs', list := GroupIsRendered(libs, run.originals, run.dests, run.index, run.groups, run.conjur, s, g);
    assert list == seq(|specs|, i requires 0 <= i < |specs| => TemplateSecret(specs[i].alias, if specs[i].path in run.conjur then run.conjur[specs[i].path] else []));
    RenderedIsHeld(libs, sanitize, required, before, cache, run, after, cache', s, g);
  }

  lemma RenderedIsHeld(libs: Libs, sanitize: bool, required: seq<string>, before: Cluster, cache: Cache, run: Run, after: Cluster, cache': Cache, s: string, g: string)
    requires Happened(libs, sanitize, required, before, cache, run, after, cache') && Completed(libs, cache, run)
    requires Injective(libs) && CacheSound(libs, before, cache) && ColonFreeNames(run)
    ensures var file := RenderedAt(libs, run.originals, run.groups, run.conjur, s, g);
            file.Some? ==> HeldAt(after, s, g) == file
  {
    RenderedIsNew(libs, sanitize, run, s, g);
    if RenderedAt(libs, run.originals, run.groups, run.conjur, s, g).Some? {
      NewDataIsHeld(libs, sanitize, required, before, cache, run, after, cache', s);
    }
  }

  lemma RenderedIsNew(libs: Libs, sanitize: bool, run: Run, s: string, g: string)
    requires IsOrder(run.order, run.conjur.Keys)
    requires IsNewData(libs, sanitize, run.originals, run.dests, run.groups, run.conjur, run.order, run.keys, run.newData)
    ensures var file := RenderedAt(libs, run.originals, run.groups, run.conjur, s, g);
            file.Some? ==> s in run.newData && At(run.newData, s, g) == file
  {
    assert At(run.newData, s, g) == NewAt(libs, sanitize, run.originals, run.dests, run.groups, run.conjur, run.order, s, g);
  }
}
