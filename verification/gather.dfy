/** What one Kubernetes Secret contributes to a run: destinations read from its conjur-map and
    template groups read from its annotations. */
module Gather {
  import opened Kube
  import opened Destinations
  import opened SecretData

  /** The (variable, destination) a conjur-map entry stands for; None is a malformed entry. */
  function EntryDest(s: string, k: string, e: Entry): Option<(string, Dest)> {
    match e
    case Id(id) => Some((id, Dest(s, k, "text")))
    case Mapping(Some(id), contentType) =>
      if id == "" then None
      else Some((id, Dest(s, k, if contentType == Some("base64") then "base64" else "text")))
    case _ => None
  }

  predicate GoodEntries(s: string, entries: map<string, Entry>) {
    forall k | k in entries :: EntryDest(s, k, entries[k]).Some?
  }

  function RawMap(secret: Secret): Bytes {
    Lookup(DataOf(secret), CONJUR_MAP_KEY)
  }

  /** The conjur-map entries a run acts on: none when the map is absent, empty or unreadable. */
  function MapEntries(libs: Libs, secret: Secret): map<string, Entry> {
    var raw := RawMap(secret);
    if raw != [] && libs.parseConjurMap(raw).ok then libs.parseConjurMap(raw).entries else map[]
  }

  predicate IsPrefix(prefix: string, s: string) {
    |prefix| <= |s| && s[..|prefix|] == prefix
  }

  /** A group annotation that has its template annotation. */
  predicate NamesGroup(secret: Secret, annotation: string) {
    && annotation in secret.annotations
    && IsPrefix(SECRET_GROUP_PREFIX, annotation)
    && FILE_TEMPLATE_PREFIX + annotation[|SECRET_GROUP_PREFIX|..] in secret.annotations
  }

  /** A group annotation whose specs do not parse, or of which there are none. */
  predicate BadGroup(libs: Libs, secret: Secret, annotation: string) {
    NamesGroup(secret, annotation) &&
    (libs.parseSpecs(secret.annotations[annotation]).None? || libs.parseSpecs(secret.annotations[annotation]).value == [])
  }

  predicate GoodAnnotations(libs: Libs, secret: Secret) {
    forall a | a in secret.annotations :: !BadGroup(libs, secret, a)
  }

  function GroupOf(libs: Libs, secret: Secret, annotation: string): Group
    requires NamesGroup(secret, annotation) && !BadGroup(libs, secret, annotation)
  {
    Group(annotation[|SECRET_GROUP_PREFIX|..], libs.parseSpecs(secret.annotations[annotation]).value)
  }

  /** The groups of a Secret, one for each group annotation. */
  ghost function GroupSet(libs: Libs, secret: Secret): set<Group> {
    set a | a in secret.annotations && NamesGroup(secret, a) && !BadGroup(libs, secret, a) :: GroupOf(libs, secret, a)
  }

  /** Destination `d` of variable `varID` comes from this Secret. */
  predicate Contributes(libs: Libs, secret: Secret, varID: string, d: Dest) {
    && GoodAnnotations(libs, secret)
    && d.k8sSecretName == secret.name
    && d.secretName in MapEntries(libs, secret)
    && EntryDest(secret.name, d.secretName, MapEntries(libs, secret)[d.secretName]) == Some((varID, d))
  }

  ghost predicate NamesDistinct(groups: seq<Group>) {
    forall i, j | 0 <= i < j < |groups| :: groups[i].name != groups[j].name
  }

  /** The destinations, index and groups are exactly what the recorded Secrets contribute. */
  ghost predicate Gathered(libs: Libs, originals: Originals, dests: Dests, index: Index, groups: Groups) {
    && (forall s | s in originals ::
          originals[s].name == s && GoodAnnotations(libs, originals[s]) && GoodEntries(s, MapEntries(libs, originals[s])))
    && IndexAgrees(dests, index)
    && (forall v | v in dests :: dests[v] != [] && KeysDistinct(dests[v]))
    && (forall v, d :: Lists(dests, v, d) <==> d.k8sSecretName in originals && Contributes(libs, originals[d.k8sSecretName], v, d))
    && GroupsGathered(libs, originals, groups)
  }

  ghost predicate GroupsGathered(libs: Libs, originals: Originals, groups: Groups) {
    && (forall s | s in groups :: s in originals && groups[s] != [] && Elements(groups[s]) == GroupSet(libs, originals[s]) && NamesDistinct(groups[s]))
    && (forall s | s in originals && GroupSet(libs, originals[s]) != {} :: s in groups)
  }

  /** With agreement on shared keys, appending once adds exactly the new pair. */
  lemma AppendToLists(dests: Dests, varID: string, dest: Dest)
    requires forall v | v in dests :: dests[v] != [] && KeysDistinct(dests[v])
    requires forall d | Lists(dests, varID, d) && KeyOf(d) == KeyOf(dest) :: d == dest
    ensures forall v, d :: Lists(AppendTo(dests, varID, dest), v, d) <==> Lists(dests, v, d) || (v == varID && d == dest)
    ensures forall v | v in AppendTo(dests, varID, dest) :: AppendTo(dests, varID, dest)[v] != [] && KeysDistinct(AppendTo(dests, varID, dest)[v])
  {
    var ds := Listed(dests, varID);
    if Occurs(ds, KeyOf(dest)) {
      var i :| 0 <= i < |ds| && KeyOf(ds[i]) == KeyOf(dest);
      assert ds[i] in ds;
      assert Lists(dests, varID, ds[i]);
    } else {
      assert forall i | 0 <= i < |ds| :: KeyOf(ds[i]) != KeyOf(dest);
      assert forall d :: d in ds + [dest] <==> d in ds || d == dest;
    }
  }

  /** Destinations of Secret `s` already listed agree with these entries. */
  ghost predicate EntriesAgree(dests: Dests, s: string, entries: map<string, Entry>) {
    forall v, d | Lists(dests, v, d) && d.k8sSecretName == s ::
      d.secretName in entries && EntryDest(s, d.secretName, entries[d.secretName]) == Some((v, d))
  }

  /** The pair is what the entries of `s`, restricted to `keys`, stand for. */
  ghost predicate FromEntries(s: string, entries: map<string, Entry>, keys: set<string>, v: string, d: Dest) {
    && d.k8sSecretName == s && d.secretName in entries && d.secretName in keys
    && EntryDest(s, d.secretName, entries[d.secretName]) == Some((v, d))
  }

  ghost predicate ListsWellFormed(dests: Dests, index: Index) {
    && IndexAgrees(dests, index)
    && forall v | v in dests :: dests[v] != [] && KeysDistinct(dests[v])
  }

  /** Whether a Secret is accepted, given whether any group is known once its own are. */
  predicate Accepts(libs: Libs, secret: Secret, allowEmptyConjurMap: bool, anyGroups: bool) {
    var raw := RawMap(secret);
    var yaml := libs.parseConjurMap(raw);
    && GoodAnnotations(libs, secret)
    && (raw == [] || yaml.ok || anyGroups)
    && GoodEntries(secret.name, MapEntries(libs, secret))
    && (MapEntries(libs, secret) != map[] || anyGroups || allowEmptyConjurMap)
  }

  /** Label mode accepts the Secret whatever the others are: annotations and entries are well
      formed, and the conjur-map is absent, empty or readable, or groups make up for it. */
  ghost predicate Admissible(libs: Libs, secret: Secret) {
    && GoodAnnotations(libs, secret)
    && GoodEntries(secret.name, MapEntries(libs, secret))
    && (RawMap(secret) == [] || libs.parseConjurMap(RawMap(secret)).ok || GroupSet(libs, secret) != {})
  }

  /** The Secret has something to say about destinations or groups. */
  ghost predicate IsRelevant(libs: Libs, secret: Secret) {
    Admissible(libs, secret) && (MapEntries(libs, secret) != map[] || GroupSet(libs, secret) != {})
  }

  predicate NoGoodEntry(libs: Libs, secret: Secret) {
    forall k | k in MapEntries(libs, secret) :: EntryDest(secret.name, k, MapEntries(libs, secret)[k]).None?
  }

  /** A malformed entry is met after something of the Secret may have been taken over. */
  ghost predicate FailsHalfWay(libs: Libs, secret: Secret) {
    && GoodAnnotations(libs, secret)
    && !GoodEntries(secret.name, MapEntries(libs, secret))
    && (GroupSet(libs, secret) != {} || !NoGoodEntry(libs, secret))
  }

  /** The group list after a Secret's annotations were processed without error. */
  ghost predicate GroupsAdded(libs: Libs, groups: Groups, secret: Secret, groups': Groups) {
    if GroupSet(libs, secret) == {} then groups' == groups
    else
      && secret.name in groups'
      && groups' == groups[secret.name := groups'[secret.name]]
      && groups'[secret.name] != []
      && Elements(groups'[secret.name]) == GroupSet(libs, secret)
      && NamesDistinct(groups'[secret.name])
  }

  lemma GatheredWith(libs: Libs, originals: Originals, dests: Dests, index: Index, groups: Groups,
                     secret: Secret, dests': Dests, index': Index, groups': Groups)
    requires Gathered(libs, originals, dests, index, groups)
    requires secret.name in originals ==> originals[secret.name] == secret
    requires GoodAnnotations(libs, secret) && GoodEntries(secret.name, MapEntries(libs, secret))
    requires GroupsAdded(libs, groups, secret, groups')
    requires ListsWellFormed(dests', index')
    requires forall v, d :: Lists(dests', v, d) <==>
               (Lists(dests, v, d) || FromEntries(secret.name, MapEntries(libs, secret), MapEntries(libs, secret).Keys, v, d))
    ensures Gathered(libs, originals[secret.name := secret], dests', index', groups')
  {
    var originals' := originals[secret.name := secret];
    forall v, d ensures Lists(dests', v, d) <==> d.k8sSecretName in originals' && Contributes(libs, originals'[d.k8sSecretName], v, d) {
      assert Lists(dests, v, d) <==> d.k8sSecretName in originals && Contributes(libs, originals[d.k8sSecretName], v, d);
    }
    GroupsGatheredWith(libs, originals, groups, secret, groups');
  }

  lemma GroupsGatheredWith(libs: Libs, originals: Originals, groups: Groups, secret: Secret, groups': Groups)
    requires GroupsGathered(libs, originals, groups) && GroupsAdded(libs, groups, secret, groups')
    requires secret.name in originals ==> originals[secret.name] == secret
    ensures GroupsGathered(libs, originals[secret.name := secret], groups')
  {
  }

  // ---- the entries themselves ----

  /** Which entries are malformed, in terms of what they hold. */
  lemma GoodEntriesIff(s: string, entries: map<string, Entry>)
    ensures GoodEntries(s, entries) <==>
            forall k | k in entries :: entries[k] != Other && (entries[k].Mapping? ==> entries[k].varId.Some? && entries[k].varId.value != "")
  {
    forall k | k in entries
      ensures EntryDest(s, k, entries[k]).Some?
              <==> entries[k] != Other && (entries[k].Mapping? ==> entries[k].varId.Some? && entries[k].varId.value != "")
    {
      assert entries[k].Id? || entries[k].Mapping? || entries[k] == Other;
    }
  }

  /** The entries are those of a conjur-map that is there, not empty, and readable. */
  lemma MapEntriesAreParsed(libs: Libs, secret: Secret)
    ensures "conjur-map" in DataOf(secret) && DataOf(secret)["conjur-map"] != [] && libs.parseConjurMap(DataOf(secret)["conjur-map"]).ok
            ==> MapEntries(libs, secret) == libs.parseConjurMap(DataOf(secret)["conjur-map"]).entries
    ensures "conjur-map" !in DataOf(secret) || DataOf(secret)["conjur-map"] == [] || !libs.parseConjurMap(DataOf(secret)["conjur-map"]).ok
            ==> MapEntries(libs, secret) == map[]
  {
  }

  /** A plain id is listed as text under that id, a mapping under its `id`, as base64 if it says
      exactly that. These are all the destinations of the Secret. */
  lemma EntriesAreDestinations(libs: Libs, originals: Originals, dests: Dests, index: Index, groups: Groups, s: string)
    requires Gathered(libs, originals, dests, index, groups) && s in originals
    ensures forall k, id | k in MapEntries(libs, originals[s]) && MapEntries(libs, originals[s])[k] == Id(id) ::
              Lists(dests, id, Dest(s, k, "text"))
    ensures forall k, id, c | k in MapEntries(libs, originals[s]) && MapEntries(libs, originals[s])[k] == Mapping(Some(id), c) ::
              id != "" && Lists(dests, id, Dest(s, k, if c == Some("base64") then "base64" else "text"))
    ensures forall v, d | Lists(dests, v, d) && d.k8sSecretName == s ::
              && d.secretName in MapEntries(libs, originals[s])
              && (d.contentType == "text" || d.contentType == "base64")
              && match MapEntries(libs, originals[s])[d.secretName]
                 case Id(id) => v == id && d.contentType == "text"
                 case Mapping(id, c) => id == Some(v) && (d.contentType == "base64" <==> c == Some("base64"))
                 case Other => false
  {
    var entries := MapEntries(libs, originals[s]);
    forall k, id | k in entries && entries[k] == Id(id) ensures Lists(dests, id, Dest(s, k, "text")) {
      assert Contributes(libs, originals[s], id, Dest(s, k, "text"));
    }
    forall k, id, c | k in entries && entries[k] == Mapping(Some(id), c)
      ensures id != "" && Lists(dests, id, Dest(s, k, if c == Some("base64") then "base64" else "text"))
    {
      assert EntryDest(s, k, entries[k]).Some?;
      assert Contributes(libs, originals[s], id, Dest(s, k, if c == Some("base64") then "base64" else "text"));
    }
    forall v, d | Lists(dests, v, d) && d.k8sSecretName == s ensures Contributes(libs, originals[s], v, d) {
    }
  }
}
