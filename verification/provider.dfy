/** The provider of Kubernetes Secrets mode, and the cluster it writes to. */
module Provider {
  import opened Kube
  import opened Checksum
  import opened Destinations
  import opened SecretData
  import opened Gather
  import opened Commit
  import opened K8sClient
  import opened RunSpec
  import opened Removal
  import Monitor

  class K8sProvider {
    const libs: Libs
    const requiredK8sSecrets: seq<string>
    const sanitizeEnabled: bool
    var originalK8sSecrets: Originals
    var updateDestinations: Dests
    var updateDestinationLookup: Index
    var secretsGroups: Groups
    var prevSecretsChecksums: Cache

    constructor (libs: Libs, requiredK8sSecrets: seq<string>, sanitizeEnabled: bool)
      ensures this.libs == libs && this.requiredK8sSecrets == requiredK8sSecrets && this.sanitizeEnabled == sanitizeEnabled
      ensures Cleared() && prevSecretsChecksums == map[]
    {
      this.libs := libs;
      this.requiredK8sSecrets := requiredK8sSecrets;
      this.sanitizeEnabled := sanitizeEnabled;
      originalK8sSecrets, updateDestinations, updateDestinationLookup, secretsGroups := map[], map[], map[], map[];
      prevSecretsChecksums := map[];
    }

    /** No trace of a run is left. */
    ghost predicate Cleared()
      reads this
    {
      originalK8sSecrets == map[] && updateDestinations == map[] && updateDestinationLookup == map[] && secretsGroups == map[]
    }

    ghost predicate Consistent()
      reads this
    {
      Gathered(libs, originalK8sSecrets, updateDestinations, updateDestinationLookup, secretsGroups)
    }

    /** What the mutex protects, as the monitor sees it. */
    ghost function Now(): Monitor.Shared
      reads this
    {
      Monitor.Shared(originalK8sSecrets, updateDestinations, updateDestinationLookup, secretsGroups)
    }

    ghost predicate HasRecorded(secret: Secret)
      reads this
    {
      secret.name in originalK8sSecrets && originalK8sSecrets[secret.name] == secret
    }

    // ---- destinations ----

    /** The index decides in one lookup what the linear search would. */
    method AppendDestination(varID: string, dest: Dest)
      modifies this`updateDestinations, this`updateDestinationLookup
      ensures (updateDestinations, updateDestinationLookup) == FastAppend(old(updateDestinations), old(updateDestinationLookup), varID, dest)
      ensures old(IndexAgrees(updateDestinations, updateDestinationLookup)) ==>
                updateDestinations == AppendTo(old(updateDestinations), varID, dest) && IndexAgrees(updateDestinations, updateDestinationLookup)
    {
      if IndexAgrees(updateDestinations, updateDestinationLookup) {
        FastAppendIsLinear(updateDestinations, updateDestinationLookup, varID, dest);
      }
      if varID !in updateDestinationLookup {
        updateDestinationLookup := updateDestinationLookup[varID := {}];
      }
      var key := KeyOf(dest);
      if key in updateDestinationLookup[varID] {
        return;
      }
      updateDestinationLookup := updateDestinationLookup[varID := updateDestinationLookup[varID] + {key}];
      updateDestinations := updateDestinations[varID := Listed(updateDestinations, varID) + [dest]];
      ghost var index := old(updateDestinationLookup);
      assert varID !in index ==> index[varID := {}][varID := {} + {key}] == index[varID := {} + {key}];
    }

    static method PutOne(libs: Libs, data: NewData, varID: string, raw: Bytes, dest: Dest) returns (r: NewData)
      requires forall s | s in data :: data[s] != map[]
      ensures forall s, k :: At(r, s, k) == Put(libs, dest, varID, raw, s, k, At(data, s, k))
      ensures forall s | s in r :: r[s] != map[]
      ensures r.Keys == data.Keys + {dest.k8sSecretName}
    {
      var name := dest.k8sSecretName;
      r := data;
      if name !in r {
        r := r[name := map[]];
      }
      var secretName := dest.secretName;
      if secretName == "*" {
        secretName := NormalizeK8sSecretName(varID);
        if secretName in r[name] {
          return;
        }
      }
      r := r[name := r[name][secretName := ValueFor(libs, dest, raw)]];
      assert secretName in r[name];
    }

    /** Every existing key without a value, but the conjur-map, is blanked. */
    method WipeExisting(data: NewData, ghost conjur: Data, ghost varID: string, dest: Dest) returns (r: NewData)
      requires forall s | s in data :: data[s] != map[]
      requires dest.k8sSecretName in originalK8sSecrets && dest.secretName == "*"
      requires dest.k8sSecretName in data || NothingToWipe(originalK8sSecrets[dest.k8sSecretName])
      ensures forall s, k :: At(r, s, k) == Blank(originalK8sSecrets, conjur, varID, dest, s, k, At(data, s, k))
      ensures forall s | s in r :: r[s] != map[]
      ensures r.Keys == data.Keys
    {
      var name := dest.k8sSecretName;
      r := data;
      var existing := DataOf(originalK8sSecrets[name]).Keys;
      var rest := existing;
      while rest != {}
        invariant rest <= existing
        invariant r.Keys == data.Keys
        invariant forall s | s in r :: r[s] != map[]
        invariant forall s, k :: At(r, s, k) ==
                    if s == name && k in existing && k !in rest && k != CONJUR_MAP_KEY && At(data, s, k).None? then Some([]) else At(data, s, k)
        decreases |rest|
      {
        var key :| key in rest;
        rest := rest - {key};
        if key != CONJUR_MAP_KEY && key !in r[name] {
          r := r[name := r[name][key := []]];
          assert key in r[name];
        }
      }
    }

    method BlankOne(data: NewData, conjur: Data, varID: string, dest: Dest) returns (r: NewData)
      requires forall s | s in data :: data[s] != map[]
      requires dest.k8sSecretName in originalK8sSecrets
      requires dest.secretName == "*" ==> dest.k8sSecretName in data || NothingToWipe(originalK8sSecrets[dest.k8sSecretName])
      ensures forall s, k :: At(r, s, k) == Blank(originalK8sSecrets, conjur, varID, dest, s, k, At(data, s, k))
      ensures forall s | s in r :: r[s] != map[]
      ensures data.Keys <= r.Keys <= data.Keys + {dest.k8sSecretName}
    {
      if dest.secretName == "*" {
        r := WipeExisting(data, conjur, varID, dest);
        return;
      }
      r := data;
      if varID !in conjur {
        r := SetSlot(r, dest.k8sSecretName, dest.secretName, []);
      }
    }

    ghost predicate Safe(conjur: Data)
      reads this
    {
      SanitizeSafe(sanitizeEnabled, originalK8sSecrets, updateDestinations, conjur)
    }

    method CreateSecretData(conjur: Data) returns (data: NewData, ghost order: seq<string>)
      requires Safe(conjur)
      ensures IsOrder(order, conjur.Keys)
      ensures forall s, k :: At(data, s, k) == CreateAt(libs, sanitizeEnabled, originalK8sSecrets, updateDestinations, conjur, order, s, k)
      ensures forall s | s in data :: data[s] != map[]
      ensures data.Keys <= originalK8sSecrets.Keys
    {
      data, order := FillFetched(conjur);
      if sanitizeEnabled {
        data := Sanitize(conjur, data, order);
      }
    }

    method FillFetched(conjur: Data) returns (data: NewData, ghost order: seq<string>)
      requires forall v, d | Lists(updateDestinations, v, d) :: d.k8sSecretName in originalK8sSecrets
      ensures IsOrder(order, conjur.Keys)
      ensures forall s, k :: At(data, s, k) == Written(libs, updateDestinations, conjur, order, s, k)
      ensures forall s | s in data :: data[s] != map[]
      ensures data.Keys <= originalK8sSecrets.Keys
      ensures forall v, d | v in conjur && d in Served(updateDestinations, v) :: d.k8sSecretName in data
    {
      data, order := map[], [];
      var rest := conjur.Keys;
      while rest != {}
        invariant rest <= conjur.Keys
        invariant IsOrder(order, conjur.Keys - rest)
        invariant forall s, k :: At(data, s, k) == Written(libs, updateDestinations, conjur, order, s, k)
        invariant forall s | s in data :: data[s] != map[]
        invariant data.Keys <= originalK8sSecrets.Keys
        invariant forall v, d | v in order && d in Served(updateDestinations, v) :: d.k8sSecretName in data
        decreases |rest|
      {
        var varID :| varID in rest;
        rest := rest - {varID};
        ghost var before := data;
        data := FillFromVariable(varID, conjur[varID], data);
        ghost var longer := order + [varID];
        assert longer[..|longer| - 1] == order;
        order := longer;
      }
    }

    /** All destinations of one fetched variable. */
    method FillFromVariable(varID: string, raw: Bytes, data: NewData) returns (r: NewData)
      requires forall v, d | Lists(updateDestinations, v, d) :: d.k8sSecretName in originalK8sSecrets
      requires forall s | s in data :: data[s] != map[]
      requires data.Keys <= originalK8sSecrets.Keys
      ensures forall s, k :: At(r, s, k) == PutAll(libs, Served(updateDestinations, varID), varID, raw, s, k, At(data, s, k))
      ensures forall s | s in r :: r[s] != map[]
      ensures data.Keys <= r.Keys <= originalK8sSecrets.Keys
      ensures forall d | d in Served(updateDestinations, varID) :: d.k8sSecretName in r
    {
      r := data;
      var dests := Served(updateDestinations, varID);
      forall d | d in dests ensures d.k8sSecretName in originalK8sSecrets {
        assert Lists(updateDestinations, varID, d) || Lists(updateDestinations, "*", d);
      }
      for i := 0 to |dests|
        invariant forall s, k :: At(r, s, k) == PutAll(libs, dests[..i], varID, raw, s, k, At(data, s, k))
        invariant forall s | s in r :: r[s] != map[]
        invariant data.Keys <= r.Keys <= originalK8sSecrets.Keys
        invariant forall j | 0 <= j < i :: dests[j].k8sSecretName in r
      {
        assert dests[i] in dests;
        r := PutOne(libs, r, varID, raw, dests[i]);
        forall s, k ensures At(r, s, k) == PutAll(libs, dests[..i + 1], varID, raw, s, k, At(data, s, k)) {
          PutAllStep(libs, dests, i, varID, raw, s, k, At(data, s, k));
        }
      }
      assert dests[..|dests|] == dests;
    }

    method Sanitize(conjur: Data, data: NewData, ghost order: seq<string>) returns (r: NewData)
      requires sanitizeEnabled && Safe(conjur) && IsOrder(order, conjur.Keys)
      requires forall s, k :: At(data, s, k) == Written(libs, updateDestinations, conjur, order, s, k)
      requires forall s | s in data :: data[s] != map[]
      requires data.Keys <= originalK8sSecrets.Keys
      requires forall v, d | v in conjur && d in Served(updateDestinations, v) :: d.k8sSecretName in data
      ensures forall s, k :: At(r, s, k) == CreateAt(libs, true, originalK8sSecrets, updateDestinations, conjur, order, s, k)
      ensures forall s | s in r :: r[s] != map[]
      ensures r.Keys <= originalK8sSecrets.Keys
    {
      r := data;
      ghost var pairs: seq<(string, Dest)> := [];
      var rest := updateDestinations.Keys;
      while rest != {}
        invariant rest <= updateDestinations.Keys
        invariant forall v, d :: (v, d) in pairs <==> v !in rest && Lists(updateDestinations, v, d)
        invariant forall s, k :: At(r, s, k) == BlankAll(originalK8sSecrets, conjur, pairs, s, k, At(data, s, k))
        invariant forall s | s in r :: r[s] != map[]
        invariant data.Keys <= r.Keys <= originalK8sSecrets.Keys
        decreases |rest|
      {
        var varID :| varID in rest;
        r, pairs := SanitizeVariable(conjur, data, varID, r, pairs);
        rest := rest - {varID};
      }
      forall s, k ensures At(r, s, k) == CreateAt(libs, true, originalK8sSecrets, updateDestinations, conjur, order, s, k) {
        BlankedIsCreated(libs, originalK8sSecrets, updateDestinations, conjur, order, pairs, s, k);
      }
    }

    method SanitizeVariable(conjur: Data, ghost data: NewData, varID: string, r0: NewData, ghost pairs0: seq<(string, Dest)>)
      returns (r: NewData, ghost pairs: seq<(string, Dest)>)
      requires sanitizeEnabled && Safe(conjur) && varID in updateDestinations
      requires forall s, k :: At(r0, s, k) == BlankAll(originalK8sSecrets, conjur, pairs0, s, k, At(data, s, k))
      requires forall s | s in r0 :: r0[s] != map[]
      requires data.Keys <= r0.Keys <= originalK8sSecrets.Keys
      requires forall v, d | v in conjur && d in Served(updateDestinations, v) :: d.k8sSecretName in data
      ensures forall s, k :: At(r, s, k) == BlankAll(originalK8sSecrets, conjur, pairs, s, k, At(data, s, k))
      ensures forall s | s in r :: r[s] != map[]
      ensures data.Keys <= r.Keys <= originalK8sSecrets.Keys
      ensures forall v, d :: (v, d) in pairs <==> (v, d) in pairs0 || (v == varID && d in updateDestinations[varID])
    {
      r, pairs := r0, pairs0;
      var dests := updateDestinations[varID];
      for i := 0 to |dests|
        invariant forall s, k :: At(r, s, k) == BlankAll(originalK8sSecrets, conjur, pairs, s, k, At(data, s, k))
        invariant forall s | s in r :: r[s] != map[]
        invariant data.Keys <= r.Keys <= originalK8sSecrets.Keys
        invariant forall v, d :: (v, d) in pairs <==> (v, d) in pairs0 || (v == varID && d in dests[..i])
      {
        assert Lists(updateDestinations, varID, dests[i]);
        r := BlankOne(r, conjur, varID, dests[i]);
        ghost var longer := pairs + [(varID, dests[i])];
        assert longer[..|longer| - 1] == pairs && longer[|longer| - 1] == (varID, dests[i]);
        pairs := longer;
        assert dests[..i + 1] == dests[..i] + [dests[i]];
      }
      assert dests[..|dests|] == dests;
    }

    // ---- secret groups ----

    static method AddGroupValue(byName: map<string, seq<TemplateSecret>>, name: string, value: TemplateSecret)
      returns (r: map<string, seq<TemplateSecret>>)
      requires forall g | g in byName :: byName[g] != []
      ensures forall g | g in r :: r[g] != []
      ensures SecretsUnder(r, name) == SecretsUnder(byName, name) + [value]
      ensures forall g | g != name :: SecretsUnder(r, g) == SecretsUnder(byName, g)
    {
      r := byName[name := SecretsUnder(byName, name) + [value]];
    }

    /** Appends a group's values under its name. */
    static method AddGroupValues(conjur: Data, byName: map<string, seq<TemplateSecret>>, name: string, specs: seq<SecretSpec>)
      returns (r: map<string, seq<TemplateSecret>>)
      requires forall g | g in byName :: byName[g] != []
      ensures forall g | g in r :: r[g] != []
      ensures forall g :: SecretsUnder(r, g) == SecretsUnder(byName, g) + (if g == name then SpecValues(conjur, specs) else [])
    {
      r := byName;
      for j := 0 to |specs|
        invariant forall g | g in r :: r[g] != []
        invariant forall g | g != name :: SecretsUnder(r, g) == SecretsUnder(byName, g)
        invariant SecretsUnder(r, name) == SecretsUnder(byName, name) + SpecValues(conjur, specs[..j])
      {
        var value := TemplateSecret(specs[j].alias, Lookup(conjur, specs[j].path));
        SpecValuesStep(conjur, specs, j);
        Associate(SecretsUnder(byName, name), SpecValues(conjur, specs[..j]), [value]);
        r := AddGroupValue(r, name, value);
      }
      assert specs[..|specs|] == specs;
    }

    static method GatherGroupSecrets(conjur: Data, groups: seq<Group>) returns (byName: map<string, seq<TemplateSecret>>)
      ensures forall g | g in byName :: byName[g] != []
      ensures forall g :: SecretsUnder(byName, g) == GroupSecrets(conjur, groups, g)
    {
      byName := map[];
      for i := 0 to |groups|
        invariant forall g | g in byName :: byName[g] != []
        invariant forall g :: SecretsUnder(byName, g) == GroupSecrets(conjur, groups[..i], g)
      {
        assert groups[..i + 1][..i] == groups[..i];
        byName := AddGroupValues(conjur, byName, groups[i].name, groups[i].specs);
      }
      assert groups[..|groups|] == groups;
    }

    method PopulateGroupTemplateSecretData(conjur: Data, data: NewData) returns (r: NewData)
      requires forall s | s in data :: data[s] != map[]
      requires data.Keys <= originalK8sSecrets.Keys
      ensures forall s, k | RenderedAt(libs, originalK8sSecrets, secretsGroups, conjur, s, k).Some? ::
                At(r, s, k) == RenderedAt(libs, originalK8sSecrets, secretsGroups, conjur, s, k)
      ensures forall s, k | RenderedAt(libs, originalK8sSecrets, secretsGroups, conjur, s, k).None? :: At(r, s, k) == At(data, s, k)
      ensures forall s | s in r :: r[s] != map[]
      ensures r.Keys <= originalK8sSecrets.Keys
    {
      r := data;
      var rest := secretsGroups.Keys;
      while rest != {}
        invariant rest <= secretsGroups.Keys
        invariant forall s, k | s !in rest && RenderedAt(libs, originalK8sSecrets, secretsGroups, conjur, s, k).Some? ::
                    At(r, s, k) == RenderedAt(libs, originalK8sSecrets, secretsGroups, conjur, s, k)
        invariant forall s, k | s in rest || RenderedAt(libs, originalK8sSecrets, secretsGroups, conjur, s, k).None? :: At(r, s, k) == At(data, s, k)
        invariant forall s | s in r :: r[s] != map[]
        invariant r.Keys <= originalK8sSecrets.Keys
        decreases |rest|
      {
        var name :| name in rest;
        r := RenderGroups(conjur, name, r);
        rest := rest - {name};
      }
    }

    method RenderGroups(conjur: Data, name: string, data: NewData) returns (r: NewData)
      requires name in secretsGroups
      requires forall s | s in data :: data[s] != map[]
      requires data.Keys <= originalK8sSecrets.Keys
      ensures forall s, k | s == name && RenderedAt(libs, originalK8sSecrets, secretsGroups, conjur, s, k).Some? ::
                At(r, s, k) == RenderedAt(libs, originalK8sSecrets, secretsGroups, conjur, s, k)
      ensures forall s, k | s != name || RenderedAt(libs, originalK8sSecrets, secretsGroups, conjur, s, k).None? :: At(r, s, k) == At(data, s, k)
      ensures forall s | s in r :: r[s] != map[]
      ensures r.Keys <= originalK8sSecrets.Keys
    {
      r := data;
      var byName := GatherGroupSecrets(conjur, secretsGroups[name]);
      if name !in originalK8sSecrets {
        return;
      }
      var original := originalK8sSecrets[name];
      var rest := byName.Keys;
      assert forall k :: RenderedAt(libs, originalK8sSecrets, secretsGroups, conjur, name, k) == RenderNamed(original, byName, k) by {
        assert forall k :: SecretsUnder(byName, k) == GroupSecrets(conjur, secretsGroups[name], k);
      }
      while rest != {}
        invariant rest <= byName.Keys
        invariant forall s, k | s != name || k in rest || RenderNamed(original, byName, k).None? :: At(r, s, k) == At(data, s, k)
        invariant forall k | k !in rest && RenderNamed(original, byName, k).Some? :: At(r, name, k) == RenderNamed(original, byName, k)
        invariant forall s | s in r :: r[s] != map[]
        invariant r.Keys <= originalK8sSecrets.Keys
        decreases |rest|
      {
        var group :| group in rest;
        rest := rest - {group};
        var content := RenderNamed(original, byName, group);
        if content.Some? {
          r := SetSlot(r, name, group, content.value);
        }
      }
    }

    function RenderNamed(original: Secret, byName: map<string, seq<TemplateSecret>>, group: string): Option<Bytes> {
      if group in byName then libs.render(group, TemplateOf(original, group), byName[group]) else None
    }

    /** Stores a value, creating the Secret's map of entries on first use. */
    static method SetSlot(data: NewData, s: string, k: string, value: Bytes) returns (r: NewData)
      requires forall s | s in data :: data[s] != map[]
      ensures At(r, s, k) == Some(value)
      ensures forall s', k' | s' != s || k' != k :: At(r, s', k') == At(data, s', k')
      ensures forall s | s in r :: r[s] != map[]
      ensures r.Keys == data.Keys + {s}
    {
      r := data;
      if s !in r {
        r := r[s := map[]];
      }
      r := r[s := r[s][k := value]];
      assert k in r[s];
    }

    // ---- what to fetch ----

    static method AddSpecPaths(ids: seq<string>, specs: seq<SecretSpec>) returns (r: seq<string>)
      requires NoDup(ids)
      ensures NoDup(r)
      ensures forall id :: id in r <==> id in ids || SpecsWant(specs, id)
    {
      r := ids;
      for i := 0 to |specs|
        invariant NoDup(r)
        invariant forall id :: id in r <==> id in ids || SpecsWant(specs[..i], id)
      {
        assert specs[..i + 1] == specs[..i] + [specs[i]];
        if specs[i].path !in r {
          r := r + [specs[i].path];
        }
      }
      assert specs[..|specs|] == specs;
    }

    static method AddGroupPaths(ids: seq<string>, groups: seq<Group>) returns (r: seq<string>)
      requires NoDup(ids)
      ensures NoDup(r)
      ensures forall id :: id in r <==> id in ids || GroupsWant(groups, id)
    {
      r := ids;
      for i := 0 to |groups|
        invariant NoDup(r)
        invariant forall id :: id in r <==> id in ids || GroupsWant(groups[..i], id)
      {
        assert groups[..i + 1] == groups[..i] + [groups[i]];
        r := AddSpecPaths(r, groups[i].specs);
      }
      assert groups[..|groups|] == groups;
    }

    /** The variables with destinations, in map order; None as soon as `*` turns up. */
    method DestinationIds() returns (ids: Option<seq<string>>)
      ensures ids.None? <==> "*" in updateDestinations
      ensures ids.Some? ==> IsOrder(ids.value, updateDestinations.Keys)
    {
      var list: seq<string> := [];
      var rest := updateDestinations.Keys;
      while rest != {}
        invariant rest <= updateDestinations.Keys
        invariant IsOrder(list, updateDestinations.Keys - rest)
        invariant "*" !in list
        decreases |rest|
      {
        var id :| id in rest;
        if id == "*" {
          return None;
        }
        assert forall i | 0 <= i < |list| :: list[i] in list;
        list, rest := list + [id], rest - {id};
      }
      return Some(list);
    }

    method AddAllGroupPaths(ids: seq<string>) returns (r: seq<string>)
      requires IsOrder(ids, updateDestinations.Keys)
      ensures NoDup(r) && forall id :: id in r <==> Wants(updateDestinations, secretsGroups, id)
    {
      r := ids;
      var names := secretsGroups.Keys;
      while names != {}
        invariant names <= secretsGroups.Keys
        invariant NoDup(r)
        invariant forall id :: id in r <==> id in updateDestinations || exists s :: s in secretsGroups && s !in names && GroupsWant(secretsGroups[s], id)
        decreases |names|
      {
        var name :| name in names;
        r := AddGroupPaths(r, secretsGroups[name]);
        names := names - {name};
      }
    }

    /** None is the error of having something configured and nothing to ask for. */
    method ListConjurSecretsToFetch() returns (ids: Option<seq<string>>)
      ensures ids.None? <==> (updateDestinations != map[] || secretsGroups != map[]) && forall id :: !Wants(updateDestinations, secretsGroups, id)
      ensures ids.Some? ==> IsFetchList(ids.value, updateDestinations, secretsGroups)
    {
      if updateDestinations == map[] && secretsGroups == map[] {
        return Some([]);
      }
      var dests := DestinationIds();
      if dests.None? {
        assert Wants(updateDestinations, secretsGroups, "*");
        return Some(["*"]);
      }
      var list := AddAllGroupPaths(dests.value);
      if list == [] {
        assert forall id :: id !in list;
        return None;
      }
      assert list[0] in list && Wants(updateDestinations, secretsGroups, list[0]);
      return Some(list);
    }

    // ---- gathering the Secrets ----

    method ProcessSecretGroupAnnotations(secret: Secret) returns (ok: bool)
      requires HasRecorded(secret)
      modifies this`secretsGroups
      ensures Monitor.Reaches(libs, old(Now()), Now())
      ensures ok <==> GoodAnnotations(libs, secret)
      ensures if ok then GroupsAdded(libs, old(secretsGroups), secret, secretsGroups) else secretsGroups == old(secretsGroups)
    {
      var groups: seq<Group> := [];
      var rest := secret.annotations.Keys;
      while rest != {}
        invariant rest <= secret.annotations.Keys
        invariant forall a | a in secret.annotations && a !in rest :: !BadGroup(libs, secret, a)
        invariant forall g | g in groups ::
                    var a := SECRET_GROUP_PREFIX + g.name; a !in rest && NamesGroup(secret, a) && !BadGroup(libs, secret, a) && g == GroupOf(libs, secret, a)
        invariant forall a | a !in rest && NamesGroup(secret, a) :: !BadGroup(libs, secret, a) && GroupOf(libs, secret, a) in groups
        invariant NamesDistinct(groups)
        decreases |rest|
      {
        var annotation :| annotation in rest;
        rest := rest - {annotation};
        if NamesGroup(secret, annotation) {
          var groupName := annotation[|SECRET_GROUP_PREFIX|..];
          assert annotation == SECRET_GROUP_PREFIX + groupName;
          var specs := libs.parseSpecs(secret.annotations[annotation]);
          if specs.None? || specs.value == [] {
            assert BadGroup(libs, secret, annotation);
            Monitor.ReachesItself(libs, Now());
            return false;
          }
          forall i | 0 <= i < |groups| ensures groups[i].name != groupName {
            assert groups[i] in groups;
          }
          groups := groups + [Group(groupName, specs.value)];
        }
      }
      GroupsComplete(libs, secret, groups);
      Monitor.ReachesItself(libs, Now());
      if groups != [] {
        Monitor.ReachesOneMore(libs, Now(), Now(), Monitor.AddGroups(secret, groups));
        secretsGroups := secretsGroups[secret.name := groups];
        assert groups[0] in Elements(groups);
      }
      return true;
    }

    static lemma GroupsComplete(libs: Libs, secret: Secret, groups: seq<Group>)
      requires forall g | g in groups ::
                 var a := SECRET_GROUP_PREFIX + g.name; NamesGroup(secret, a) && !BadGroup(libs, secret, a) && g == GroupOf(libs, secret, a)
      requires forall a | NamesGroup(secret, a) :: !BadGroup(libs, secret, a) && GroupOf(libs, secret, a) in groups
      ensures Elements(groups) == GroupSet(libs, secret)
    {
    }

    method RefreshUpdateDestinations(entries: map<string, Entry>, s: string, ghost secret: Secret) returns (ok: bool)
      requires ListsWellFormed(updateDestinations, updateDestinationLookup)
      requires EntriesAgree(updateDestinations, s, entries)
      requires HasRecorded(secret) && secret.name == s && entries == MapEntries(libs, secret) && GoodAnnotations(libs, secret)
      modifies this`updateDestinations, this`updateDestinationLookup
      ensures ok <==> GoodEntries(s, entries)
      ensures ListsWellFormed(updateDestinations, updateDestinationLookup)
      ensures ok ==> forall v, d :: Lists(updateDestinations, v, d) <==>
                       (Lists(old(updateDestinations), v, d) || FromEntries(s, entries, entries.Keys, v, d))
      ensures (forall k | k in entries :: EntryDest(s, k, entries[k]).None?) ==>
                updateDestinations == old(updateDestinations) && updateDestinationLookup == old(updateDestinationLookup)
      ensures Monitor.Reaches(libs, old(Now()), Now())
    {
      var rest := entries.Keys;
      Monitor.ReachesItself(libs, Now());
      while rest != {}
        invariant rest <= entries.Keys
        invariant ListsWellFormed(updateDestinations, updateDestinationLookup)
        invariant forall k | k in entries && k !in rest :: EntryDest(s, k, entries[k]).Some?
        invariant EntriesAgree(updateDestinations, s, entries)
        invariant forall v, d :: Lists(updateDestinations, v, d) <==>
                    (Lists(old(updateDestinations), v, d) || FromEntries(s, entries, entries.Keys - rest, v, d))
        invariant rest == entries.Keys ==> updateDestinations == old(updateDestinations) && updateDestinationLookup == old(updateDestinationLookup)
        invariant Monitor.Reaches(libs, old(Now()), Now())
        decreases |rest|
      {
        var secretName :| secretName in rest;
        var target := EntryDest(s, secretName, entries[secretName]);
        if target.None? {
          return false;
        }
        rest := rest - {secretName};
        AppendOne(s, target.value.0, target.value.1, secret);
      }
      return true;
    }

    /** One destination of a recorded Secret. */
    method AppendOne(s: string, varID: string, dest: Dest, ghost secret: Secret)
      requires ListsWellFormed(updateDestinations, updateDestinationLookup)
      requires forall d | Lists(updateDestinations, varID, d) && KeyOf(d) == KeyOf(dest) :: d == dest
      requires HasRecorded(secret) && secret.name == s && Contributes(libs, secret, varID, dest)
      modifies this`updateDestinations, this`updateDestinationLookup
      ensures ListsWellFormed(updateDestinations, updateDestinationLookup)
      ensures forall v, d :: Lists(updateDestinations, v, d) <==> Lists(old(updateDestinations), v, d) || (v == varID && d == dest)
      ensures forall start :: Monitor.Reaches(libs, start, old(Now())) ==> Monitor.Reaches(libs, start, Now())
    {
      AppendToLists(updateDestinations, varID, dest);
      forall start | Monitor.Reaches(libs, start, Now())
        ensures Monitor.Reaches(libs, start, Monitor.Perform(Now(), Monitor.Action.Append(secret, varID, dest)))
      {
        Monitor.ReachesOneMore(libs, start, Now(), Monitor.Action.Append(secret, varID, dest));
      }
      AppendDestination(varID, dest);
      assert Now() == Monitor.Perform(old(Now()), Monitor.Action.Append(secret, varID, dest));
    }

    /** An unreadable conjur-map is an error only while no group is known; an absent or empty one
      is none. */
    method ParseConjurSecretsYAML(secret: Secret) returns (hasValidConjurMap: bool, ok: bool)
      requires ListsWellFormed(updateDestinations, updateDestinationLookup)
      requires EntriesAgree(updateDestinations, secret.name, MapEntries(libs, secret))
      requires HasRecorded(secret) && GoodAnnotations(libs, secret)
      modifies this`updateDestinations, this`updateDestinationLookup
      ensures ok <==> (RawMap(secret) == [] || libs.parseConjurMap(RawMap(secret)).ok || secretsGroups != map[]) &&
                      GoodEntries(secret.name, MapEntries(libs, secret))
      ensures hasValidConjurMap <==> ok && MapEntries(libs, secret) != map[]
      ensures ListsWellFormed(updateDestinations, updateDestinationLookup)
      ensures ok ==> forall v, d :: Lists(updateDestinations, v, d) <==>
                       (Lists(old(updateDestinations), v, d) || FromEntries(secret.name, MapEntries(libs, secret), MapEntries(libs, secret).Keys, v, d))
      ensures NoGoodEntry(libs, secret) ==>
                updateDestinations == old(updateDestinations) && updateDestinationLookup == old(updateDestinationLookup)
      ensures Monitor.Reaches(libs, old(Now()), Now())
    {
      Monitor.ReachesItself(libs, Now());
      var raw := RawMap(secret);
      if raw == [] {
        return false, true;
      }
      var yaml := libs.parseConjurMap(raw);
      if !yaml.ok {
        return false, secretsGroups != map[];
      }
      if yaml.entries == map[] {
        return false, true;
      }
      ok := RefreshUpdateDestinations(yaml.entries, secret.name, secret);
      return ok, ok;
    }

    /** The Secret is recorded, and its groups if its annotations are good. */
    method RecordAndAnnotate(secret: Secret) returns (ok: bool)
      modifies this`originalK8sSecrets, this`secretsGroups
      ensures originalK8sSecrets == old(originalK8sSecrets)[secret.name := secret]
      ensures ok <==> GoodAnnotations(libs, secret)
      ensures if ok then GroupsAdded(libs, old(secretsGroups), secret, secretsGroups) else secretsGroups == old(secretsGroups)
      ensures Monitor.Reaches(libs, old(Now()), Now())
    {
      ghost var start := Now();
      Monitor.ReachesItself(libs, start);
      Monitor.ReachesOneMore(libs, start, start, Monitor.Fetch(secret));
      originalK8sSecrets := originalK8sSecrets[secret.name := secret];
      ghost var fetched := Now();
      ok := ProcessSecretGroupAnnotations(secret);
      Monitor.ReachesThrough(libs, start, fetched, Now());
    }

    /** In label mode a refused Secret leaves no destination or group behind unless it failed
        half-way. Every path is one of actions the monitor allows. */
    method RetrieveRequiredK8sSecret(secret: Secret, allowEmptyConjurMap: bool) returns (ok: bool)
      requires Consistent()
      requires secret.name in originalK8sSecrets ==> originalK8sSecrets[secret.name] == secret
      modifies this`originalK8sSecrets, this`updateDestinations, this`updateDestinationLookup, this`secretsGroups
      ensures ok <==> Accepts(libs, secret, allowEmptyConjurMap, old(secretsGroups) != map[] || GroupSet(libs, secret) != {})
      ensures originalK8sSecrets == old(originalK8sSecrets)[secret.name := secret]
      ensures ok ==> Consistent()
      ensures !ok && allowEmptyConjurMap ==> !Admissible(libs, secret)
      ensures !ok && allowEmptyConjurMap && !FailsHalfWay(libs, secret) ==>
                && updateDestinations == old(updateDestinations) && updateDestinationLookup == old(updateDestinationLookup)
                && secretsGroups == old(secretsGroups)
      ensures Monitor.Reaches(libs, old(Now()), Now())
    {
      ok := TakeOver(secret, allowEmptyConjurMap);
      AcceptedByGroups(libs, secret, old(secretsGroups), secretsGroups, allowEmptyConjurMap);
      if !ok && allowEmptyConjurMap {
        RefusedLeavesNothing(libs, secret, old(secretsGroups), secretsGroups);
      }
    }

    static lemma AcceptedByGroups(libs: Libs, secret: Secret, groups: Groups, groups': Groups, allowEmptyConjurMap: bool)
      requires if GoodAnnotations(libs, secret) then GroupsAdded(libs, groups, secret, groups') else groups' == groups
      ensures Accepts(libs, secret, allowEmptyConjurMap, groups' != map[])
              <==> Accepts(libs, secret, allowEmptyConjurMap, groups != map[] || GroupSet(libs, secret) != {})
    {
    }

    static lemma RefusedLeavesNothing(libs: Libs, secret: Secret, groups: Groups, groups': Groups)
      requires if GoodAnnotations(libs, secret) then GroupsAdded(libs, groups, secret, groups') else groups' == groups
      requires !Accepts(libs, secret, true, groups' != map[])
      ensures !Admissible(libs, secret)
      ensures !FailsHalfWay(libs, secret) ==> groups' == groups && (!GoodAnnotations(libs, secret) || NoGoodEntry(libs, secret))
    {
    }

    method TakeOver(secret: Secret, allowEmptyConjurMap: bool) returns (ok: bool)
      requires Consistent()
      requires secret.name in originalK8sSecrets ==> originalK8sSecrets[secret.name] == secret
      modifies this`originalK8sSecrets, this`updateDestinations, this`updateDestinationLookup, this`secretsGroups
      ensures ok <==> Accepts(libs, secret, allowEmptyConjurMap, secretsGroups != map[])
      ensures originalK8sSecrets == old(originalK8sSecrets)[secret.name := secret]
      ensures ok ==> Consistent()
      ensures if GoodAnnotations(libs, secret) then GroupsAdded(libs, old(secretsGroups), secret, secretsGroups) else secretsGroups == old(secretsGroups)
      ensures !GoodAnnotations(libs, secret) || NoGoodEntry(libs, secret) ==>
                updateDestinations == old(updateDestinations) && updateDestinationLookup == old(updateDestinationLookup)
      ensures Monitor.Reaches(libs, old(Now()), Now())
    {
      ghost var start := Now();
      ok := RecordAndAnnotate(secret);
      ghost var annotated := Now();
      if !ok {
        return;
      }
      OwnEntriesAgree(secret, start.originals, MapEntries(libs, secret));
      var hasValidConjurMap;
      hasValidConjurMap, ok := ParseConjurSecretsYAML(secret);
      Monitor.ReachesThrough(libs, start, annotated, Now());
      if !ok {
        return;
      }
      if !hasValidConjurMap && secretsGroups == map[] && !allowEmptyConjurMap {
        return false;
      }
      TakenOver(secret, start);
      return true;
    }

    /** Everything an accepted Secret contributes has been added. */
    lemma TakenOver(secret: Secret, start: Monitor.Shared)
      requires Gathered(libs, start.originals, start.dests, start.index, start.groups)
      requires secret.name in start.originals ==> start.originals[secret.name] == secret
      requires originalK8sSecrets == start.originals[secret.name := secret]
      requires GoodAnnotations(libs, secret) && GoodEntries(secret.name, MapEntries(libs, secret))
      requires GroupsAdded(libs, start.groups, secret, secretsGroups)
      requires ListsWellFormed(updateDestinations, updateDestinationLookup)
      requires forall v, d :: Lists(updateDestinations, v, d) <==>
                 (Lists(start.dests, v, d) || FromEntries(secret.name, MapEntries(libs, secret), MapEntries(libs, secret).Keys, v, d))
      ensures Consistent()
    {
      GatheredWith(libs, start.originals, start.dests, start.index, start.groups,
                   secret, updateDestinations, updateDestinationLookup, secretsGroups);
    }

    /** Destinations already listed for a Secret that is fetched again come from the same map. */
    lemma OwnEntriesAgree(secret: Secret, originals: Originals, entries: map<string, Entry>)
      requires forall v, d | Lists(updateDestinations, v, d) :: d.k8sSecretName in originals && Contributes(libs, originals[d.k8sSecretName], v, d)
      requires secret.name in originals ==> originals[secret.name] == secret
      requires entries == MapEntries(libs, secret)
      ensures EntriesAgree(updateDestinations, secret.name, entries)
    {
    }

    method RetrieveRequiredK8sSecrets(cluster: K8sCluster) returns (ok: bool)
      requires Cleared() && cluster.Valid() && SafeListing(libs, requiredK8sSecrets, cluster.secrets)
      modifies this`originalK8sSecrets, this`updateDestinations, this`updateDestinationLookup, this`secretsGroups, cluster`faults
      ensures ok ==> Consistent() && Selected(libs, requiredK8sSecrets, originalK8sSecrets, cluster.secrets)
      ensures cluster.faults >= old(cluster.faults)
      ensures !ok ==> cluster.faults > old(cluster.faults) || !NamedAccepted(libs, requiredK8sSecrets, cluster.secrets)
      ensures ok ==> NamedAccepted(libs, requiredK8sSecrets, cluster.secrets)
      ensures Monitor.Reaches(libs, old(Now()), Now())
    {
      if requiredK8sSecrets != [] {
        ok := RetrieveNamed(cluster);
      } else {
        ok := RetrieveLabeled(cluster);
      }
    }

    method RetrieveNamed(cluster: K8sCluster) returns (ok: bool)
      requires Cleared() && cluster.Valid() && requiredK8sSecrets != []
      modifies this`originalK8sSecrets, this`updateDestinations, this`updateDestinationLookup, this`secretsGroups, cluster`faults
      ensures ok ==> Consistent() && Selected(libs, requiredK8sSecrets, originalK8sSecrets, cluster.secrets)
      ensures cluster.faults >= old(cluster.faults)
      ensures !ok ==> cluster.faults > old(cluster.faults) || !NamedAccepted(libs, requiredK8sSecrets, cluster.secrets)
      ensures ok ==> NamedAccepted(libs, requiredK8sSecrets, cluster.secrets)
      ensures Monitor.Reaches(libs, old(Now()), Now())
    {
      Monitor.ReachesItself(libs, Now());
      for i := 0 to |requiredK8sSecrets|
        invariant Consistent() && Monitor.Reaches(libs, old(Now()), Now())
        invariant originalK8sSecrets.Keys == Elements(requiredK8sSecrets[..i])
        invariant AreCurrent(cluster) && cluster.faults >= old(cluster.faults)
        invariant AcceptedUpTo(cluster, i)
      {
        ElementsStep(requiredK8sSecrets, i);
        GroupsByPosition(cluster, i);
        ok := RetrieveByName(cluster, requiredK8sSecrets[i]);
        if !ok {
          return;
        }
      }
      assert requiredK8sSecrets[..|requiredK8sSecrets|] == requiredK8sSecrets;
      return true;
    }

    ghost predicate AcceptedUpTo(cluster: K8sCluster, n: nat)
      requires n <= |requiredK8sSecrets|
      reads cluster`secrets
    {
      forall i | 0 <= i < n :: AcceptedAt(libs, requiredK8sSecrets, cluster.secrets, i)
    }

    /** The named Secret exists and is accepted beside the groups gathered so far. */
    ghost predicate AcceptedBy(secrets: Cluster, name: string, groups: Groups) {
      name in secrets && Accepts(libs, secrets[name], false, groups != map[] || GroupSet(libs, secrets[name]) != {})
    }

    /** The groups known before a required Secret are those of the Secrets before it. */
    lemma GroupsByPosition(cluster: K8sCluster, i: nat)
      requires Consistent() && AreCurrent(cluster) && i < |requiredK8sSecrets|
      requires originalK8sSecrets.Keys == Elements(requiredK8sSecrets[..i])
      ensures AcceptedAt(libs, requiredK8sSecrets, cluster.secrets, i) <==> AcceptedBy(cluster.secrets, requiredK8sSecrets[i], secretsGroups)
    {
      GroupsKnownIff(libs, originalK8sSecrets, secretsGroups);
      var before := requiredK8sSecrets[..i];
      forall s | s in originalK8sSecrets ensures exists j :: 0 <= j < i && requiredK8sSecrets[j] == s {
        assert s in before;
      }
      forall j | 0 <= j < i ensures requiredK8sSecrets[j] in originalK8sSecrets {
        assert before[j] in before;
      }
    }

    ghost predicate AreCurrent(cluster: K8sCluster)
      reads this, cluster`secrets
    {
      forall s | s in originalK8sSecrets :: s in cluster.secrets && cluster.secrets[s] == originalK8sSecrets[s]
    }

    /** One required Secret. */
    method RetrieveByName(cluster: K8sCluster, name: string) returns (ok: bool)
      requires Consistent() && cluster.Valid() && AreCurrent(cluster)
      modifies this`originalK8sSecrets, this`updateDestinations, this`updateDestinationLookup, this`secretsGroups, cluster`faults
      ensures ok ==> Consistent() && AreCurrent(cluster) && originalK8sSecrets.Keys == old(originalK8sSecrets).Keys + {name}
      ensures cluster.faults >= old(cluster.faults)
      ensures if ok then AcceptedBy(cluster.secrets, name, old(secretsGroups))
              else !AcceptedBy(cluster.secrets, name, old(secretsGroups)) || cluster.faults > old(cluster.faults)
      ensures forall start :: Monitor.Reaches(libs, start, old(Now())) ==> Monitor.Reaches(libs, start, Now())
    {
      var secret := cluster.RetrieveK8sSecret(name);
      if secret.None? {
        return false;
      }
      ok := RetrieveRequiredK8sSecret(secret.value, false);
      forall start | Monitor.Reaches(libs, start, old(Now())) ensures Monitor.Reaches(libs, start, Now()) {
        Monitor.ReachesThrough(libs, start, old(Now()), Now());
      }
    }

    method RetrieveLabeled(cluster: K8sCluster) returns (ok: bool)
      requires Cleared() && cluster.Valid() && requiredK8sSecrets == [] && SafeListing(libs, requiredK8sSecrets, cluster.secrets)
      modifies this`originalK8sSecrets, this`updateDestinations, this`updateDestinationLookup, this`secretsGroups, cluster`faults
      ensures ok ==> Consistent() && Selected(libs, requiredK8sSecrets, originalK8sSecrets, cluster.secrets)
      ensures cluster.faults >= old(cluster.faults)
      ensures !ok ==> cluster.faults > old(cluster.faults)
      ensures Monitor.Reaches(libs, old(Now()), Now())
    {
      Monitor.ReachesItself(libs, Now());
      var items := cluster.ListLabeledK8sSecrets();
      if items.None? {
        return false;
      }
      var list := items.value;
      assert forall x | x in list :: x.name in cluster.secrets && cluster.secrets[x.name] == x && IsLabeled(x);
      for i := 0 to |list|
        invariant Consistent() && Monitor.Reaches(libs, old(Now()), Now())
        invariant TookFrom(list, i) && cluster.faults == old(cluster.faults)
      {
        ghost var before := Now();
        RetrieveListed(list, i);
        Monitor.ReachesThrough(libs, old(Now()), before, Now());
      }
      TookAll(list, cluster.secrets);
      return true;
    }

    lemma TookAll(list: seq<Secret>, secrets: Cluster)
      requires TookFrom(list, |list|) && requiredK8sSecrets == []
      requires forall x | x in list :: x.name in secrets && secrets[x.name] == x && IsLabeled(x)
      requires forall s | s in secrets && IsLabeled(secrets[s]) :: secrets[s] in list && secrets[s].name == s
      ensures Selected(libs, requiredK8sSecrets, originalK8sSecrets, secrets)
    {
      assert list[..|list|] == list;
      forall s | s in secrets && IsLabeled(secrets[s]) && Admissible(libs, secrets[s]) ensures s in originalK8sSecrets {
        var j :| 0 <= j < |list| && list[j] == secrets[s];
      }
    }

    /** The recorded Secrets are among the first `n` of the list, and the admissible ones of these
        are all recorded. */
    ghost predicate TookFrom(list: seq<Secret>, n: nat)
      requires n <= |list|
      reads this
    {
      && (forall s | s in originalK8sSecrets :: originalK8sSecrets[s] in list[..n] && originalK8sSecrets[s].name == s)
      && (forall j | 0 <= j < n && Admissible(libs, list[j]) :: list[j].name in originalK8sSecrets)
    }

    /** One listed Secret, not seen before; an invalid one is skipped. */
    method RetrieveOrSkip(secret: Secret) returns (accepted: bool)
      requires Consistent() && secret.name !in originalK8sSecrets && !FailsHalfWay(libs, secret)
      modifies this`originalK8sSecrets, this`updateDestinations, this`updateDestinationLookup, this`secretsGroups
      ensures Consistent() && (!accepted ==> !Admissible(libs, secret))
      ensures originalK8sSecrets == if accepted then old(originalK8sSecrets)[secret.name := secret] else old(originalK8sSecrets)
      ensures Monitor.Reaches(libs, old(Now()), Now())
    {
      ghost var before := Now();
      accepted := RetrieveRequiredK8sSecret(secret, true);
      if !accepted {
        Forget(secret, before);
      }
    }

    method Forget(secret: Secret, ghost before: Monitor.Shared)
      requires Gathered(libs, before.originals, before.dests, before.index, before.groups) && Monitor.Reaches(libs, before, Now())
      requires secret.name !in before.originals && Now() == before.(originals := before.originals[secret.name := secret])
      modifies this`originalK8sSecrets
      ensures Consistent() && Now() == before && Monitor.Reaches(libs, before, Now())
    {
      Monitor.ReachesOneMore(libs, before, Now(), Monitor.Skip(secret.name));
      originalK8sSecrets := originalK8sSecrets - {secret.name};
      assert originalK8sSecrets == before.originals;
    }

    method RetrieveListed(list: seq<Secret>, i: nat)
      requires i < |list| && Consistent() && TookFrom(list, i)
      requires forall j, k | 0 <= j < k < |list| :: list[j].name != list[k].name
      requires !FailsHalfWay(libs, list[i])
      modifies this`originalK8sSecrets, this`updateDestinations, this`updateDestinationLookup, this`secretsGroups
      ensures Consistent() && TookFrom(list, i + 1)
      ensures Monitor.Reaches(libs, old(Now()), Now())
    {
      assert list[..i + 1] == list[..i] + [list[i]];
      var accepted := RetrieveOrSkip(list[i]);
    }

    // ---- writing ----

    /** A copy of the original loses the listed keys, then the new entries are laid over it. */
    static method DeleteKeys(original: Secret, removed: seq<string>) returns (r: Secret)
      ensures DataOf(r) == DataOf(original) - Elements(removed)
      ensures r.name == original.name && r.labels == original.labels && r.annotations == original.annotations
    {
      var data := DataOf(original);
      for i := 0 to |removed|
        invariant data == DataOf(original) - Elements(removed[..i])
      {
        assert removed[..i + 1] == removed[..i] + [removed[i]];
        data := data - {removed[i]};
      }
      assert removed[..|removed|] == removed;
      r := if original.data.None? then original else original.(data := Some(data));
    }

    method UpdateRequiredK8sSecretsWithCleanup(conjur: Data, keysToRemove: Removals, cluster: K8sCluster)
      returns (updated: bool, ok: bool, ghost order: seq<string>, ghost newData: NewData, ghost done: set<string>)
      requires Consistent() && Safe(conjur) && cluster.Valid()
      requires forall s | s in originalK8sSecrets :: s in cluster.secrets
      modifies this`prevSecretsChecksums, cluster
      ensures cluster.Valid() && IsOrder(order, conjur.Keys)
      ensures IsNewData(libs, sanitizeEnabled, originalK8sSecrets, updateDestinations, secretsGroups, conjur, order, keysToRemove, newData)
      ensures Committed(libs, old(cluster.secrets), old(prevSecretsChecksums), originalK8sSecrets, keysToRemove, newData, done,
                        cluster.secrets, prevSecretsChecksums)
      ensures ok ==> done == Stale(libs, old(prevSecretsChecksums), newData) && (updated <==> done != {})
      ensures !ok ==> done < Stale(libs, old(prevSecretsChecksums), newData) && !updated && cluster.faults > old(cluster.faults)
      ensures cluster.faults >= old(cluster.faults)
    {
      var data: NewData;
      data, order := ComputeNewData(conjur, keysToRemove);
      newData := data;
      ghost var before, cache := cluster.secrets, prevSecretsChecksums;
      ghost var left;
      updated, ok, done, left := WriteStale(data, keysToRemove, cluster);
      ProgressCommits(cluster, before, cache, keysToRemove, data, left, done);
    }

    /** Whatever is left, what was written was committed. */
    lemma ProgressCommits(cluster: K8sCluster, before: Cluster, cache: Cache, keysToRemove: Removals, data: NewData, rest: set<string>, done: set<string>)
      requires Progress(cluster, before, cache, keysToRemove, data, rest, done)
      requires data.Keys <= originalK8sSecrets.Keys <= before.Keys
      ensures Committed(libs, before, cache, originalK8sSecrets, keysToRemove, data, done, cluster.secrets, prevSecretsChecksums)
      ensures rest == {} ==> done == Stale(libs, cache, data)
      ensures (exists name :: name in rest && name in Stale(libs, cache, data)) ==> done < Stale(libs, cache, data)
    {
    }

    /** The new data of all gathered Secrets: fetched values, rendered groups over them, and an
        entry for each pure removal. */
    method ComputeNewData(conjur: Data, keysToRemove: Removals) returns (data: NewData, ghost order: seq<string>)
      requires Safe(conjur)
      ensures IsOrder(order, conjur.Keys) && data.Keys <= originalK8sSecrets.Keys
      ensures IsNewData(libs, sanitizeEnabled, originalK8sSecrets, updateDestinations, secretsGroups, conjur, order, keysToRemove, data)
    {
      data, order := CreateSecretData(conjur);
      data := PopulateGroupTemplateSecretData(conjur, data);
      data := AddPureRemovals(data, keysToRemove);
      forall s, k ensures At(data, s, k) == NewAt(libs, sanitizeEnabled, originalK8sSecrets, updateDestinations, secretsGroups, conjur, order, s, k) {
        assert RenderedAt(libs, originalK8sSecrets, secretsGroups, conjur, s, k).Some? || RenderedAt(libs, originalK8sSecrets, secretsGroups, conjur, s, k).None?;
      }
    }

    /** A Secret with keys to remove and no new data gets an empty entry. */
    method AddPureRemovals(data: NewData, keysToRemove: Removals) returns (r: NewData)
      requires forall s | s in data :: data[s] != map[]
      requires data.Keys <= originalK8sSecrets.Keys
      ensures r.Keys <= originalK8sSecrets.Keys
      ensures forall s, k :: At(r, s, k) == At(data, s, k)
      ensures forall s | s in r && r[s] == map[] :: s in keysToRemove
      ensures forall s | s in originalK8sSecrets && s in keysToRemove :: s in r
    {
      r := data;
      if keysToRemove != map[] {
        var rest := originalK8sSecrets.Keys;
        while rest != {}
          invariant rest <= originalK8sSecrets.Keys
          invariant r.Keys <= originalK8sSecrets.Keys
          invariant forall s, k :: At(r, s, k) == At(data, s, k)
          invariant forall s | s in r && r[s] == map[] :: s in keysToRemove
          invariant forall s | s in originalK8sSecrets && s !in rest && s in keysToRemove :: s in r
          decreases |rest|
        {
          var name :| name in rest;
          rest := rest - {name};
          if name !in r && name in keysToRemove {
            r := r[name := map[]];
          }
        }
      }
    }

    method WriteStale(data: NewData, keysToRemove: Removals, cluster: K8sCluster) returns (updated: bool, ok: bool, ghost done: set<string>, ghost left: set<string>)
      requires cluster.Valid() && data.Keys <= originalK8sSecrets.Keys
      requires forall s | s in originalK8sSecrets :: originalK8sSecrets[s].name == s && s in cluster.secrets
      modifies this`prevSecretsChecksums, cluster
      ensures cluster.Valid()
      ensures Progress(cluster, old(cluster.secrets), old(prevSecretsChecksums), keysToRemove, data, left, done)
      ensures if ok then left == {} && (updated <==> done != {})
              else !updated && cluster.faults > old(cluster.faults) && exists name :: name in left && name in Stale(libs, old(prevSecretsChecksums), data)
      ensures cluster.faults >= old(cluster.faults)
    {
      updated, done := false, {};
      ghost var before, cache := cluster.secrets, prevSecretsChecksums;
      CommitNothing(before, originalK8sSecrets, keysToRemove, data, cache, Sums(libs, data));
      var rest := data.Keys;
      while rest != {}
        invariant rest <= data.Keys
        invariant cluster.Valid() && Progress(cluster, before, cache, keysToRemove, data, rest, done)
        invariant updated <==> done != {}
        invariant cluster.faults >= old(cluster.faults)
        decreases |rest|
      {
        var name :| name in rest;
        var wrote, failed := WriteIfStale(data, name, keysToRemove, cluster, before, cache, rest, done);
        if failed {
          return false, false, done, rest;
        }
        if wrote {
          updated, done := true, done + {name};
        }
        rest := rest - {name};
      }
      return updated, true, done, rest;
    }

    /** The loop has dealt with everything but `rest`, and wrote `done`. */
    ghost predicate Progress(cluster: K8sCluster, before: Cluster, cache: Cache, keysToRemove: Removals, data: NewData, rest: set<string>, done: set<string>)
      reads this, cluster`secrets
    {
      && cluster.secrets == SecretsAfter(before, originalK8sSecrets, keysToRemove, data, done)
      && prevSecretsChecksums == CacheAfter(cache, Sums(libs, data), done)
      && done == Stale(libs, cache, data) - rest
    }

    method WriteIfStale(data: NewData, name: string, keysToRemove: Removals, cluster: K8sCluster,
                        ghost before: Cluster, ghost cache: Cache, ghost rest: set<string>, ghost done: set<string>) returns (wrote: bool, failed: bool)
      requires cluster.Valid() && name in originalK8sSecrets && originalK8sSecrets[name].name == name && name in before
      requires name in data && name in rest && Progress(cluster, before, cache, keysToRemove, data, rest, done)
      modifies this`prevSecretsChecksums, cluster
      ensures cluster.Valid()
      ensures failed ==> name in Stale(libs, cache, data) && Progress(cluster, before, cache, keysToRemove, data, rest, done)
      ensures cluster.faults >= old(cluster.faults) && (failed ==> cluster.faults > old(cluster.faults))
      ensures !failed ==> Progress(cluster, before, cache, keysToRemove, data, rest - {name}, if wrote then done + {name} else done)
    {
      ghost var sums := Sums(libs, data);
      var checksum := ChecksumOf(libs, data[name]);
      assert checksum == sums[name];
      JudgedByOldCache(cache, sums, done, rest, name);
      wrote, failed := false, false;
      if ContentHasChanged(name, checksum, prevSecretsChecksums) {
        wrote := WriteOne(data, name, checksum, keysToRemove, cluster);
        failed := !wrote;
        CommitSecret(before, originalK8sSecrets, keysToRemove, data, done, name);
        CommitChecksum(cache, sums, done, name);
      }
    }

    method WriteOne(data: NewData, name: string, checksum: Bytes, keysToRemove: Removals, cluster: K8sCluster) returns (written: bool)
      requires cluster.Valid() && name in originalK8sSecrets && originalK8sSecrets[name].name == name && name in data
      modifies this`prevSecretsChecksums, cluster
      ensures cluster.Valid()
      ensures cluster.secrets == if written then old(cluster.secrets)[name := Overlaid(originalK8sSecrets[name], RemovalsFor(keysToRemove, name), data[name])]
                                 else old(cluster.secrets)
      ensures cluster.faults >= old(cluster.faults)
      ensures !written && name in old(cluster.secrets) ==> cluster.faults > old(cluster.faults)
      ensures prevSecretsChecksums == if written then old(prevSecretsChecksums)[name := checksum] else old(prevSecretsChecksums)
    {
      var original := DeleteKeys(originalK8sSecrets[name], RemovalsFor(keysToRemove, name));
      assert Overlaid(original, [], data[name]) == Overlaid(originalK8sSecrets[name], RemovalsFor(keysToRemove, name), data[name]) by {
        assert DataOf(original) - Elements([]) == DataOf(original);
      }
      written := cluster.UpdateK8sSecret(name, original, data[name]);
      if written {
        prevSecretsChecksums := prevSecretsChecksums[name := checksum];
      }
    }

    // ---- whole runs ----

    method Provide(fetch: seq<string> -> Fetched, cluster: K8sCluster) returns (updated: bool, ok: bool, ghost run: Option<Run>)
      requires Cleared() && cluster.Valid() && RunnableOn(libs, sanitizeEnabled, requiredK8sSecrets, fetch, cluster.secrets)
      modifies this, cluster
      ensures Cleared() && cluster.Valid()
      ensures RunOutcome(libs, sanitizeEnabled, requiredK8sSecrets, fetch, map[], old(cluster.secrets), old(prevSecretsChecksums),
                         updated, ok, run, cluster.secrets, prevSecretsChecksums)
      ensures cluster.faults == old(cluster.faults) && NoReasonToFail(libs, requiredK8sSecrets, fetch, old(cluster.secrets)) ==> ok
      ensures cluster.faults >= old(cluster.faults)
    {
      updated, ok, run := ProvideWithCleanup(map[], fetch, cluster);
    }

    method ProvideWithCleanup(keysToRemove: Removals, fetch: seq<string> -> Fetched, cluster: K8sCluster)
      returns (updated: bool, ok: bool, ghost run: Option<Run>)
      requires Cleared() && cluster.Valid() && RunnableOn(libs, sanitizeEnabled, requiredK8sSecrets, fetch, cluster.secrets)
      modifies this, cluster
      ensures Cleared() && cluster.Valid()
      ensures RunOutcome(libs, sanitizeEnabled, requiredK8sSecrets, fetch, keysToRemove, old(cluster.secrets), old(prevSecretsChecksums),
                         updated, ok, run, cluster.secrets, prevSecretsChecksums)
      ensures cluster.faults == old(cluster.faults) && NoReasonToFail(libs, requiredK8sSecrets, fetch, old(cluster.secrets)) ==> ok
      ensures cluster.faults >= old(cluster.faults)
    {
      updated, ok, run := ProvideLocked(keysToRemove, fetch, cluster);
      ClearState();
    }

    /** The deferred clearing, whatever the outcome. */
    method ClearState()
      modifies this`originalK8sSecrets, this`updateDestinations, this`updateDestinationLookup, this`secretsGroups
      ensures Cleared()
    {
      originalK8sSecrets, updateDestinations, updateDestinationLookup, secretsGroups := map[], map[], map[], map[];
    }

    method ProvideLocked(keysToRemove: Removals, fetch: seq<string> -> Fetched, cluster: K8sCluster)
      returns (updated: bool, ok: bool, ghost run: Option<Run>)
      requires Cleared() && cluster.Valid() && RunnableOn(libs, sanitizeEnabled, requiredK8sSecrets, fetch, cluster.secrets)
      modifies this, cluster
      ensures cluster.Valid()
      ensures RunOutcome(libs, sanitizeEnabled, requiredK8sSecrets, fetch, keysToRemove, old(cluster.secrets), old(prevSecretsChecksums),
                         updated, ok, run, cluster.secrets, prevSecretsChecksums)
      ensures cluster.faults == old(cluster.faults) && NoReasonToFail(libs, requiredK8sSecrets, fetch, old(cluster.secrets)) ==> ok
      ensures cluster.faults >= old(cluster.faults)
    {
      var retrieved := RetrieveRequiredK8sSecrets(cluster);
      if !retrieved {
        return false, false, None;
      }
      if requiredK8sSecrets != [] {
        NamedHasSource(libs, requiredK8sSecrets, originalK8sSecrets, updateDestinations, updateDestinationLookup, secretsGroups, cluster.secrets);
      }
      if updateDestinations == map[] && secretsGroups == map[] && keysToRemove == map[] {
        NothingRelevant(libs, requiredK8sSecrets, originalK8sSecrets, updateDestinations, updateDestinationLookup, secretsGroups, cluster.secrets);
        return false, true, None;
      }
      updated, ok, run := FetchAndUpdate(keysToRemove, fetch, cluster);
    }

    /** The second half of a run, on what was gathered. */
    method FetchAndUpdate(keysToRemove: Removals, fetch: seq<string> -> Fetched, cluster: K8sCluster)
      returns (updated: bool, ok: bool, ghost run: Option<Run>)
      requires Consistent() && cluster.Valid() && Monitor.Reaches(libs, Monitor.EMPTY, Now())
      requires Selected(libs, requiredK8sSecrets, originalK8sSecrets, cluster.secrets)
      requires RunnableOn(libs, sanitizeEnabled, requiredK8sSecrets, fetch, cluster.secrets)
      modifies this`prevSecretsChecksums, cluster
      ensures cluster.Valid()
      ensures RunOutcome(libs, sanitizeEnabled, requiredK8sSecrets, fetch, keysToRemove, old(cluster.secrets), old(prevSecretsChecksums),
                         updated, ok, run, cluster.secrets, prevSecretsChecksums)
      ensures cluster.faults == old(cluster.faults) && NoReasonToFail(libs, requiredK8sSecrets, fetch, old(cluster.secrets)) ==> ok
      ensures cluster.faults >= old(cluster.faults)
    {
      var ids := ListConjurSecretsToFetch();
      ListIsAnswered(fetch, cluster, ids);
      updated, ok, run := UpdateByAnswer(ids, keysToRemove, fetch, cluster);
    }

    /** There is a list to ask for, and it is answered if there is no reason to fail. */
    lemma ListIsAnswered(fetch: seq<string> -> Fetched, cluster: K8sCluster, ids: Option<seq<string>>)
      requires Consistent() && Selected(libs, requiredK8sSecrets, originalK8sSecrets, cluster.secrets)
      requires ids.None? <==> (updateDestinations != map[] || secretsGroups != map[]) && forall id :: !Wants(updateDestinations, secretsGroups, id)
      requires ids.Some? ==> IsFetchList(ids.value, updateDestinations, secretsGroups)
      ensures ids.Some?
      ensures NoReasonToFail(libs, requiredK8sSecrets, fetch, cluster.secrets) ==> fetch(ids.value).Values?
    {
      if updateDestinations != map[] || secretsGroups != map[] {
        var id := SomethingAsked(libs, originalK8sSecrets, updateDestinations, updateDestinationLookup, secretsGroups);
      }
      assert NoReasonToFail(libs, requiredK8sSecrets, fetch, cluster.secrets) ==>
               ListAnswered(libs, requiredK8sSecrets, fetch, cluster.secrets,
                            originalK8sSecrets, updateDestinations, updateDestinationLookup, secretsGroups, ids.value);
    }

    method UpdateByAnswer(ids: Option<seq<string>>, keysToRemove: Removals, fetch: seq<string> -> Fetched, cluster: K8sCluster)
      returns (updated: bool, ok: bool, ghost run: Option<Run>)
      requires Consistent() && cluster.Valid() && Monitor.Reaches(libs, Monitor.EMPTY, Now())
      requires Selected(libs, requiredK8sSecrets, originalK8sSecrets, cluster.secrets)
      requires RunnableOn(libs, sanitizeEnabled, requiredK8sSecrets, fetch, cluster.secrets)
      requires ids.Some? ==> IsFetchList(ids.value, updateDestinations, secretsGroups)
      modifies this`prevSecretsChecksums, cluster
      ensures cluster.Valid()
      ensures RunOutcome(libs, sanitizeEnabled, requiredK8sSecrets, fetch, keysToRemove, old(cluster.secrets), old(prevSecretsChecksums),
                         updated, ok, run, cluster.secrets, prevSecretsChecksums)
      ensures cluster.faults >= old(cluster.faults)
      ensures ids.Some? && fetch(ids.value).Values? && cluster.faults == old(cluster.faults) ==> ok
    {
      if ids.None? {
        return false, false, None;
      }
      match fetch(ids.value)
      case Failed =>
        return false, false, None;
      case Denied =>
        if !sanitizeEnabled {
          return false, false, None;
        }
        run := Revoke(keysToRemove, fetch, ids.value, cluster);
        return true, false, run;
      case Values(conjur) =>
        SafeToGoOn(fetch, cluster, ids.value, conjur);
        ghost var r;
        updated, ok, r := UpdateWith(conjur, keysToRemove, cluster);
        run := Some(r);
        assert Answered(fetch, r);
    }

    /** Conjur denied the request. The outcome of the blanking is not passed on. */
    method Revoke(ghost keysToRemove: Removals, ghost fetch: seq<string> -> Fetched, ids: seq<string>, cluster: K8sCluster)
      returns (ghost run: Option<Run>)
      requires Consistent() && cluster.Valid() && Monitor.Reaches(libs, Monitor.EMPTY, Now()) && sanitizeEnabled
      requires Selected(libs, requiredK8sSecrets, originalK8sSecrets, cluster.secrets)
      requires RunnableOn(libs, sanitizeEnabled, requiredK8sSecrets, fetch, cluster.secrets)
      requires IsFetchList(ids, updateDestinations, secretsGroups) && fetch(ids) == Denied
      modifies this`prevSecretsChecksums, cluster
      ensures cluster.Valid()
      ensures RunOutcome(libs, sanitizeEnabled, requiredK8sSecrets, fetch, keysToRemove, old(cluster.secrets), old(prevSecretsChecksums),
                         true, false, run, cluster.secrets, prevSecretsChecksums)
      ensures cluster.faults >= old(cluster.faults)
    {
      SafeToGoOn(fetch, cluster, ids, map id | id in ids :: []);
      var removed;
      ghost var r;
      removed, r := RemoveDeletedSecrets(ids, cluster);
      assert Revoked(fetch, r);
      run := Some(r);
    }

    lemma SafeToGoOn(fetch: seq<string> -> Fetched, cluster: K8sCluster, ids: seq<string>, conjur: Data)
      requires Consistent() && Selected(libs, requiredK8sSecrets, originalK8sSecrets, cluster.secrets)
      requires RunnableOn(libs, sanitizeEnabled, requiredK8sSecrets, fetch, cluster.secrets)
      requires IsFetchList(ids, updateDestinations, secretsGroups) && GivenAs(fetch, sanitizeEnabled, ids, conjur)
      ensures Safe(conjur)
    {
      assert AnswerSafe(libs, sanitizeEnabled, requiredK8sSecrets, fetch, cluster.secrets,
                        originalK8sSecrets, updateDestinations, updateDestinationLookup, secretsGroups, ids, conjur);
    }

    /** The update of all gathered Secrets, given the values to write. */
    method UpdateWith(conjur: Data, keysToRemove: Removals, cluster: K8sCluster) returns (updated: bool, ok: bool, ghost run: Run)
      requires Consistent() && cluster.Valid()
      requires Selected(libs, requiredK8sSecrets, originalK8sSecrets, cluster.secrets)
      requires Safe(conjur)
      modifies this`prevSecretsChecksums, cluster
      ensures cluster.Valid()
      ensures Happened(libs, sanitizeEnabled, requiredK8sSecrets, old(cluster.secrets), old(prevSecretsChecksums), run, cluster.secrets, prevSecretsChecksums)
      ensures run.keys == keysToRemove && run.conjur == conjur
      ensures Monitor.Shared(run.originals, run.dests, run.index, run.groups) == Now()
      ensures ok <==> Completed(libs, old(prevSecretsChecksums), run)
      ensures updated <==> ok && run.done != {}
      ensures cluster.faults >= old(cluster.faults) && (!ok ==> cluster.faults > old(cluster.faults))
    {
      ghost var order, newData, done;
      updated, ok, order, newData, done := UpdateRequiredK8sSecretsWithCleanup(conjur, keysToRemove, cluster);
      run := Run(originalK8sSecrets, updateDestinations, updateDestinationLookup, secretsGroups, conjur, order, keysToRemove, newData, done);
    }

    /** Conjur denied the request: every requested variable is written as empty. An error means
        that not all the writes succeeded. */
    method RemoveDeletedSecrets(ids: seq<string>, cluster: K8sCluster) returns (ok: bool, ghost run: Run)
      requires Consistent() && cluster.Valid() && sanitizeEnabled
      requires Selected(libs, requiredK8sSecrets, originalK8sSecrets, cluster.secrets)
      requires Safe(map id | id in ids :: [])
      modifies this`prevSecretsChecksums, cluster
      ensures cluster.Valid()
      ensures Happened(libs, sanitizeEnabled, requiredK8sSecrets, old(cluster.secrets), old(prevSecretsChecksums), run, cluster.secrets, prevSecretsChecksums)
      ensures ok <==> Completed(libs, old(prevSecretsChecksums), run)
      ensures cluster.faults >= old(cluster.faults) && (!ok ==> cluster.faults > old(cluster.faults))
      ensures run.keys == map[] && run.conjur == map id | id in ids :: []
      ensures Monitor.Shared(run.originals, run.dests, run.index, run.groups) == Now()
    {
      var emptySecrets: Data := map id | id in ids :: [];
      var updated;
      updated, ok, run := UpdateWith(emptySecrets, map[], cluster);
    }

    // ---- keys to remove, for the informer loop ----

    function KeysIn(secret: Option<Secret>): set<string> {
      if secret.None? then {} else ConjurMapKeys(libs, secret.value)
    }

    /** The keys of one conjur-map absent from another, in map order. */
    static method MapDifference(was: set<string>, now: set<string>) returns (keys: seq<string>)
      ensures IsOrder(keys, was - now)
    {
      keys := [];
      var rest := was;
      while rest != {}
        invariant rest <= was
        invariant IsOrder(keys, (was - now) - rest)
        decreases |rest|
      {
        var key :| key in rest;
        rest := rest - {key};
        if key !in now {
          keys := keys + [key];
        }
      }
    }

    method GetRemovedKeys(oldSecret: Option<Secret>, newSecret: Option<Secret>) returns (r: Removals)
      ensures !sanitizeEnabled || oldSecret.None? || newSecret.None? ==> r == map[]
      ensures sanitizeEnabled && oldSecret.Some? && newSecret.Some? ==>
                && IsOrder(RemovalsFor(r, newSecret.value.name), KeysIn(oldSecret) - KeysIn(newSecret))
                && (forall k :: k in RemovalsFor(r, newSecret.value.name) <==>
                      HoldsKey(libs, oldSecret.value, k) && !HoldsKey(libs, newSecret.value, k))
                && r.Keys == if KeysIn(oldSecret) <= KeysIn(newSecret) then {} else {newSecret.value.name}
    {
      r := map[];
      if !sanitizeEnabled || oldSecret.None? || newSecret.None? {
        return;
      }
      KeysAreHeld(libs, oldSecret.value);
      KeysAreHeld(libs, newSecret.value);
      var removed := MapDifference(KeysIn(oldSecret), KeysIn(newSecret));
      NothingLost(KeysIn(oldSecret), KeysIn(newSecret));
      SomeMember(removed);
      if removed != [] {
        r := map[newSecret.value.name := removed];
      }
    }

    /** The list loses the given keys, compacted in order. */
    static method RemoveKeys(keys: seq<string>, keysToRemove: seq<string>) returns (r: seq<string>)
      ensures r == Without(keys, Elements(keysToRemove))
    {
      var gone := Elements(keysToRemove);
      r := [];
      for i := 0 to |keys|
        invariant r == Without(keys[..i], gone)
      {
        assert keys[..i + 1][..i] == keys[..i];
        if keys[i] !in gone {
          r := r + [keys[i]];
        }
      }
      assert keys[..|keys|] == keys;
    }

    method MergeReAddedKeys(cumulative: Removals, oldSecret: Option<Secret>, newSecret: Option<Secret>) returns (r: Removals)
      ensures newSecret.None? ==> r == cumulative
      ensures newSecret.Some? ==> r == Merged(cumulative, newSecret.value.name, KeysIn(newSecret) - KeysIn(oldSecret))
    {
      r := cumulative;
      if newSecret.None? {
        return;
      }
      var added := MapDifference(KeysIn(newSecret), KeysIn(oldSecret));
      SomeMember(added);
      assert Elements(added) == KeysIn(newSecret) - KeysIn(oldSecret);
      if added != [] {
        var name := newSecret.value.name;
        if RemovalsFor(cumulative, name) != [] {
          var kept := RemoveKeys(cumulative[name], added);
          r := r[name := kept];
        }
      }
    }
  }
}
