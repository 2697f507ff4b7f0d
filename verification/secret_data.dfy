/** What `createSecretData` and `populateGroupTemplateSecretData` compute, slot by slot, where
    a slot is one key of one Kubernetes Secret. Go ranges over the fetched secrets in an
    unspecified order; the order is a parameter here and its influence is characterised. */
module SecretData {
  import opened Kube
  import opened Ordering
  import opened Checksum
  import opened Destinations

  type NewData = map<string, Data>

  datatype Group = Group(name: string, specs: seq<SecretSpec>)

  /** The value of a slot, if there is one. */
  function At(data: NewData, s: string, k: string): Option<Bytes> {
    if s in data && k in data[s] then Some(data[s][k]) else None
  }

  /** Content type base64 asks for the decoded value; the raw one stands when decoding fails. */
  function Decoded(libs: Libs, contentType: string, raw: Bytes): Bytes {
    if contentType == "base64" && libs.decodeBase64(raw).Some? then libs.decodeBase64(raw).value else raw
  }

  function ValueFor(libs: Libs, d: Dest, raw: Bytes): Bytes {
    Decoded(libs, d.contentType, raw)
  }

  /** Destinations served by a fetched variable; a fetch-all destination serves every one. */
  function Served(dests: Dests, varID: string): seq<Dest> {
    Listed(dests, varID) + Listed(dests, "*")
  }

  // ---- effect of the fetched values, in iteration order ----

  /** One destination acting on slot (s, k), whose content was `p`. */
  function Put(libs: Libs, d: Dest, varID: string, raw: Bytes, s: string, k: string, p: Option<Bytes>): Option<Bytes> {
    if d.k8sSecretName != s then p
    else if d.secretName == "*" then
      if NormalizeK8sSecretName(varID) == k && p.None? then Some(ValueFor(libs, d, raw)) else p
    else if d.secretName == k then Some(ValueFor(libs, d, raw))
    else p
  }

  function PutAll(libs: Libs, ds: seq<Dest>, varID: string, raw: Bytes, s: string, k: string, p: Option<Bytes>): Option<Bytes> {
    if ds == [] then p
    else Put(libs, ds[|ds| - 1], varID, raw, s, k, PutAll(libs, ds[..|ds| - 1], varID, raw, s, k, p))
  }

  lemma PutAllStep(libs: Libs, ds: seq<Dest>, i: nat, varID: string, raw: Bytes, s: string, k: string, p: Option<Bytes>)
    requires i < |ds|
    ensures PutAll(libs, ds[..i + 1], varID, raw, s, k, p) == Put(libs, ds[i], varID, raw, s, k, PutAll(libs, ds[..i], varID, raw, s, k, p))
  {
    assert ds[..i + 1][..i] == ds[..i];
  }

  /** Slot content after the variables of `order` have been written one after the other. */
  function Written(libs: Libs, dests: Dests, conjur: Data, order: seq<string>, s: string, k: string): Option<Bytes>
    requires forall v | v in order :: v in conjur
  {
    if order == [] then None
    else
      var v := order[|order| - 1];
      PutAll(libs, Served(dests, v), v, conjur[v], s, k, Written(libs, dests, conjur, order[..|order| - 1], s, k))
  }

  // ---- who may write a slot ----

  predicate Names(d: Dest, s: string, k: string) {
    d.k8sSecretName == s && d.secretName == k && k != "*"
  }

  predicate Stars(d: Dest, varID: string, s: string, k: string) {
    d.k8sSecretName == s && d.secretName == "*" && NormalizeK8sSecretName(varID) == k
  }

  /** The value the last destination naming the slot gives it. */
  function Explicit(libs: Libs, ds: seq<Dest>, raw: Bytes, s: string, k: string): Option<Bytes> {
    if ds == [] then None
    else if Names(ds[|ds| - 1], s, k) then Some(ValueFor(libs, ds[|ds| - 1], raw))
    else Explicit(libs, ds[..|ds| - 1], raw, s, k)
  }

  /** The value the first `*` destination gives the slot. */
  function Starred(libs: Libs, ds: seq<Dest>, varID: string, raw: Bytes, s: string, k: string): Option<Bytes> {
    if ds == [] then None
    else
      var p := Starred(libs, ds[..|ds| - 1], varID, raw, s, k);
      if p.None? && Stars(ds[|ds| - 1], varID, s, k) then Some(ValueFor(libs, ds[|ds| - 1], raw)) else p
  }

  function ExplicitOf(libs: Libs, dests: Dests, conjur: Data, v: string, s: string, k: string): Option<Bytes>
    requires v in conjur
  {
    Explicit(libs, Served(dests, v), conjur[v], s, k)
  }

  function StarredOf(libs: Libs, dests: Dests, conjur: Data, v: string, s: string, k: string): Option<Bytes>
    requires v in conjur
  {
    Starred(libs, Served(dests, v), v, conjur[v], s, k)
  }

  /** No two fetched variables compete for the slot with different values: all that name it
      agree, and when none does all that fall on it by normalisation agree. */
  ghost predicate Uncontested(libs: Libs, dests: Dests, conjur: Data, s: string, k: string) {
    && (forall v, w | v in conjur && w in conjur ::
          var x, y := ExplicitOf(libs, dests, conjur, v, s, k), ExplicitOf(libs, dests, conjur, w, s, k);
          x.Some? && y.Some? ==> x == y)
    && ((forall v | v in conjur :: ExplicitOf(libs, dests, conjur, v, s, k).None?) ==>
          forall v, w | v in conjur && w in conjur ::
            var x, y := StarredOf(libs, dests, conjur, v, s, k), StarredOf(libs, dests, conjur, w, s, k);
            x.Some? && y.Some? ==> x == y)
  }

  /** Declarative content of a slot after the fetched values are in: a variable that names the
      slot wins over any that only normalises to it. */
  ghost predicate Settled(libs: Libs, dests: Dests, conjur: Data, s: string, k: string, r: Option<Bytes>) {
    if exists v :: v in conjur && ExplicitOf(libs, dests, conjur, v, s, k).Some?
    then exists v :: v in conjur && r.Some? && ExplicitOf(libs, dests, conjur, v, s, k) == r
    else if exists v :: v in conjur && StarredOf(libs, dests, conjur, v, s, k).Some?
    then exists v :: v in conjur && r.Some? && StarredOf(libs, dests, conjur, v, s, k) == r
    else r.None?
  }

  lemma NormalNeverStar(varID: string)
    ensures NormalizeK8sSecretName(varID) != "*"
  {
    var n := NormalizeK8sSecretName(varID);
    if |n| == 1 {
      assert InAlphabet(n[0]);
    }
  }

  lemma {:induction false} PutAllNet(libs: Libs, ds: seq<Dest>, varID: string, raw: Bytes, s: string, k: string, p: Option<Bytes>)
    ensures PutAll(libs, ds, varID, raw, s, k, p) ==
            var x := Explicit(libs, ds, raw, s, k);
            if x.Some? then x else if p.Some? then p else Starred(libs, ds, varID, raw, s, k)
  {
    if ds != [] {
      PutAllNet(libs, ds[..|ds| - 1], varID, raw, s, k, p);
      NormalNeverStar(varID);
    }
  }

  function LastExplicit(libs: Libs, dests: Dests, conjur: Data, order: seq<string>, s: string, k: string): Option<Bytes>
    requires forall v | v in order :: v in conjur
  {
    if order == [] then None
    else
      var x := ExplicitOf(libs, dests, conjur, order[|order| - 1], s, k);
      if x.Some? then x else LastExplicit(libs, dests, conjur, order[..|order| - 1], s, k)
  }

  function FirstStarred(libs: Libs, dests: Dests, conjur: Data, order: seq<string>, s: string, k: string): Option<Bytes>
    requires forall v | v in order :: v in conjur
  {
    if order == [] then None
    else
      var p := FirstStarred(libs, dests, conjur, order[..|order| - 1], s, k);
      if p.Some? then p else StarredOf(libs, dests, conjur, order[|order| - 1], s, k)
  }

  /** In any order the last variable naming the slot wins, else the first falling on it. */
  lemma {:induction false} WrittenWinner(libs: Libs, dests: Dests, conjur: Data, order: seq<string>, s: string, k: string)
    requires forall v | v in order :: v in conjur
    ensures Written(libs, dests, conjur, order, s, k) ==
            var x := LastExplicit(libs, dests, conjur, order, s, k);
            if x.Some? then x else FirstStarred(libs, dests, conjur, order, s, k)
  {
    if order != [] {
      var n := |order| - 1;
      WrittenWinner(libs, dests, conjur, order[..n], s, k);
      PutAllNet(libs, Served(dests, order[n]), order[n], conjur[order[n]], s, k, Written(libs, dests, conjur, order[..n], s, k));
    }
  }

  lemma {:induction false} NamedWitness(libs: Libs, dests: Dests, conjur: Data, order: seq<string>, s: string, k: string)
    requires forall v | v in order :: v in conjur
    ensures var x := LastExplicit(libs, dests, conjur, order, s, k);
            if x.Some? then exists v :: v in order && ExplicitOf(libs, dests, conjur, v, s, k) == x
            else forall v | v in order :: ExplicitOf(libs, dests, conjur, v, s, k).None?
  {
    if order != [] {
      var n := |order| - 1;
      NamedWitness(libs, dests, conjur, order[..n], s, k);
      assert order[n] in order;
      assert forall v | v in order :: v in order[..n] || v == order[n];
      assert forall v | v in order[..n] :: v in order;
    }
  }

  lemma {:induction false} StarredWitness(libs: Libs, dests: Dests, conjur: Data, order: seq<string>, s: string, k: string)
    requires forall v | v in order :: v in conjur
    ensures var x := FirstStarred(libs, dests, conjur, order, s, k);
            if x.Some? then exists v :: v in order && StarredOf(libs, dests, conjur, v, s, k) == x
            else forall v | v in order :: StarredOf(libs, dests, conjur, v, s, k).None?
  {
    if order != [] {
      var n := |order| - 1;
      StarredWitness(libs, dests, conjur, order[..n], s, k);
      assert order[n] in order;
      assert forall v | v in order :: v in order[..n] || v == order[n];
      assert forall v | v in order[..n] :: v in order;
    }
  }

  /** Whatever the order, the slot ends as the declarative reading says. */
  lemma WrittenSettles(libs: Libs, dests: Dests, conjur: Data, order: seq<string>, s: string, k: string)
    requires IsOrder(order, conjur.Keys)
    ensures Settled(libs, dests, conjur, s, k, Written(libs, dests, conjur, order, s, k))
  {
    WrittenWinner(libs, dests, conjur, order, s, k);
    NamedWitness(libs, dests, conjur, order, s, k);
    StarredWitness(libs, dests, conjur, order, s, k);
  }

  lemma {:induction false} FirstDecides(libs: Libs, dests: Dests, conjur: Data, v: string, rest: seq<string>, s: string, k: string)
    requires v in conjur && forall w | w in rest :: w in conjur
    ensures var y := StarredOf(libs, dests, conjur, v, s, k);
            y.Some? ==> FirstStarred(libs, dests, conjur, [v] + rest, s, k) == y
  {
    var order := [v] + rest;
    if rest == [] {
      assert order[..0] == [];
    } else {
      assert order[..|order| - 1] == [v] + rest[..|rest| - 1];
      FirstDecides(libs, dests, conjur, v, rest[..|rest| - 1], s, k);
    }
  }

  lemma OrderEnding(keys: set<string>, v: string) returns (o: seq<string>)
    requires v in keys
    ensures IsOrder(o, keys) && |o| > 0 && o[|o| - 1] == v
  {
    var rest := SortedSeq(keys - {v});
    o := rest + [v];
    assert forall x :: x in o <==> x in rest || x == v;
  }

  lemma OrderStarting(keys: set<string>, v: string) returns (rest: seq<string>)
    requires v in keys
    ensures IsOrder([v] + rest, keys)
  {
    rest := SortedSeq(keys - {v});
    assert forall x :: x in [v] + rest <==> x in rest || x == v;
    assert forall i | 0 <= i < |rest| :: rest[i] in rest;
  }

  ghost predicate FillOrderIndependent(libs: Libs, dests: Dests, conjur: Data, s: string, k: string) {
    forall o, p | IsOrder(o, conjur.Keys) && IsOrder(p, conjur.Keys) ::
      Written(libs, dests, conjur, o, s, k) == Written(libs, dests, conjur, p, s, k)
  }

  /** Some order lets a variable naming the slot have the last word. */
  lemma CanWinByName(libs: Libs, dests: Dests, conjur: Data, s: string, k: string, v: string) returns (o: seq<string>)
    requires v in conjur && ExplicitOf(libs, dests, conjur, v, s, k).Some?
    ensures IsOrder(o, conjur.Keys)
    ensures Written(libs, dests, conjur, o, s, k) == ExplicitOf(libs, dests, conjur, v, s, k)
  {
    o := OrderEnding(conjur.Keys, v);
    WrittenWinner(libs, dests, conjur, o, s, k);
  }

  /** With no variable naming the slot, some order lets any variable falling on it come first. */
  lemma CanWinByStar(libs: Libs, dests: Dests, conjur: Data, s: string, k: string, v: string) returns (o: seq<string>)
    requires v in conjur && StarredOf(libs, dests, conjur, v, s, k).Some?
    requires forall u | u in conjur :: ExplicitOf(libs, dests, conjur, u, s, k).None?
    ensures IsOrder(o, conjur.Keys)
    ensures Written(libs, dests, conjur, o, s, k) == StarredOf(libs, dests, conjur, v, s, k)
  {
    var rest := OrderStarting(conjur.Keys, v);
    o := [v] + rest;
    assert forall w | w in rest :: w in o;
    WrittenWinner(libs, dests, conjur, o, s, k);
    NamedWitness(libs, dests, conjur, o, s, k);
    FirstDecides(libs, dests, conjur, v, rest, s, k);
  }

  /** The order in which Go ranges over the fetched secrets is irrelevant to what they write into
      a slot exactly when the slot is uncontested. */
  lemma FillOrderIrrelevantIffUncontested(libs: Libs, dests: Dests, conjur: Data, s: string, k: string)
    ensures FillOrderIndependent(libs, dests, conjur, s, k) <==> Uncontested(libs, dests, conjur, s, k)
  {
    if Uncontested(libs, dests, conjur, s, k) {
      forall o, p | IsOrder(o, conjur.Keys) && IsOrder(p, conjur.Keys)
        ensures Written(libs, dests, conjur, o, s, k) == Written(libs, dests, conjur, p, s, k)
      {
        WrittenSettles(libs, dests, conjur, o, s, k);
        WrittenSettles(libs, dests, conjur, p, s, k);
      }
    }
    if FillOrderIndependent(libs, dests, conjur, s, k) {
      forall v, w | v in conjur && w in conjur
        ensures var x, y := ExplicitOf(libs, dests, conjur, v, s, k), ExplicitOf(libs, dests, conjur, w, s, k);
                x.Some? && y.Some? ==> x == y
      {
        if ExplicitOf(libs, dests, conjur, v, s, k).Some? && ExplicitOf(libs, dests, conjur, w, s, k).Some? {
          var o := CanWinByName(libs, dests, conjur, s, k, v);
          var p := CanWinByName(libs, dests, conjur, s, k, w);
        }
      }
      if forall v | v in conjur :: ExplicitOf(libs, dests, conjur, v, s, k).None? {
        forall v, w | v in conjur && w in conjur
          ensures var x, y := StarredOf(libs, dests, conjur, v, s, k), StarredOf(libs, dests, conjur, w, s, k);
                  x.Some? && y.Some? ==> x == y
        {
          if StarredOf(libs, dests, conjur, v, s, k).Some? && StarredOf(libs, dests, conjur, w, s, k).Some? {
            var o := CanWinByStar(libs, dests, conjur, s, k, v);
            var p := CanWinByStar(libs, dests, conjur, s, k, w);
          }
        }
      }
    }
  }

  // ---- the sanitising pass ----

  type Originals = map<string, Secret>

  /** A destination, with its variable, sanitising slot (s, k): a `*` destination blanks any
      existing key that got no value, any other one blanks its slot when Conjur returned
      nothing for it. */
  function Blank(originals: Originals, conjur: Data, varID: string, d: Dest, s: string, k: string, p: Option<Bytes>): Option<Bytes> {
    if d.k8sSecretName != s then p
    else if d.secretName == "*" then
      if p.None? && k != CONJUR_MAP_KEY && s in originals && k in DataOf(originals[s]) then Some([]) else p
    else if varID !in conjur && d.secretName == k then Some([])
    else p
  }

  function BlankAll(originals: Originals, conjur: Data, pairs: seq<(string, Dest)>, s: string, k: string, p: Option<Bytes>): Option<Bytes> {
    if pairs == [] then p
    else
      var (v, d) := pairs[|pairs| - 1];
      Blank(originals, conjur, v, d, s, k, BlankAll(originals, conjur, pairs[..|pairs| - 1], s, k, p))
  }

  ghost predicate Lists(dests: Dests, varID: string, d: Dest) {
    varID in dests && d in dests[varID]
  }

  /** Some variable that names the slot is missing from the fetched ones. */
  ghost predicate Missing(dests: Dests, conjur: Data, s: string, k: string) {
    exists v, d :: Lists(dests, v, d) && Names(d, s, k) && v !in conjur
  }

  /** The slot is an existing key of a Secret with a `*` destination. */
  ghost predicate Wiped(originals: Originals, dests: Dests, s: string, k: string) {
    && k != CONJUR_MAP_KEY && s in originals && k in DataOf(originals[s])
    && exists v, d :: Lists(dests, v, d) && d.k8sSecretName == s && d.secretName == "*"
  }

  ghost predicate MissingAmong(conjur: Data, pairs: seq<(string, Dest)>, s: string, k: string) {
    exists pair :: pair in pairs && Names(pair.1, s, k) && pair.0 !in conjur
  }

  ghost predicate WipedAmong(originals: Originals, pairs: seq<(string, Dest)>, s: string, k: string) {
    && k != CONJUR_MAP_KEY && s in originals && k in DataOf(originals[s])
    && exists pair :: pair in pairs && pair.1.k8sSecretName == s && pair.1.secretName == "*"
  }

  lemma {:induction false} BlankAllNet(originals: Originals, conjur: Data, pairs: seq<(string, Dest)>, s: string, k: string, p: Option<Bytes>)
    ensures BlankAll(originals, conjur, pairs, s, k, p) ==
            if MissingAmong(conjur, pairs, s, k) then Some([])
            else if p.Some? then p
            else if WipedAmong(originals, pairs, s, k) then Some([]) else None
  {
    if pairs != [] {
      var n := |pairs| - 1;
      BlankAllNet(originals, conjur, pairs[..n], s, k, p);
      assert pairs[n] in pairs;
      assert forall pair :: pair in pairs <==> pair in pairs[..n] || pair == pairs[n];
    }
  }

  /** Declarative result of `createSecretData` for one slot: a missing explicit variable blanks
      it, else the fetched value stands, else an unfilled existing key of a fetch-all Secret is
      wiped. Blanks appear only when sanitising. */
  ghost function CreateAt(libs: Libs, sanitize: bool, originals: Originals, dests: Dests, conjur: Data, order: seq<string>, s: string, k: string): Option<Bytes>
    requires forall v | v in order :: v in conjur
  {
    var written := Written(libs, dests, conjur, order, s, k);
    if sanitize && Missing(dests, conjur, s, k) then Some([])
    else if written.Some? then written
    else if sanitize && Wiped(originals, dests, s, k) then Some([])
    else None
  }

  /** The list of all (variable, destination) pairs, whatever its order. */
  ghost predicate Enumerates(pairs: seq<(string, Dest)>, dests: Dests) {
    forall v, d :: (v, d) in pairs <==> Lists(dests, v, d)
  }

  lemma BlankedIsCreated(libs: Libs, originals: Originals, dests: Dests, conjur: Data, order: seq<string>, pairs: seq<(string, Dest)>, s: string, k: string)
    requires forall v | v in order :: v in conjur
    requires Enumerates(pairs, dests)
    ensures BlankAll(originals, conjur, pairs, s, k, Written(libs, dests, conjur, order, s, k))
         == CreateAt(libs, true, originals, dests, conjur, order, s, k)
  {
    BlankAllNet(originals, conjur, pairs, s, k, Written(libs, dests, conjur, order, s, k));
    if Missing(dests, conjur, s, k) {
      var v, d :| Lists(dests, v, d) && Names(d, s, k) && v !in conjur;
      assert (v, d) in pairs && Names((v, d).1, s, k);
    }
    if MissingAmong(conjur, pairs, s, k) {
      var pair :| pair in pairs && Names(pair.1, s, k) && pair.0 !in conjur;
      assert (pair.0, pair.1) in pairs;
    }
    if Wiped(originals, dests, s, k) {
      var v, d :| Lists(dests, v, d) && d.k8sSecretName == s && d.secretName == "*";
      assert (v, d) in pairs && (v, d).1 == d;
    }
    if WipedAmong(originals, pairs, s, k) {
      var pair :| pair in pairs && pair.1.k8sSecretName == s && pair.1.secretName == "*";
      assert (pair.0, pair.1) in pairs;
    }
  }

  // ---- secret groups ----

  type Groups = map<string, seq<Group>>

  /** What a group's template is given: each alias with its fetched value, or an empty one. */
  function SpecValues(conjur: Data, specs: seq<SecretSpec>): seq<TemplateSecret> {
    if specs == [] then []
    else
      var spec := specs[|specs| - 1];
      SpecValues(conjur, specs[..|specs| - 1]) + [TemplateSecret(spec.alias, Lookup(conjur, spec.path))]
  }

  lemma SpecValuesStep(conjur: Data, specs: seq<SecretSpec>, j: nat)
    requires j < |specs|
    ensures SpecValues(conjur, specs[..j + 1]) == SpecValues(conjur, specs[..j]) + [TemplateSecret(specs[j].alias, Lookup(conjur, specs[j].path))]
  {
    assert specs[..j + 1][..j] == specs[..j];
  }

  /** The secrets gathered under one group name. */
  function GroupSecrets(conjur: Data, groups: seq<Group>, name: string): seq<TemplateSecret> {
    if groups == [] then []
    else
      var g := groups[|groups| - 1];
      GroupSecrets(conjur, groups[..|groups| - 1], name) + (if g.name == name then SpecValues(conjur, g.specs) else [])
  }

  /** What is collected under a name; a missing one reads as an empty list. */
  function SecretsUnder(byName: map<string, seq<TemplateSecret>>, name: string): seq<TemplateSecret> {
    if name in byName then byName[name] else []
  }

  function TemplateOf(secret: Secret, group: string): string {
    var key := FILE_TEMPLATE_PREFIX + group;
    if key in secret.annotations then secret.annotations[key] else ""
  }

  /** The rendered file a group contributes to the slot bearing its name. */
  function RenderedAt(libs: Libs, originals: Originals, groups: Groups, conjur: Data, s: string, k: string): Option<Bytes> {
    if s in groups && s in originals && GroupSecrets(conjur, groups[s], k) != []
    then libs.render(k, TemplateOf(originals[s], k), GroupSecrets(conjur, groups[s], k))
    else None
  }

  /** A slot of the new data: a rendered group overrides everything else. */
  ghost function NewAt(libs: Libs, sanitize: bool, originals: Originals, dests: Dests, groups: Groups, conjur: Data, order: seq<string>, s: string, k: string): Option<Bytes>
    requires forall v | v in order :: v in conjur
  {
    var rendered := RenderedAt(libs, originals, groups, conjur, s, k);
    if rendered.Some? then rendered else CreateAt(libs, sanitize, originals, dests, conjur, order, s, k)
  }

  // ---- when the order matters ----

  /** The new data of a slot is the same whatever order Go takes. */
  ghost predicate OrderIndependent(libs: Libs, sanitize: bool, originals: Originals, dests: Dests, groups: Groups, conjur: Data, s: string, k: string) {
    forall o, p | IsOrder(o, conjur.Keys) && IsOrder(p, conjur.Keys) ::
      NewAt(libs, sanitize, originals, dests, groups, conjur, o, s, k) == NewAt(libs, sanitize, originals, dests, groups, conjur, p, s, k)
  }

  /** A rendered group or a missing variable decides the slot, or nobody contests it. */
  ghost predicate Decided(libs: Libs, sanitize: bool, originals: Originals, dests: Dests, groups: Groups, conjur: Data, s: string, k: string) {
    || RenderedAt(libs, originals, groups, conjur, s, k).Some?
    || (sanitize && Missing(dests, conjur, s, k))
    || Uncontested(libs, dests, conjur, s, k)
  }

  /** Whether a slot is written at all does not depend on the order. */
  lemma FilledInEveryOrder(libs: Libs, dests: Dests, conjur: Data, o: seq<string>, p: seq<string>, s: string, k: string)
    requires IsOrder(o, conjur.Keys) && IsOrder(p, conjur.Keys)
    ensures Written(libs, dests, conjur, o, s, k).Some? <==> Written(libs, dests, conjur, p, s, k).Some?
  {
    WrittenSettles(libs, dests, conjur, o, s, k);
    WrittenSettles(libs, dests, conjur, p, s, k);
  }

  /** So, unless a missing variable blanks the slot, `createSecretData` depends on the order
      exactly as the values written do. */
  lemma CreatedAsWritten(libs: Libs, sanitize: bool, originals: Originals, dests: Dests, conjur: Data, o: seq<string>, p: seq<string>, s: string, k: string)
    requires IsOrder(o, conjur.Keys) && IsOrder(p, conjur.Keys)
    ensures CreateAt(libs, sanitize, originals, dests, conjur, o, s, k) == CreateAt(libs, sanitize, originals, dests, conjur, p, s, k)
            <==> (sanitize && Missing(dests, conjur, s, k)) || Written(libs, dests, conjur, o, s, k) == Written(libs, dests, conjur, p, s, k)
  {
    FilledInEveryOrder(libs, dests, conjur, o, p, s, k);
  }

  /** The order in which Go ranges over the fetched secrets is irrelevant to the new data of a
      slot exactly when the slot is decided. */
  lemma OrderIrrelevantIffDecided(libs: Libs, sanitize: bool, originals: Originals, dests: Dests, groups: Groups, conjur: Data, s: string, k: string)
    ensures OrderIndependent(libs, sanitize, originals, dests, groups, conjur, s, k)
            <==> Decided(libs, sanitize, originals, dests, groups, conjur, s, k)
  {
    FillOrderIrrelevantIffUncontested(libs, dests, conjur, s, k);
    forall o, p | IsOrder(o, conjur.Keys) && IsOrder(p, conjur.Keys)
      ensures NewAt(libs, sanitize, originals, dests, groups, conjur, o, s, k) == NewAt(libs, sanitize, originals, dests, groups, conjur, p, s, k)
              <==> RenderedAt(libs, originals, groups, conjur, s, k).Some? || (sanitize && Missing(dests, conjur, s, k))
                   || Written(libs, dests, conjur, o, s, k) == Written(libs, dests, conjur, p, s, k)
    {
      CreatedAsWritten(libs, sanitize, originals, dests, conjur, o, p, s, k);
    }
  }

  // ---- what is asked for ----

  ghost predicate SpecsWant(specs: seq<SecretSpec>, id: string) {
    exists spec :: spec in specs && spec.path == id
  }

  ghost predicate GroupsWant(groups: seq<Group>, id: string) {
    exists g :: g in groups && SpecsWant(g.specs, id)
  }
}
