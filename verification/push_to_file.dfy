/** Push-to-file: fetching the secrets of all groups, wiping the fetched buffers, and the
    check a group's list must pass before it is written. */
module PushToFile {
  import opened Kube
  import opened Ordering
  import opened SecretData

  type Buffer = array<byte>
  type Buffers = map<string, Buffer>

  // ---- what is fetched ----

  ghost predicate FetchesAll(groups: seq<Group>) {
    GroupsWant(groups, "*")
  }

  /** Every path of every spec once, or `*` alone as soon as some spec asks for everything. */
  ghost predicate IsPathList(paths: seq<string>, groups: seq<Group>) {
    if FetchesAll(groups) then paths == ["*"]
    else NoDup(paths) && forall p :: p in paths <==> GroupsWant(groups, p)
  }

  method GetAllPaths(groups: seq<Group>) returns (paths: seq<string>)
    ensures IsPathList(paths, groups)
  {
    var pathSet: set<string> := {};
    for i := 0 to |groups|
      invariant "*" !in pathSet
      invariant forall p :: p in pathSet <==> GroupsWant(groups[..i], p)
    {
      var specs := groups[i].specs;
      ghost var before := pathSet;
      for j := 0 to |specs|
        invariant "*" !in pathSet
        invariant forall p :: p in pathSet <==> p in before || SpecsWant(specs[..j], p)
      {
        if specs[j].path == "*" {
          assert groups[i] in groups && specs[j] in specs;
          assert SpecsWant(groups[i].specs, "*");
          return ["*"];
        }
        pathSet := pathSet + {specs[j].path};
        WantOneMore(specs, j);
      }
      assert specs[..|specs|] == specs;
      GroupWantsOneMore(groups, i);
    }
    assert groups[..|groups|] == groups;
    paths := SetToSequence(pathSet);
  }

  lemma WantOneMore(specs: seq<SecretSpec>, j: nat)
    requires j < |specs|
    ensures forall p :: SpecsWant(specs[..j + 1], p) <==> SpecsWant(specs[..j], p) || specs[j].path == p
  {
    assert specs[..j + 1] == specs[..j] + [specs[j]];
    assert specs[j] in specs[..j + 1];
    assert forall spec | spec in specs[..j] :: spec in specs[..j + 1];
    forall p ensures SpecsWant(specs[..j + 1], p) <==> SpecsWant(specs[..j], p) || specs[j].path == p {
      if spec :| spec in specs[..j + 1] && spec.path == p {
        assert spec in specs[..j] || spec == specs[j];
      }
    }
  }

  lemma GroupWantsOneMore(groups: seq<Group>, i: nat)
    requires i < |groups|
    ensures forall p :: GroupsWant(groups[..i + 1], p) <==> GroupsWant(groups[..i], p) || SpecsWant(groups[i].specs, p)
  {
    assert groups[..i + 1] == groups[..i] + [groups[i]];
    assert groups[i] in groups[..i + 1];
    assert forall g | g in groups[..i] :: g in groups[..i + 1];
  }

  /** The keys of a Go map in whatever order it is ranged over. */
  method SetToSequence(s: set<string>) returns (r: seq<string>)
    ensures IsOrder(r, s)
  {
    r := [];
    var rest := s;
    while rest != {}
      invariant rest <= s
      invariant NoDup(r) && forall x :: x in r <==> x in s - rest
      decreases |rest|
    {
      var x :| x in rest;
      assert forall i | 0 <= i < |r| :: r[i] in r;
      r := r + [x];
      rest := rest - {x};
    }
  }

  // ---- what each group receives ----

  /** A missing or `*` alias falls back to the path. */
  function AliasFor(spec: SecretSpec, path: string): string {
    if spec.alias == "" || spec.alias == "*" then path else spec.alias
  }

  function SecretFor(libs: Libs, spec: SecretSpec, fetched: Data, path: string): TemplateSecret {
    TemplateSecret(AliasFor(spec, path), Decoded(libs, spec.contentType, Lookup(fetched, path)))
  }

  function PathsOf(spec: SecretSpec, fetched: Data): seq<string> {
    if spec.path == "*" then SortedSeq(fetched.Keys) else [spec.path]
  }

  function SecretsFor(libs: Libs, spec: SecretSpec, fetched: Data, paths: seq<string>): seq<TemplateSecret> {
    if paths == [] then []
    else SecretsFor(libs, spec, fetched, paths[..|paths| - 1]) + [SecretFor(libs, spec, fetched, paths[|paths| - 1])]
  }

  /** Specs in order, each `*` expanded over the fetched paths in sorted order. */
  function Expanded(libs: Libs, specs: seq<SecretSpec>, fetched: Data): seq<TemplateSecret> {
    if specs == [] then []
    else
      var spec := specs[|specs| - 1];
      Expanded(libs, specs[..|specs| - 1], fetched) + SecretsFor(libs, spec, fetched, PathsOf(spec, fetched))
  }

  /** What groups of one name receive together. */
  function ListFor(libs: Libs, groups: seq<Group>, fetched: Data, name: string): seq<TemplateSecret> {
    if groups == [] then []
    else
      var g := groups[|groups| - 1];
      ListFor(libs, groups[..|groups| - 1], fetched, name) + (if g.name == name then Expanded(libs, g.specs, fetched) else [])
  }

  predicate Resolves(spec: SecretSpec, fetched: Data) {
    spec.path == "*" || spec.path in fetched
  }

  predicate AllResolve(specs: seq<SecretSpec>, fetched: Data) {
    forall spec | spec in specs :: Resolves(spec, fetched)
  }

  predicate GroupsResolve(groups: seq<Group>, fetched: Data) {
    forall g | g in groups :: AllResolve(g.specs, fetched)
  }

  // ---- the fetch ----

  /** The buffers hold these values. */
  ghost predicate Hold(buffers: Buffers, fetched: Data)
    reads buffers.Values
  {
    buffers.Keys == fetched.Keys && forall p | p in buffers :: p in fetched && buffers[p][..] == fetched[p]
  }

  ghost predicate Zeroed(buffer: Buffer)
    reads buffer
  {
    forall i | 0 <= i < buffer.Length :: buffer[i] == 0
  }

  /** Conjur as the fetch sees it: it answers a list of paths with freshly allocated buffers,
      or fails. What was asked and handed out is recorded. */
  class Retriever {
    const answer: seq<string> -> Option<Data>
    ghost var requests: seq<seq<string>>
    ghost var handedOut: set<Buffer>

    constructor (answer: seq<string> -> Option<Data>)
      ensures this.answer == answer && requests == [] && handedOut == {}
    {
      this.answer := answer;
      requests, handedOut := [], {};
    }

    method Retrieve(paths: seq<string>) returns (r: Option<Buffers>)
      modifies this
      ensures requests == old(requests) + [paths]
      ensures r.None? <==> answer(paths).None?
      ensures r.None? ==> handedOut == old(handedOut)
      ensures r.Some? ==> handedOut == old(handedOut) + r.value.Values && fresh(r.value.Values)
      ensures r.Some? ==> Hold(r.value, answer(paths).value)
    {
      requests := requests + [paths];
      var reply := answer(paths);
      if reply.None? {
        return None;
      }
      var buffers := Allocate(reply.value);
      handedOut := handedOut + buffers.Values;
      return Some(buffers);
    }
  }

  method Allocate(values: Data) returns (buffers: Buffers)
    ensures fresh(buffers.Values) && Hold(buffers, values)
  {
    buffers := map[];
    var rest := values.Keys;
    while rest != {}
      invariant rest <= values.Keys && buffers.Keys == values.Keys - rest
      invariant fresh(buffers.Values)
      invariant forall p | p in buffers :: buffers[p] in buffers.Values && buffers[p][..] == values[p]
      decreases |rest|
    {
      var p :| p in rest;
      var value := values[p];
      var buffer := new byte[|value|](i requires 0 <= i < |value| => value[i]);
      assert buffer[..] == value;
      rest := rest - {p};
      ghost var before := buffers;
      buffers := buffers[p := buffer];
      assert buffers.Values <= before.Values + {buffer};
      forall q | q in buffers ensures buffers[q] in buffers.Values && buffers[q][..] == values[q] {
        assert q != p ==> q in before && buffers[q] == before[q];
      }
    }
  }

  type SecretLists = map<string, seq<TemplateSecret>>

  /** What is listed under a name, and that a name with nothing to list is absent. */
  predicate Holds(lists: SecretLists, name: string, secrets: seq<TemplateSecret>) {
    SecretsUnder(lists, name) == secrets && (name in lists <==> secrets != [])
  }

  /** The groups' lists. */
  ghost predicate IsResult(libs: Libs, lists: SecretLists, groups: seq<Group>, fetched: Data) {
    forall name :: Holds(lists, name, ListFor(libs, groups, fetched, name))
  }

  method GetSecretValueByID(libs: Libs, buffers: Buffers, ghost fetched: Data, spec: SecretSpec, path: string) returns (r: Option<TemplateSecret>)
    requires Hold(buffers, fetched)
    ensures r.Some? <==> path in fetched
    ensures r.Some? ==> r.value == SecretFor(libs, spec, fetched, path)
    ensures r.Some? ==> r.value.alias == if spec.alias == "" || spec.alias == "*" then path else spec.alias
    ensures r.Some? ==> r.value.value == if spec.contentType == "base64" && libs.decodeBase64(fetched[path]).Some? then libs.decodeBase64(fetched[path]).value else fetched[path]
  {
    var alias := if spec.alias == "" || spec.alias == "*" then path else spec.alias;
    if path !in buffers {
      return None;
    }
    var raw := buffers[path][..];
    var decoded := raw;
    if spec.contentType == "base64" {
      var attempt := libs.decodeBase64(raw);
      if attempt.Some? {
        decoded := attempt.value;
      }
    }
    return Some(TemplateSecret(alias, decoded));
  }

  /** The lists after one name received some more. */
  ghost predicate Received(lists: SecretLists, name: string, more: seq<TemplateSecret>, lists': SecretLists) {
    && (forall n | n != name :: (n in lists' <==> n in lists) && SecretsUnder(lists', n) == SecretsUnder(lists, n))
    && SecretsUnder(lists', name) == SecretsUnder(lists, name) + more
    && (name in lists' <==> name in lists || more != [])
  }

  lemma ReceivedMore(before: SecretLists, name: string, more: seq<TemplateSecret>, lists: SecretLists,
                     extra: seq<TemplateSecret>, lists': SecretLists)
    requires Received(before, name, more, lists) && Received(lists, name, extra, lists')
    ensures Received(before, name, more + extra, lists')
  {
    Associate(SecretsUnder(before, name), more, extra);
  }

  lemma ReceivedOne(lists: SecretLists, name: string, secret: TemplateSecret)
    ensures Received(lists, name, [secret], lists[name := SecretsUnder(lists, name) + [secret]])
  {
  }

  lemma SecretsForStep(libs: Libs, spec: SecretSpec, fetched: Data, paths: seq<string>, i: nat)
    requires i < |paths|
    ensures SecretsFor(libs, spec, fetched, paths[..i + 1]) == SecretsFor(libs, spec, fetched, paths[..i]) + [SecretFor(libs, spec, fetched, paths[i])]
  {
    assert paths[..i + 1][..i] == paths[..i];
  }

  method PathsToRead(buffers: Buffers, ghost fetched: Data, spec: SecretSpec) returns (paths: seq<string>)
    requires Hold(buffers, fetched)
    ensures paths == PathsOf(spec, fetched)
  {
    paths := [spec.path];
    if spec.path == "*" {
      paths := SetToSequence(buffers.Keys);
      assert Elements(paths) == fetched.Keys;
      paths := SortStrings(paths);
    }
  }

  method AddSpec(libs: Libs, buffers: Buffers, ghost fetched: Data, group: string, spec: SecretSpec, before: SecretLists)
    returns (r: Option<SecretLists>)
    requires Hold(buffers, fetched)
    ensures r.Some? <==> Resolves(spec, fetched)
    ensures r.Some? ==> Received(before, group, SecretsFor(libs, spec, fetched, PathsOf(spec, fetched)), r.value)
  {
    var paths := PathsToRead(buffers, fetched, spec);
    var lists := before;
    for i := 0 to |paths|
      invariant forall j | 0 <= j < i :: paths[j] in fetched
      invariant Received(before, group, SecretsFor(libs, spec, fetched, paths[..i]), lists)
    {
      SecretsForStep(libs, spec, fetched, paths, i);
      var secret := GetSecretValueByID(libs, buffers, fetched, spec, paths[i]);
      if secret.None? {
        return None;
      }
      ghost var was := lists;
      lists := lists[group := SecretsUnder(lists, group) + [secret.value]];
      ReceivedOne(was, group, secret.value);
      ReceivedMore(before, group, SecretsFor(libs, spec, fetched, paths[..i]), was, [secret.value], lists);
    }
    assert paths[..|paths|] == paths;
    return Some(lists);
  }

  lemma ExpandedStep(libs: Libs, specs: seq<SecretSpec>, i: nat, fetched: Data)
    requires i < |specs|
    ensures Expanded(libs, specs[..i + 1], fetched) == Expanded(libs, specs[..i], fetched) + SecretsFor(libs, specs[i], fetched, PathsOf(specs[i], fetched))
  {
    assert specs[..i + 1][..i] == specs[..i];
  }

  lemma ResolveStep(specs: seq<SecretSpec>, i: nat, fetched: Data)
    requires i < |specs|
    ensures AllResolve(specs[..i + 1], fetched) <==> AllResolve(specs[..i], fetched) && Resolves(specs[i], fetched)
    ensures AllResolve(specs, fetched) ==> Resolves(specs[i], fetched)
  {
    assert specs[..i + 1] == specs[..i] + [specs[i]];
    assert specs[i] in specs;
  }

  method AddGroup(libs: Libs, buffers: Buffers, ghost fetched: Data, name: string, specs: seq<SecretSpec>, before: SecretLists)
    returns (r: Option<SecretLists>)
    requires Hold(buffers, fetched)
    ensures r.Some? <==> AllResolve(specs, fetched)
    ensures r.Some? ==> Received(before, name, Expanded(libs, specs, fetched), r.value)
  {
    var lists := before;
    for i := 0 to |specs|
      invariant AllResolve(specs[..i], fetched)
      invariant Received(before, name, Expanded(libs, specs[..i], fetched), lists)
    {
      ResolveStep(specs, i, fetched);
      ExpandedStep(libs, specs, i, fetched);
      var added := AddSpec(libs, buffers, fetched, name, specs[i], lists);
      if added.None? {
        return None;
      }
      ReceivedMore(before, name, Expanded(libs, specs[..i], fetched), lists,
                   SecretsFor(libs, specs[i], fetched, PathsOf(specs[i], fetched)), added.value);
      lists := added.value;
    }
    assert specs[..|specs|] == specs;
    return Some(lists);
  }

  lemma ListForStep(libs: Libs, groups: seq<Group>, i: nat, fetched: Data, name: string)
    requires i < |groups|
    ensures ListFor(libs, groups[..i + 1], fetched, name)
         == ListFor(libs, groups[..i], fetched, name) + (if groups[i].name == name then Expanded(libs, groups[i].specs, fetched) else [])
  {
    assert groups[..i + 1][..i] == groups[..i];
  }

  lemma HoldsMore(lists: SecretLists, name: string, secrets: seq<TemplateSecret>, group: string, more: seq<TemplateSecret>, lists': SecretLists)
    requires Holds(lists, name, secrets) && Received(lists, group, more, lists')
    ensures Holds(lists', name, secrets + (if group == name then more else []))
  {
    if group != name {
      assert secrets + [] == secrets;
    }
  }

  lemma ResultWithGroup(libs: Libs, groups: seq<Group>, i: nat, fetched: Data, lists: SecretLists, lists': SecretLists)
    requires i < |groups|
    requires IsResult(libs, lists, groups[..i], fetched)
    requires Received(lists, groups[i].name, Expanded(libs, groups[i].specs, fetched), lists')
    ensures IsResult(libs, lists', groups[..i + 1], fetched)
  {
    var upTo := groups[..i + 1];
    forall name ensures Holds(lists', name, ListFor(libs, upTo, fetched, name)) {
      ListForStep(libs, groups, i, fetched, name);
      HoldsMore(lists, name, ListFor(libs, groups[..i], fetched, name), groups[i].name, Expanded(libs, groups[i].specs, fetched), lists');
    }
  }

  method AddGroups(libs: Libs, buffers: Buffers, ghost fetched: Data, groups: seq<Group>) returns (r: Option<SecretLists>)
    requires Hold(buffers, fetched)
    ensures r.Some? <==> GroupsResolve(groups, fetched)
    ensures r.Some? ==> IsResult(libs, r.value, groups, fetched)
  {
    var lists: SecretLists := map[];
    for i := 0 to |groups|
      invariant GroupsResolve(groups[..i], fetched)
      invariant IsResult(libs, lists, groups[..i], fetched)
    {
      assert groups[..i + 1] == groups[..i] + [groups[i]];
      var added := AddGroup(libs, buffers, fetched, groups[i].name, groups[i].specs, lists);
      if added.None? {
        return None;
      }
      ResultWithGroup(libs, groups, i, fetched, lists, added.value);
      lists := added.value;
    }
    assert groups[..|groups|] == groups;
    return Some(lists);
  }

  method Clear(buffers: Buffers)
    modifies buffers.Values
    ensures forall b | b in buffers.Values :: Zeroed(b)
  {
    var rest := buffers.Keys;
    while rest != {}
      invariant rest <= buffers.Keys
      invariant forall p | p in buffers && p !in rest :: Zeroed(buffers[p])
      decreases |rest|
    {
      var p :| p in rest;
      assert buffers[p] in buffers.Values;
      Wipe(buffers[p]);
      rest := rest - {p};
    }
  }

  method Wipe(buffer: Buffer)
    modifies buffer
    ensures Zeroed(buffer)
  {
    for b := 0 to buffer.Length
      invariant forall i | 0 <= i < b :: buffer[i] == 0
    {
      buffer[b] := 0;
    }
  }

  /** One request is made. The fetch fails iff it fails or some spec's path is not among the
      answers; otherwise every group gets its own list. Either way every buffer Conjur handed
      out is zero on return, while the lists hold the values as they were. */
  method FetchSecretsForGroups(libs: Libs, conjur: Retriever, groups: seq<Group>) returns (r: Option<SecretLists>)
    modifies conjur
    ensures |conjur.requests| == |old(conjur.requests)| + 1 && old(conjur.requests) < conjur.requests
    ensures var asked := conjur.requests[|conjur.requests| - 1];
            && IsPathList(asked, groups)
            && (r.Some? <==> conjur.answer(asked).Some? && forall g, spec | g in groups && spec in g.specs :: spec.path == "*" || spec.path in conjur.answer(asked).value)
            && (r.Some? ==> IsResult(libs, r.value, groups, conjur.answer(asked).value))
    ensures forall b | b in conjur.handedOut - old(conjur.handedOut) :: Zeroed(b)
  {
    var secretPaths := GetAllPaths(groups);
    var secretValueById := conjur.Retrieve(secretPaths);
    if secretValueById.None? {
      return None;
    }
    r := AddGroups(libs, secretValueById.value, conjur.answer(secretPaths).value, groups);
    ResolveIff(groups, conjur.answer(secretPaths).value);
    Clear(secretValueById.value);
  }

  lemma ResolveIff(groups: seq<Group>, fetched: Data)
    ensures GroupsResolve(groups, fetched) <==> forall g, spec | g in groups && spec in g.specs :: spec.path == "*" || spec.path in fetched
  {
    if GroupsResolve(groups, fetched) {
      forall g, spec | g in groups && spec in g.specs ensures Resolves(spec, fetched) {
        assert AllResolve(g.specs, fetched);
      }
    }
  }

  // ---- the lists read back ----

  lemma {:induction false} SecretsForCount(libs: Libs, spec: SecretSpec, fetched: Data, paths: seq<string>)
    ensures |SecretsFor(libs, spec, fetched, paths)| == |paths|
  {
    if paths != [] {
      SecretsForCount(libs, spec, fetched, paths[..|paths| - 1]);
    }
  }

  lemma {:induction false} SecretsForAt(libs: Libs, spec: SecretSpec, fetched: Data, paths: seq<string>, i: nat)
    requires i < |paths| == |SecretsFor(libs, spec, fetched, paths)|
    ensures SecretsFor(libs, spec, fetched, paths)[i] == SecretFor(libs, spec, fetched, paths[i])
  {
    var n := |paths| - 1;
    SecretsForCount(libs, spec, fetched, paths[..n]);
    if i < n {
      SecretsForAt(libs, spec, fetched, paths[..n], i);
    }
  }

  ghost predicate HasStar(specs: seq<SecretSpec>) {
    SpecsWant(specs, "*")
  }

  /** How many specs are `*`. */
  function StarCount(specs: seq<SecretSpec>): nat {
    if specs == [] then 0 else StarCount(specs[..|specs| - 1]) + (if specs[|specs| - 1].path == "*" then 1 else 0)
  }

  lemma {:induction false} StarsCounted(specs: seq<SecretSpec>)
    ensures StarCount(specs) == 0 <==> !HasStar(specs)
    ensures StarCount(specs) <= |specs|
  {
    if specs != [] {
      var n := |specs| - 1;
      StarsCounted(specs[..n]);
      WantOneMore(specs, n);
      assert specs[..n + 1] == specs;
    }
  }

  /** The list is as long as the specs exactly when no spec is `*` or one secret was fetched. */
  lemma {:induction false} ExpandedLength(libs: Libs, specs: seq<SecretSpec>, fetched: Data)
    ensures var n := |Expanded(libs, specs, fetched)|;
            && (|fetched| == 0 ==> n == |specs| - StarCount(specs))
            && (|fetched| == 1 ==> n == |specs|)
            && (|fetched| >= 2 ==> n >= |specs| + StarCount(specs))
            && (StarCount(specs) == 0 ==> n == |specs|)
  {
    if specs != [] {
      var n := |specs| - 1;
      ExpandedLength(libs, specs[..n], fetched);
      SecretsForCount(libs, specs[n], fetched, PathsOf(specs[n], fetched));
      PathCount(specs[n], fetched);
    }
  }

  lemma PathCount(spec: SecretSpec, fetched: Data)
    ensures |PathsOf(spec, fetched)| == if spec.path == "*" then |fetched| else 1
  {
    assert |fetched.Keys| == |fetched|;
  }

  /** The path of the one fetched secret, if there is one. */
  function OnePath(fetched: Data): string {
    var paths := SortedSeq(fetched.Keys);
    if paths == [] then "" else paths[0]
  }

  /** The path a spec reads when it reads one: its own, or for `*` that of the one secret. */
  function PathRead(spec: SecretSpec, fetched: Data): string {
    if spec.path == "*" then OnePath(fetched) else spec.path
  }

  /** Every spec stands for one secret. */
  ghost predicate OneEach(specs: seq<SecretSpec>, fetched: Data) {
    !HasStar(specs) || |fetched| == 1
  }

  /** Which is the case exactly when there are as many secrets as specs. */
  lemma OneEachIffAsMany(libs: Libs, specs: seq<SecretSpec>, fetched: Data)
    ensures OneEach(specs, fetched) <==> |Expanded(libs, specs, fetched)| == |specs|
  {
    StarsCounted(specs);
    ExpandedLength(libs, specs, fetched);
  }

  lemma OneEachParts(specs: seq<SecretSpec>, fetched: Data)
    requires OneEach(specs, fetched) && specs != []
    ensures OneEach(specs[..|specs| - 1], fetched)
    ensures PathsOf(specs[|specs| - 1], fetched) == [PathRead(specs[|specs| - 1], fetched)]
  {
    WantOneMore(specs, |specs| - 1);
    assert specs[..|specs|] == specs;
    PathCount(specs[|specs| - 1], fetched);
  }

  lemma {:induction false} ExpandedOneEach(libs: Libs, specs: seq<SecretSpec>, fetched: Data, i: nat)
    requires OneEach(specs, fetched) && i < |specs| == |Expanded(libs, specs, fetched)|
    ensures Expanded(libs, specs, fetched)[i] == SecretFor(libs, specs[i], fetched, PathRead(specs[i], fetched))
  {
    var n := |specs| - 1;
    OneEachParts(specs, fetched);
    OneEachIffAsMany(libs, specs[..n], fetched);
    if i < n {
      ExpandedOneEach(libs, specs[..n], fetched, i);
    } else {
      SecretsForAt(libs, specs[n], fetched, [PathRead(specs[n], fetched)], 0);
    }
  }

  /** Without `*` a group's list is its specs one for one: under the alias, or the path for want of
      one, the value fetched for the path, decoded if the spec asks for it. */
  lemma ExpandedAt(libs: Libs, specs: seq<SecretSpec>, fetched: Data, i: nat)
    requires !HasStar(specs) && i < |specs|
    ensures |Expanded(libs, specs, fetched)| == |specs|
    ensures var secret := Expanded(libs, specs, fetched)[i];
            && secret.alias == (if specs[i].alias == "" || specs[i].alias == "*" then specs[i].path else specs[i].alias)
            && (specs[i].path in fetched ==>
                  var value := fetched[specs[i].path];
                  secret.value == if specs[i].contentType == "base64" && libs.decodeBase64(value).Some? then libs.decodeBase64(value).value else value)
  {
    OneEachIffAsMany(libs, specs, fetched);
    ExpandedOneEach(libs, specs, fetched, i);
    assert specs[i] in specs;
  }

  /** A lone `*` lists every fetched secret once, in path order. */
  lemma StarListed(libs: Libs, spec: SecretSpec, fetched: Data, i: nat)
    requires spec.path == "*" && i < |fetched|
    ensures |Expanded(libs, [spec], fetched)| == |fetched| == |SortedSeq(fetched.Keys)|
    ensures var secret, path := Expanded(libs, [spec], fetched)[i], SortedSeq(fetched.Keys)[i];
            && path in fetched
            && secret.alias == (if spec.alias == "" || spec.alias == "*" then path else spec.alias)
            && secret.value == if spec.contentType == "base64" && libs.decodeBase64(fetched[path]).Some? then libs.decodeBase64(fetched[path]).value else fetched[path]
  {
    var paths := PathsOf(spec, fetched);
    PathCount(spec, fetched);
    SecretsForCount(libs, spec, fetched, paths);
    SecretsForAt(libs, spec, fetched, paths, i);
    assert [spec][..0] == [];
    assert Expanded(libs, [spec], fetched) == SecretsFor(libs, spec, fetched, paths);
    assert paths[i] in Elements(paths);
  }

  /** Specs are expanded one after the other. */
  lemma {:induction false} ExpandedConcat(libs: Libs, a: seq<SecretSpec>, b: seq<SecretSpec>, fetched: Data)
    ensures Expanded(libs, a + b, fetched) == Expanded(libs, a, fetched) + Expanded(libs, b, fetched)
  {
    if b == [] {
      assert a + b == a;
    } else {
      var n := |b| - 1;
      assert (a + b)[..|a + b| - 1] == a + b[..n];
      ExpandedConcat(libs, a, b[..n], fetched);
      Associate(Expanded(libs, a, fetched), Expanded(libs, b[..n], fetched), SecretsFor(libs, b[n], fetched, PathsOf(b[n], fetched)));
    }
  }

  /** Groups of one name share a list, in the order of the groups. */
  lemma {:induction false} ListForConcat(libs: Libs, a: seq<Group>, b: seq<Group>, fetched: Data, name: string)
    ensures ListFor(libs, a + b, fetched, name) == ListFor(libs, a, fetched, name) + ListFor(libs, b, fetched, name)
  {
    if b == [] {
      assert a + b == a;
    } else {
      var n := |b| - 1;
      assert (a + b)[..|a + b| - 1] == a + b[..n];
      ListForConcat(libs, a, b[..n], fetched, name);
      Associate(ListFor(libs, a, fetched, name), ListFor(libs, b[..n], fetched, name),
                if b[n].name == name then Expanded(libs, b[n].specs, fetched) else []);
    }
  }

  /** Two groups of different names do not mix, and a group alone under its name gets exactly
      its own list. */
  lemma {:induction false} OwnList(libs: Libs, groups: seq<Group>, fetched: Data, i: nat)
    requires i < |groups|
    requires forall j | 0 <= j < |groups| && j != i :: groups[j].name != groups[i].name
    ensures ListFor(libs, groups, fetched, groups[i].name) == Expanded(libs, groups[i].specs, fetched)
  {
    var n := |groups| - 1;
    if i < n {
      assert groups[..n][i] == groups[i];
      OwnList(libs, groups[..n], fetched, i);
    } else {
      NobodysList(libs, groups[..n], fetched, groups[i].name);
    }
  }

  lemma {:induction false} NobodysList(libs: Libs, groups: seq<Group>, fetched: Data, name: string)
    requires forall g | g in groups :: g.name != name
    ensures ListFor(libs, groups, fetched, name) == []
  {
    if groups != [] {
      NobodysList(libs, groups[..|groups| - 1], fetched, name);
      assert groups[|groups| - 1] in groups;
    }
  }

  // ---- the check before writing ----

  ghost predicate HasAlias(secrets: seq<TemplateSecret>, alias: string) {
    exists i | 0 <= i < |secrets| :: secrets[i].alias == alias
  }

  ghost predicate Passes(secrets: seq<TemplateSecret>, specs: seq<SecretSpec>) {
    || (|specs| == 1 && specs[0].path == "*")
    || (|secrets| == |specs| && forall spec | spec in specs :: HasAlias(secrets, spec.alias))
  }

  method ValidateSecretsAgainstSpecs(secrets: seq<TemplateSecret>, specs: seq<SecretSpec>) returns (ok: bool)
    ensures ok <==> Passes(secrets, specs)
  {
    if |specs| == 1 && specs[0].path == "*" {
      return true;
    }
    if |secrets| != |specs| {
      return false;
    }
    var aliasInSecrets: set<string> := {};
    for i := 0 to |secrets|
      invariant forall a :: a in aliasInSecrets <==> HasAlias(secrets[..i], a)
    {
      assert secrets[..i + 1] == secrets[..i] + [secrets[i]];
      assert secrets[..i + 1][i] == secrets[i];
      assert forall j | 0 <= j < i :: secrets[..i + 1][j] == secrets[..i][j];
      aliasInSecrets := aliasInSecrets + {secrets[i].alias};
    }
    assert secrets[..|secrets|] == secrets;
    var missingAliases: seq<string> := [];
    for i := 0 to |specs|
      invariant missingAliases == [] <==> forall j | 0 <= j < i :: HasAlias(secrets, specs[j].alias)
    {
      if specs[i].alias !in aliasInSecrets {
        missingAliases := missingAliases + [specs[i].alias];
      }
    }
    return missingAliases == [];
  }

  /** An alias that is kept, or one that some spec's path stands in for: the alias of a spec that
      has none or `*` is the path it reads. */
  ghost predicate UsableAlias(specs: seq<SecretSpec>, fetched: Data, alias: string) {
    || (alias != "" && alias != "*")
    || exists t :: t in specs && (t.alias == "" || t.alias == "*") && PathRead(t, fetched) == alias
  }

  ghost predicate UsableAliases(specs: seq<SecretSpec>, fetched: Data) {
    forall spec | spec in specs :: UsableAlias(specs, fetched, spec.alias)
  }

  /** What is fetched passes the check iff the group is a lone `*`, or every spec stands for one
      secret and every alias is usable. */
  lemma FetchedPasses(libs: Libs, specs: seq<SecretSpec>, fetched: Data)
    ensures Passes(Expanded(libs, specs, fetched), specs)
            <==> (|specs| == 1 && HasStar(specs)) || (OneEach(specs, fetched) && UsableAliases(specs, fetched))
  {
    OneEachIffAsMany(libs, specs, fetched);
    if OneEach(specs, fetched) {
      forall i | 0 <= i < |specs| ensures Expanded(libs, specs, fetched)[i] == SecretFor(libs, specs[i], fetched, PathRead(specs[i], fetched)) {
        ExpandedOneEach(libs, specs, fetched, i);
      }
      AliasesListed(libs, specs, fetched);
    }
  }

  /** The aliases that reach the list. */
  ghost predicate ReachesList(specs: seq<SecretSpec>, fetched: Data, alias: string) {
    exists i | 0 <= i < |specs| :: AliasFor(specs[i], PathRead(specs[i], fetched)) == alias
  }

  lemma UsableReachesList(specs: seq<SecretSpec>, fetched: Data, spec: SecretSpec)
    requires spec in specs
    ensures ReachesList(specs, fetched, spec.alias) <==> UsableAlias(specs, fetched, spec.alias)
  {
    var k :| 0 <= k < |specs| && specs[k] == spec;
    if spec.alias != "" && spec.alias != "*" {
      assert AliasFor(specs[k], PathRead(specs[k], fetched)) == spec.alias;
    } else if t :| t in specs && (t.alias == "" || t.alias == "*") && PathRead(t, fetched) == spec.alias {
      var i :| 0 <= i < |specs| && specs[i] == t;
      assert AliasFor(specs[i], PathRead(specs[i], fetched)) == spec.alias;
    }
    if i :| 0 <= i < |specs| && AliasFor(specs[i], PathRead(specs[i], fetched)) == spec.alias {
      assert specs[i] in specs;
    }
  }

  lemma AliasesListed(libs: Libs, specs: seq<SecretSpec>, fetched: Data)
    requires |Expanded(libs, specs, fetched)| == |specs|
    requires forall i | 0 <= i < |specs| :: Expanded(libs, specs, fetched)[i] == SecretFor(libs, specs[i], fetched, PathRead(specs[i], fetched))
    ensures (forall spec | spec in specs :: HasAlias(Expanded(libs, specs, fetched), spec.alias)) <==> UsableAliases(specs, fetched)
  {
    var secrets := Expanded(libs, specs, fetched);
    assert forall i | 0 <= i < |specs| :: secrets[i].alias == AliasFor(specs[i], PathRead(specs[i], fetched));
    forall spec | spec in specs ensures HasAlias(secrets, spec.alias) <==> UsableAlias(specs, fetched, spec.alias) {
      UsableReachesList(specs, fetched, spec);
      if ReachesList(specs, fetched, spec.alias) {
        var i :| 0 <= i < |specs| && AliasFor(specs[i], PathRead(specs[i], fetched)) == spec.alias;
        assert secrets[i].alias == spec.alias;
      }
    }
  }

  /** With one secret fetched, `*` beside another spec passes under an alias of its own and fails
      under the alias `*`, the default of a plain `*`. */
  lemma StarBesideAnother(libs: Libs, path: string, value: Bytes, a: string, b: string, contentType: string)
    requires path != "*" && a != "" && a != "*" && b != "" && b != "*"
    ensures var fetched: Data := map[path := value];
            var named, bare := SecretSpec(a, "*", contentType), SecretSpec("*", "*", contentType);
            var other := SecretSpec(b, path, contentType);
            && Passes(Expanded(libs, [named, other], fetched), [named, other])
            && !Passes(Expanded(libs, [bare, other], fetched), [bare, other])
  {
    var fetched: Data := map[path := value];
    var named, bare := SecretSpec(a, "*", contentType), SecretSpec("*", "*", contentType);
    var other := SecretSpec(b, path, contentType);
    SortedSeqUnique([path], fetched.Keys);
    FetchedPasses(libs, [named, other], fetched);
    FetchedPasses(libs, [bare, other], fetched);
    assert bare in [bare, other] && !UsableAlias([bare, other], fetched, "*");
  }
}
