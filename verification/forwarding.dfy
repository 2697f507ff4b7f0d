/** What the informer's filter lets through, in terms of what a run reads of a Secret. */
module Forwarding {
  import opened Kube
  import opened SecretData
  import opened Gather
  import opened Informer
  import opened K8sClient

  /** The two annotations that make up a group. */
  datatype Declaration = Declaration(specs: string, template: string)

  /** What a Secret declares for a group: nothing unless both annotations are there. */
  function Declares(secret: Secret, group: string): Option<Declaration> {
    var specs, template := "conjur.org/conjur-secrets." + group, "conjur.org/secret-file-template." + group;
    if specs in secret.annotations && template in secret.annotations
    then Some(Declaration(secret.annotations[specs], secret.annotations[template]))
    else None
  }

  /** The listing selects the label value `true`; the informer watches all that parse as true. */
  lemma ListedIsWatched(secret: Secret)
    ensures IsLabeled(secret) <==> "conjur.org/managed-by-provider" in secret.labels && secret.labels["conjur.org/managed-by-provider"] == "true"
    ensures HasManagedByProviderLabel(secret) <==>
            && "conjur.org/managed-by-provider" in secret.labels
            && secret.labels["conjur.org/managed-by-provider"] in ["1", "t", "T", "true", "TRUE", "True"]
    ensures IsLabeled(secret) ==> HasManagedByProviderLabel(secret)
  {
  }

  lemma PrefixFound(prefix: string, rest: string)
    ensures IsPrefix(prefix, prefix + rest)
  {
    assert (prefix + rest)[..|prefix|] == prefix;
  }

  /** Of a watched Secret, a changed conjur-map and a changed declaration are forwarded, and so is a
      group annotation that comes or goes with some text in it. */
  lemma EditsAreForwarded(oldSecret: Secret, newSecret: Secret, group: string)
    requires HasManagedByProviderLabel(newSecret)
    ensures "conjur-map" in DataOf(oldSecret) && "conjur-map" in DataOf(newSecret) && DataOf(oldSecret)["conjur-map"] != DataOf(newSecret)["conjur-map"]
            ==> Forwarded(oldSecret, newSecret)
    ensures Declares(oldSecret, group).Some? && Declares(newSecret, group).Some? && Declares(oldSecret, group) != Declares(newSecret, group)
            ==> Forwarded(oldSecret, newSecret)
    ensures forall key | key in ["conjur.org/conjur-secrets." + group, "conjur.org/secret-file-template." + group] ::
              && (key in oldSecret.annotations && oldSecret.annotations[key] != "" && key !in newSecret.annotations ==> Forwarded(oldSecret, newSecret))
              && (key in newSecret.annotations && newSecret.annotations[key] != "" && key !in oldSecret.annotations ==> Forwarded(oldSecret, newSecret))
  {
    PrefixFound(SECRET_GROUP_PREFIX, group);
    PrefixFound(FILE_TEMPLATE_PREFIX, group);
    assert IsRelevantAnnotation("conjur.org/conjur-secrets." + group) && IsRelevantAnnotation("conjur.org/secret-file-template." + group);
  }

  /** The annotation belongs to a group, as specs or as template. */
  predicate OfGroup(key: string, group: string) {
    key == "conjur.org/conjur-secrets." + group || key == "conjur.org/secret-file-template." + group
  }

  /** Of a Secret watched before and after, an edit that keeps the conjur-map and every annotation
      of a group is dropped. */
  lemma OtherEditsAreDropped(oldSecret: Secret, newSecret: Secret)
    requires HasManagedByProviderLabel(oldSecret) && HasManagedByProviderLabel(newSecret)
    requires oldSecret.data.None? <==> newSecret.data.None?
    requires "conjur-map" in DataOf(oldSecret) <==> "conjur-map" in DataOf(newSecret)
    requires "conjur-map" in DataOf(oldSecret) ==> DataOf(oldSecret)["conjur-map"] == DataOf(newSecret)["conjur-map"]
    requires forall key, group | OfGroup(key, group) ::
               && (key in oldSecret.annotations <==> key in newSecret.annotations)
               && (key in oldSecret.annotations ==> oldSecret.annotations[key] == newSecret.annotations[key])
    ensures !Forwarded(oldSecret, newSecret)
  {
    forall key | IsRelevantAnnotation(key) ensures AnnotationOf(oldSecret, key) == AnnotationOf(newSecret, key) {
      var group := key[if IsPrefix(SECRET_GROUP_PREFIX, key) then |SECRET_GROUP_PREFIX| else |FILE_TEMPLATE_PREFIX|..];
      assert key == SECRET_GROUP_PREFIX + group || key == FILE_TEMPLATE_PREFIX + group;
      assert OfGroup(key, group);
    }
  }

  /** Both annotations are in one state, and an empty one of them is missing in the other. */
  predicate EmptyOneMissing(secret: Secret, other: Secret, group: string) {
    var specs, template := "conjur.org/conjur-secrets." + group, "conjur.org/secret-file-template." + group;
    && specs in secret.annotations && template in secret.annotations
    && ((secret.annotations[specs] == "" && specs !in other.annotations) || (secret.annotations[template] == "" && template !in other.annotations))
  }

  /** An update dropped between two watched states keeps the conjur-map, and keeps a group's
      declaration iff neither state completes it with an empty annotation the other lacks. */
  lemma DroppedKeepsDeclarationIff(libs: Libs, oldSecret: Secret, newSecret: Secret, group: string)
    requires HasManagedByProviderLabel(newSecret) && !Forwarded(oldSecret, newSecret)
    ensures RawMap(oldSecret) == RawMap(newSecret) && MapEntries(libs, oldSecret) == MapEntries(libs, newSecret)
    ensures Declares(oldSecret, group) == Declares(newSecret, group)
            <==> !EmptyOneMissing(oldSecret, newSecret, group) && !EmptyOneMissing(newSecret, oldSecret, group)
  {
    EditsAreForwarded(oldSecret, newSecret, group);
    var specs, template := "conjur.org/conjur-secrets." + group, "conjur.org/secret-file-template." + group;
    assert specs in [specs, template] && template in [specs, template];
  }

  /** The groups a run gathers are those declared. */
  lemma DeclaredAreGathered(libs: Libs, secret: Secret, group: string, specs: seq<SecretSpec>)
    ensures Group(group, specs) in GroupSet(libs, secret)
            <==> Declares(secret, group).Some? && specs != [] && libs.parseSpecs(Declares(secret, group).value.specs) == Some(specs)
  {
    var a := "conjur.org/conjur-secrets." + group;
    PrefixFound(SECRET_GROUP_PREFIX, group);
    assert a[|SECRET_GROUP_PREFIX|..] == group;
    if x :| x in secret.annotations && NamesGroup(secret, x) && !BadGroup(libs, secret, x) && GroupOf(libs, secret, x) == Group(group, specs) {
      assert x == SECRET_GROUP_PREFIX + x[|SECRET_GROUP_PREFIX|..] == a;
    }
    if Declares(secret, group).Some? && specs != [] && libs.parseSpecs(Declares(secret, group).value.specs) == Some(specs) {
      assert GroupOf(libs, secret, a) == Group(group, specs);
    }
  }

  /** An empty template added to a watched Secret completes its group, and the update is dropped. */
  lemma EmptyTemplateGoesUnseen(libs: Libs, name: string, data: Option<Data>, group: string, text: string, specs: seq<SecretSpec>)
    requires specs != [] && libs.parseSpecs(text) == Some(specs)
    ensures var labels := map["conjur.org/managed-by-provider" := "true"];
            var annotation := "conjur.org/conjur-secrets." + group;
            var oldSecret := Secret(name, labels, map[annotation := text], data);
            var newSecret := Secret(name, labels, map[annotation := text, "conjur.org/secret-file-template." + group := ""], data);
            && !Forwarded(oldSecret, newSecret)
            && Group(group, specs) !in GroupSet(libs, oldSecret) && Group(group, specs) in GroupSet(libs, newSecret)
  {
    var labels := map["conjur.org/managed-by-provider" := "true"];
    var annotation, template := "conjur.org/conjur-secrets." + group, "conjur.org/secret-file-template." + group;
    var oldSecret := Secret(name, labels, map[annotation := text], data);
    var newSecret := Secret(name, labels, map[annotation := text, template := ""], data);
    assert annotation[12] != template[12];
    DeclaredAreGathered(libs, oldSecret, group, specs);
    DeclaredAreGathered(libs, newSecret, group, specs);
    assert forall key | key in {annotation, template} :: AnnotationOf(oldSecret, key) == AnnotationOf(newSecret, key);
  }
}
