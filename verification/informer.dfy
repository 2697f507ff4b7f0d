/** Which Kubernetes updates become events: the filter of the Secret informer. */
module Informer {
  import opened Kube
  import opened Gather

  /** `strconv.ParseBool` succeeding with true. */
  predicate ParsesTrue(s: string) {
    s in {"1", "t", "T", "TRUE", "true", "True"}
  }

  predicate HasManagedByProviderLabel(secret: Secret) {
    MANAGED_BY_PROVIDER_KEY in secret.labels && ParsesTrue(secret.labels[MANAGED_BY_PROVIDER_KEY])
  }

  predicate ConjurMapChanged(oldSecret: Secret, newSecret: Secret) {
    if oldSecret.data.None? || newSecret.data.None? then oldSecret.data.None? != newSecret.data.None?
    else Lookup(oldSecret.data.value, CONJUR_MAP_KEY) != Lookup(newSecret.data.value, CONJUR_MAP_KEY)
  }

  predicate LabelsChanged(oldSecret: Secret, newSecret: Secret) {
    HasManagedByProviderLabel(oldSecret) != HasManagedByProviderLabel(newSecret)
  }

  predicate IsRelevantAnnotation(key: string) {
    IsPrefix(SECRET_GROUP_PREFIX, key) || IsPrefix(FILE_TEMPLATE_PREFIX, key)
  }

  /** A missing annotation reads as the empty string. */
  function AnnotationOf(secret: Secret, key: string): string {
    if key in secret.annotations then secret.annotations[key] else ""
  }

  predicate RelevantAnnotationsChanged(oldSecret: Secret, newSecret: Secret) {
    exists key | key in oldSecret.annotations.Keys + newSecret.annotations.Keys ::
      IsRelevantAnnotation(key) && AnnotationOf(oldSecret, key) != AnnotationOf(newSecret, key)
  }

  /** The update is forwarded. */
  predicate Forwarded(oldSecret: Secret, newSecret: Secret) {
    && HasManagedByProviderLabel(newSecret)
    && (ConjurMapChanged(oldSecret, newSecret) || LabelsChanged(oldSecret, newSecret) || RelevantAnnotationsChanged(oldSecret, newSecret))
  }

  datatype SecretEvent =
    | Added(secret: Secret)
    | Updated(secret: Secret, oldSecret: Secret)

  class SecretInformer {
    var queue: seq<SecretEvent>
    var hasSynced: bool

    constructor ()
      ensures queue == [] && !hasSynced
    {
      queue, hasSynced := [], false;
    }

    method OnAdd(secret: Secret)
      modifies this`queue
      ensures queue == old(queue) + (if hasSynced && HasManagedByProviderLabel(secret) then [Added(secret)] else [])
    {
      if !hasSynced {
        return;
      }
      if HasManagedByProviderLabel(secret) {
        queue := queue + [Added(secret)];
      }
    }

    method OnUpdate(oldSecret: Secret, newSecret: Secret)
      modifies this`queue
      ensures queue == old(queue) + (if hasSynced && Forwarded(oldSecret, newSecret) then [Updated(newSecret, oldSecret)] else [])
    {
      if !hasSynced {
        return;
      }
      if !HasManagedByProviderLabel(newSecret) {
        return;
      }
      if ConjurMapChanged(oldSecret, newSecret) || LabelsChanged(oldSecret, newSecret) || RelevantAnnotationsChanged(oldSecret, newSecret) {
        queue := queue + [Updated(newSecret, oldSecret)];
      }
    }
  }
}
