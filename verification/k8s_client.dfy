/** The Kubernetes API as the provider sees it. Any call may fail, and a failed update leaves
    the cluster unchanged. */
module K8sClient {
  import opened Kube
  import opened Commit

  /** The label selector of the listing call. */
  predicate IsLabeled(secret: Secret) {
    MANAGED_BY_PROVIDER_KEY in secret.labels && secret.labels[MANAGED_BY_PROVIDER_KEY] == "true"
  }

  class K8sCluster {
    var secrets: Cluster

    /** How many calls have failed without a reason in the cluster itself. */
    ghost var faults: nat

    ghost predicate Valid()
      reads this`secrets
    {
      forall n | n in secrets :: secrets[n].name == n
    }

    method RetrieveK8sSecret(name: string) returns (r: Option<Secret>)
      modifies this`faults
      ensures r.Some? ==> name in secrets && r.value == secrets[name] && faults == old(faults)
      ensures r.None? ==> if name in secrets then faults > old(faults) else faults >= old(faults)
    {
      var reachable: bool := *;
      if !reachable {
        faults := faults + 1;
        return None;
      }
      return if name in secrets then Some(secrets[name]) else None;
    }

    method ListLabeledK8sSecrets() returns (r: Option<seq<Secret>>)
      modifies this`faults
      ensures r.Some? ==> NoDup(r.value) && faults == old(faults)
      ensures r.Some? ==> forall x :: x in r.value <==> exists n :: n in secrets && secrets[n] == x && IsLabeled(x)
      ensures r.None? ==> faults > old(faults)
    {
      var reachable: bool := *;
      if !reachable {
        faults := faults + 1;
        return None;
      }
      var items: seq<Secret> := [];
      var rest := set n | n in secrets && IsLabeled(secrets[n]) :: secrets[n];
      ghost var all := rest;
      while rest != {}
        invariant IsOrder(items, all - rest) && rest <= all
        decreases |rest|
      {
        var x :| x in rest;
        items, rest := items + [x], rest - {x};
      }
      return Some(items);
    }

    static method OverlayEntries(original: Data, entries: Data) returns (data: Data)
      ensures data == original + entries
    {
      data := original;
      var rest := entries.Keys;
      while rest != {}
        invariant rest <= entries.Keys
        invariant data.Keys == original.Keys + (entries.Keys - rest)
        invariant forall k | k in data :: data[k] == if k in entries && k !in rest then entries[k] else original[k]
        decreases |rest|
      {
        var k :| k in rest;
        data, rest := data[k := entries[k]], rest - {k};
      }
    }

    /** The entries are laid over the data of the original, which then replaces the Secret. */
    method UpdateK8sSecret(name: string, original: Secret, entries: Data) returns (ok: bool)
      requires Valid() && original.name == name
      modifies this
      ensures Valid()
      ensures ok ==> name in old(secrets) && secrets == old(secrets)[name := Overlaid(original, [], entries)]
      ensures !ok ==> secrets == old(secrets)
      ensures if ok then faults == old(faults) else if name in secrets then faults > old(faults) else faults >= old(faults)
    {
      var data := OverlayEntries(DataOf(original), entries);
      var reachable: bool := *;
      ok := reachable && name in secrets;
      if !reachable {
        faults := faults + 1;
      }
      if ok {
        secrets := secrets[name := original.(data := Some(data))];
        assert DataOf(original) - Elements([]) == DataOf(original);
      }
    }
  }
}
