/** The Kubernetes and Conjur values the provider works on, and the library calls it
    relies on. Library code is a field of `Libs`, so every result holds for any
    function-like YAML parser, template engine, base64 decoder and hash. */
module Kube {

  newtype byte = x: int | 0 <= x < 256
  type Bytes = seq<byte>

  datatype Option<+T> = None | Some(value: T)

  /** The `Data` field of a Secret once it is non-nil. */
  type Data = map<string, Bytes>

  /** A Secret object. `data.None?` is Go's nil map, which the informer tells apart from an
      empty one; nil labels and annotations behave as empty maps everywhere they are read. */
  datatype Secret = Secret(
    name: string,
    labels: map<string, string>,
    annotations: map<string, string>,
    data: Option<Data>)

  const CONJUR_MAP_KEY := "conjur-map"
  const MANAGED_BY_PROVIDER_KEY := "conjur.org/managed-by-provider"
  const SECRET_GROUP_PREFIX := "conjur.org/conjur-secrets."
  const FILE_TEMPLATE_PREFIX := "conjur.org/secret-file-template."

  /** One value of a parsed conjur-map: a plain variable id, a mapping with optional
      string-valued `id` and `content-type`, or anything else. */
  datatype Entry =
    | Id(id: string)
    | Mapping(varId: Option<string>, contentType: Option<string>)
    | Other

  /** What unmarshalling leaves behind: the entries decoded, and whether it succeeded. */
  datatype Yaml = Yaml(entries: map<string, Entry>, ok: bool)

  datatype SecretSpec = SecretSpec(alias: string, path: string, contentType: string)

  /** An alias and its value, as a template sees it. */
  datatype TemplateSecret = TemplateSecret(alias: string, value: Bytes)

  datatype Libs = Libs(
    hash: string -> Bytes,
    decodeBase64: Bytes -> Option<Bytes>,
    parseConjurMap: Bytes -> Yaml,
    parseSpecs: string -> Option<seq<SecretSpec>>,
    render: (string, string, seq<TemplateSecret>) -> Option<Bytes>)

  /** A nil `Data` reads as an empty map. */
  function DataOf(secret: Secret): Data {
    if secret.data.Some? then secret.data.value else map[]
  }

  /** Reading a missing key yields a nil slice, which is empty. */
  function Lookup(data: Data, key: string): Bytes {
    if key in data then data[key] else []
  }

  ghost predicate NoDup<T(!new)>(s: seq<T>) {
    forall i, j | 0 <= i < j < |s| :: s[i] != s[j]
  }

  function Elements<T(==)>(s: seq<T>): set<T> {
    set x | x in s
  }

  /** An order in which Go may range over a map with these keys. */
  ghost predicate IsOrder<T(!new)>(order: seq<T>, keys: set<T>) {
    NoDup(order) && forall x :: x in order <==> x in keys
  }

  lemma Associate<T>(a: seq<T>, b: seq<T>, c: seq<T>)
    ensures (a + b) + c == a + (b + c)
  {
  }

  lemma ElementsStep<T>(s: seq<T>, i: nat)
    requires i < |s|
    ensures Elements(s[..i + 1]) == Elements(s[..i]) + {s[i]}
  {
    assert s[..i + 1] == s[..i] + [s[i]];
  }
}
