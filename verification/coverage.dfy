/** What the provider's destinations receive when its request goes through the batch API. */
module Coverage {
  import opened Kube
  import opened Destinations
  import opened SecretData
  import opened Gather
  import opened RunSpec
  import opened Runs
  import opened ConjurRetriever

  /** Without `*`, and with Conjur answering in full, every destination and group spec finds its
      variable among the values iff every requested id is plain, and then each destination gets
      its own value. */
  lemma CoveredIffPlain(libs: Libs, sanitize: bool, originals: Originals, dests: Dests, index: Index, groups: Groups,
                        ids: seq<string>, answers: seq<Answer>, order: seq<string>)
    requires Gathered(libs, originals, dests, index, groups) && "*" !in dests && IsFetchList(ids, dests, groups)
    requires AnsweredInFull(ids, answers) && IsOrder(order, Received(answers).Keys)
    ensures (forall id | Wants(dests, groups, id) :: id in Received(answers)) <==> forall id | id in ids :: IsPlain(id)
    ensures (forall id | id in ids :: IsPlain(id)) ==>
              forall v, d | Lists(dests, v, d) && d.secretName != "*" ::
                v in Received(answers) && CreateAt(libs, sanitize, originals, dests, Received(answers), order, d.k8sSecretName, d.secretName)
                  == Some(if d.contentType == "base64" && libs.decodeBase64(Received(answers)[v]).Some? then libs.decodeBase64(Received(answers)[v]).value
                          else Received(answers)[v])
  {
    AllFoundIffPlain(ids, answers);
    if forall id | id in ids :: IsPlain(id) {
      FetchCoverage(libs, sanitize, originals, dests, index, groups, ids, Received(answers), order);
    }
  }

  /** A destination whose id comes back under another name is blanked when sanitising, and its
      own value never reaches it. */
  lemma StrippedIdIsBlanked(libs: Libs, originals: Originals, dests: Dests, ids: seq<string>, answers: seq<Answer>, order: seq<string>, v: string, d: Dest)
    requires AnsweredInFull(ids, answers) && IsOrder(order, Received(answers).Keys)
    requires Lists(dests, v, d) && d.secretName != "*" && forall id | id in ids :: NormaliseVariableId(id) != v
    ensures v !in Received(answers)
    ensures CreateAt(libs, true, originals, dests, Received(answers), order, d.k8sSecretName, d.secretName) == Some([])
  {
    ValuesFrom(answers, v);
    NormalisedAt(ids);
    assert forall p | p in Normalised(ids) :: exists i :: 0 <= i < |ids| && Normalised(ids)[i] == p && ids[i] in ids;
    assert Names(d, d.k8sSecretName, d.secretName);
  }
}
