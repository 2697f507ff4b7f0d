/** Fetching variables from Conjur: paging through everything visible, and the id formats on
    the way to the batch API and back. */
module ConjurRetriever {
  import opened Kube

  const PAGE := 100

  // ---- pagination ----

  /** What the server returns for one page. */
  function Page(all: seq<string>, offset: nat, limit: nat): seq<string> {
    if offset >= |all| then []
    else if offset + limit <= |all| then all[offset..offset + limit]
    else all[offset..]
  }

  /** The resources visible to the host; any request may fail. */
  class ConjurServer {
    const all: seq<string>

    /** How many requests have failed. */
    ghost var faults: nat

    constructor (all: seq<string>)
      ensures this.all == all && faults == 0
    {
      this.all, faults := all, 0;
    }

    method Resources(limit: nat, offset: nat) returns (r: Option<seq<string>>)
      modifies this`faults
      ensures r.Some? ==> r.value == Page(all, offset, limit) && faults == old(faults)
      ensures r.None? ==> faults == old(faults) + 1
    {
      var reachable: bool := *;
      if !reachable {
        faults := faults + 1;
        return None;
      }
      return Some(Page(all, offset, limit));
    }
  }

  /** Whole pages up to the cap, and at least one. */
  function Cutoff(cap: int): nat {
    if cap <= 0 then PAGE else PAGE * ((cap + PAGE - 1) / PAGE)
  }

  function AtMost<T>(s: seq<T>, n: nat): seq<T> {
    if |s| <= n then s else s[..n]
  }

  /** Exactly the first resources in order, cut off at the end of the page that reaches the cap,
      unless a request failed. */
  method ListResourcePaths(server: ConjurServer, fetchAllMaxSecrets: int) returns (paths: Option<seq<string>>)
    modifies server`faults
    ensures if paths.Some? then server.faults == old(server.faults) else server.faults > old(server.faults)
    ensures paths.Some? ==> paths.value == AtMost(server.all, Cutoff(fetchAllMaxSecrets))
  {
    var list: seq<string> := [];
    var offset := 0;
    while true
      invariant 0 <= offset <= |server.all| && offset % PAGE == 0
      invariant list == server.all[..offset]
      invariant offset == 0 || offset < fetchAllMaxSecrets
      invariant server.faults == old(server.faults)
      decreases |server.all| - offset
    {
      var resources := server.Resources(PAGE, offset);
      if resources.None? {
        return None;
      }
      list := list + resources.value;
      if |resources.value| < PAGE {
        CutoffCovers(fetchAllMaxSecrets, offset, |server.all|);
        assert list == server.all;
        break;
      }
      if |list| >= fetchAllMaxSecrets {
        CutoffReached(fetchAllMaxSecrets, offset);
        assert list == server.all[..offset + PAGE];
        break;
      }
      offset := offset + PAGE;
    }
    return Some(list);
  }

  /** A short page ends within the cutoff. */
  lemma CutoffCovers(cap: int, offset: nat, total: nat)
    requires offset % PAGE == 0 && (offset == 0 || offset < cap) && offset <= total < offset + PAGE
    ensures total <= Cutoff(cap)
  {
    PagesAbove(cap, offset);
  }

  /** The first full page to reach the cap ends exactly at the cutoff. */
  lemma CutoffReached(cap: int, offset: nat)
    requires offset % PAGE == 0 && (offset == 0 || offset < cap) && offset + PAGE >= cap
    ensures Cutoff(cap) == offset + PAGE
  {
    PagesAbove(cap, offset);
  }

  lemma PagesAbove(cap: int, offset: nat)
    requires offset % PAGE == 0 && (offset == 0 || offset < cap)
    ensures Cutoff(cap) >= offset + PAGE
    ensures offset + PAGE >= cap ==> Cutoff(cap) == offset + PAGE
  {
    var k := offset / PAGE;
    assert offset == PAGE * k;
    if cap > 0 {
      var q := (cap + PAGE - 1) / PAGE;
      assert PAGE * q <= cap + PAGE - 1 < PAGE * q + PAGE;
    }
  }

  /** For a positive cap fewer than a page more than the cap is collected, and all of it when it
      fits. */
  lemma CutoffBounds(cap: int, all: seq<string>)
    requires cap > 0
    ensures cap <= Cutoff(cap) < cap + 100 && Cutoff(cap) % 100 == 0
    ensures |AtMost(all, Cutoff(cap))| < cap + 100
    ensures |all| <= cap ==> AtMost(all, Cutoff(cap)) == all
  {
    var q := (cap + PAGE - 1) / PAGE;
    assert PAGE * q <= cap + PAGE - 1 < PAGE * q + PAGE;
  }

  // ---- variable ids ----

  /** What follows the first colon. */
  function AfterColon(s: string): Option<string> {
    if s == "" then None
    else if s[0] == ':' then Some(s[1..])
    else AfterColon(s[1..])
  }

  /** normaliseVariableId and normalizeVariableIdForV2: the last part of a three-way split on
      colons, or the id itself when it has fewer than two. */
  function NormaliseVariableId(id: string): string {
    match AfterColon(id)
    case None => id
    case Some(rest) =>
      match AfterColon(rest)
      case None => id
      case Some(path) => path
  }

  function Colons(s: string): nat {
    if s == "" then 0 else (if s[0] == ':' then 1 else 0) + Colons(s[1..])
  }

  /** The id needs no stripping. */
  predicate IsPlain(id: string) {
    Colons(id) < 2
  }

  lemma {:induction false} AfterColonCounts(s: string)
    ensures AfterColon(s).Some? <==> Colons(s) > 0
    ensures AfterColon(s).Some? ==> Colons(AfterColon(s).value) == Colons(s) - 1 && |AfterColon(s).value| < |s|
  {
    if s != "" { AfterColonCounts(s[1..]); }
  }

  lemma {:induction false} AfterColonSkips(head: string, rest: string)
    requires ':' !in head
    ensures AfterColon(head + ":" + rest) == Some(rest)
  {
    if head == "" {
      assert (head + ":" + rest)[1..] == rest;
    } else {
      assert (head + ":" + rest)[1..] == head[1..] + ":" + rest;
      AfterColonSkips(head[1..], rest);
    }
  }

  /** A full id is cut to its path. */
  lemma FullIdToPath(account: string, kind: string, path: string)
    requires ':' !in account && ':' !in kind
    ensures NormaliseVariableId(account + ":" + (kind + ":" + path)) == path
  {
    AfterColonSkips(account, kind + ":" + path);
    AfterColonSkips(kind, path);
  }

  /** Two colons are cut off an id that has them. */
  lemma StripsTwoColons(id: string)
    ensures if IsPlain(id) then NormaliseVariableId(id) == id
            else |NormaliseVariableId(id)| < |id| && Colons(NormaliseVariableId(id)) == Colons(id) - 2
  {
    AfterColonCounts(id);
    if AfterColon(id).Some? {
      AfterColonCounts(AfterColon(id).value);
    }
  }

  /** An id is its own normal form iff it has fewer than two colons. Normalising twice is
      harmless iff it has fewer than four or, put differently, its path fewer than two. */
  lemma NormaliseTwice(id: string)
    ensures NormaliseVariableId(id) == id <==> Colons(id) < 2
    ensures NormaliseVariableId(NormaliseVariableId(id)) == NormaliseVariableId(id) <==> Colons(id) < 4
  {
    StripsTwoColons(id);
    StripsTwoColons(NormaliseVariableId(id));
  }

  // ---- batch retrieval ----

  /** One secret of a batch response. */
  datatype Answer = Answer(id: string, ok: bool, value: Bytes)

  /** The values of the successful answers, the last one for an id. */
  function Received(answers: seq<Answer>): Data {
    if answers == [] then map[]
    else
      var a := answers[|answers| - 1];
      var before := Received(answers[..|answers| - 1]);
      if a.ok then before[a.id := a.value] else before
  }

  function Normalised(ids: seq<string>): seq<string> {
    if ids == [] then [] else Normalised(ids[..|ids| - 1]) + [NormaliseVariableId(ids[|ids| - 1])]
  }

  /** The id each stripped one was asked by; of several the last. */
  function OriginalsOf(ids: seq<string>): map<string, string> {
    if ids == [] then map[]
    else OriginalsOf(ids[..|ids| - 1])[NormaliseVariableId(ids[|ids| - 1]) := ids[|ids| - 1]]
  }

  /** The id an answer is filed under: the one it was asked by, or its own when nobody asked. */
  function FiledUnder(originals: map<string, string>, id: string): string {
    if id in originals && originals[id] != "" then originals[id] else id
  }

  function Filed(answers: seq<Answer>, originals: map<string, string>): Data {
    if answers == [] then map[]
    else
      var a := answers[|answers| - 1];
      var before := Filed(answers[..|answers| - 1], originals);
      if a.ok then before[FiledUnder(originals, a.id) := a.value] else before
  }

  /** The answer is a success filed under this id. */
  predicate FilesUnder(originals: map<string, string>, a: Answer, id: string) {
    a.ok && FiledUnder(originals, a.id) == id
  }

  lemma {:induction false} OriginalsNormalise(ids: seq<string>)
    ensures forall p :: p in OriginalsOf(ids) <==> p in Normalised(ids)
    ensures forall p | p in OriginalsOf(ids) :: NormaliseVariableId(OriginalsOf(ids)[p]) == p
  {
    if ids != [] {
      OriginalsNormalise(ids[..|ids| - 1]);
    }
  }

  lemma {:induction false} NormalisedAt(ids: seq<string>)
    ensures |Normalised(ids)| == |ids| && forall i | 0 <= i < |ids| :: Normalised(ids)[i] == NormaliseVariableId(ids[i])
  {
    if ids != [] {
      NormalisedAt(ids[..|ids| - 1]);
    }
  }

  /** Ids are stripped for the request and restored on the answers. */
  method RetrieveBatchSecretsV2(variableIDs: seq<string>, server: seq<string> -> Option<seq<Answer>>) returns (secrets: Option<Data>)
    ensures var response := server(Normalised(variableIDs));
            && (secrets.None? <==> response.None? || Filed(response.value, OriginalsOf(variableIDs)) == map[])
            && (secrets.Some? ==> secrets.value == Filed(response.value, OriginalsOf(variableIDs)))
  {
    var ids: seq<string>, originals: map<string, string> := [], map[];
    for i := 0 to |variableIDs|
      invariant ids == Normalised(variableIDs[..i]) && originals == OriginalsOf(variableIDs[..i])
    {
      assert variableIDs[..i + 1][..i] == variableIDs[..i];
      var id := NormaliseVariableId(variableIDs[i]);
      ids := ids + [id];
      originals := originals[id := variableIDs[i]];
    }
    assert variableIDs[..|variableIDs|] == variableIDs;
    var response := server(ids);
    if response.None? {
      return None;
    }
    var restored := Restore(response.value, originals);
    return if restored == map[] then None else Some(restored);
  }

  method Restore(answers: seq<Answer>, originals: map<string, string>) returns (secrets: Data)
    ensures secrets == Filed(answers, originals)
  {
    secrets := map[];
    for i := 0 to |answers|
      invariant secrets == Filed(answers[..i], originals)
    {
      assert answers[..i + 1][..i] == answers[..i];
      if answers[i].ok {
        var original := if answers[i].id in originals then originals[answers[i].id] else "";
        if original == "" {
          original := answers[i].id;
        }
        secrets := secrets[original := answers[i].value];
      }
    }
    assert answers[..|answers|] == answers;
  }

  /** The filed ids are those of the successes, each with the value of one of them. */
  lemma {:induction false} FiledFrom(answers: seq<Answer>, originals: map<string, string>, id: string)
    ensures id in Filed(answers, originals) <==> exists a :: a in answers && FilesUnder(originals, a, id)
    ensures id in Filed(answers, originals) ==> exists a :: a in answers && FilesUnder(originals, a, id) && a.value == Filed(answers, originals)[id]
  {
    if answers != [] {
      var n := |answers| - 1;
      FiledFrom(answers[..n], originals, id);
      assert answers[n] in answers;
      assert forall a :: a in answers <==> a in answers[..n] || a == answers[n];
    }
  }

  ghost predicate OnlyAsked(answers: seq<Answer>, ids: seq<string>) {
    forall a | a in answers :: a.id in ids
  }

  /** When only asked ids are answered, filing loses nothing: the values can be found under the
      ids they were asked by and under no others. */
  lemma {:induction false} FiledIsValues(answers: seq<Answer>, originals: map<string, string>)
    requires forall a | a in answers :: a.id in originals
    requires forall p | p in originals :: NormaliseVariableId(originals[p]) == p
    ensures forall p | p in Received(answers) ::
              p in originals && originals[p] in Filed(answers, originals) && Filed(answers, originals)[originals[p]] == Received(answers)[p]
    ensures forall id | id in Filed(answers, originals) :: NormaliseVariableId(id) in Received(answers) && originals[NormaliseVariableId(id)] == id
  {
    if answers != [] {
      var n := |answers| - 1;
      assert answers[n] in answers;
      FiledIsValues(answers[..n], originals);
      FileOne(answers[..n], answers[n], originals);
      assert answers == answers[..n] + [answers[n]];
    }
  }

  lemma FileOne(before: seq<Answer>, a: Answer, originals: map<string, string>)
    requires a.id in originals && forall p | p in originals :: NormaliseVariableId(originals[p]) == p
    requires forall p | p in Received(before) ::
               p in originals && originals[p] in Filed(before, originals) && Filed(before, originals)[originals[p]] == Received(before)[p]
    requires forall id | id in Filed(before, originals) :: NormaliseVariableId(id) in Received(before) && originals[NormaliseVariableId(id)] == id
    ensures forall p | p in Received(before + [a]) ::
              p in originals && originals[p] in Filed(before + [a], originals) && Filed(before + [a], originals)[originals[p]] == Received(before + [a])[p]
    ensures forall id | id in Filed(before + [a], originals) :: NormaliseVariableId(id) in Received(before + [a]) && originals[NormaliseVariableId(id)] == id
  {
    assert (before + [a])[..|before|] == before;
    assert originals[a.id] == "" ==> a.id == "";
  }

  /** Full ids back to paths, in map order. */
  method NormaliseKeys(byFullId: Data) returns (secrets: Data)
    ensures forall id | id in byFullId :: NormaliseVariableId(id) in secrets
    ensures forall p | p in secrets :: exists id :: id in byFullId && NormaliseVariableId(id) == p && byFullId[id] == secrets[p]
  {
    secrets := map[];
    var rest := byFullId.Keys;
    while rest != {}
      invariant rest <= byFullId.Keys
      invariant forall id | id in byFullId && id !in rest :: NormaliseVariableId(id) in secrets
      invariant forall p | p in secrets :: exists id :: id in byFullId && NormaliseVariableId(id) == p && byFullId[id] == secrets[p]
      decreases |rest|
    {
      var id :| id in rest;
      secrets := secrets[NormaliseVariableId(id) := byFullId[id]];
      rest := rest - {id};
    }
  }

  /** The answer is a success that comes back under this path. */
  predicate ComesBackAs(ids: seq<string>, a: Answer, p: string) {
    a.ok && NormaliseVariableId(FiledUnder(OriginalsOf(ids), a.id)) == p
  }

  /** Whatever mixture of id formats was asked for, what comes back is keyed by path and each
      value is that of an answer for the path. If only asked ids are answered, it is exactly the
      successful answers with their own values. */
  method RetrieveConjurSecrets(variableIDs: seq<string>, server: seq<string> -> Option<seq<Answer>>) returns (secrets: Option<Data>)
    ensures var response := server(Normalised(variableIDs));
            && (secrets.None? <==> variableIDs == [] || response.None? || forall a | a in response.value :: !a.ok)
            && (secrets.Some? ==>
                  && (forall p :: p in secrets.value <==> exists a :: a in response.value && ComesBackAs(variableIDs, a, p))
                  && (forall p | p in secrets.value :: exists a :: a in response.value && ComesBackAs(variableIDs, a, p) && a.value == secrets.value[p])
                  && (OnlyAsked(response.value, Normalised(variableIDs)) ==> secrets.value == Received(response.value)))
  {
    if variableIDs == [] {
      return None;
    }
    var byFullId := RetrieveBatchSecretsV2(variableIDs, server);
    ghost var response := server(Normalised(variableIDs));
    ghost var originals := OriginalsOf(variableIDs);
    if response.Some? {
      SomethingFiled(response.value, originals);
    }
    if byFullId.None? {
      return None;
    }
    var result := NormaliseKeys(byFullId.value);
    PathsFrom(response.value, variableIDs, result);
    if OnlyAsked(response.value, Normalised(variableIDs)) {
      AskedComeBack(response.value, variableIDs, result);
    }
    return Some(result);
  }

  lemma SomethingFiled(answers: seq<Answer>, originals: map<string, string>)
    ensures Filed(answers, originals) == map[] <==> forall a | a in answers :: !a.ok
  {
    forall a | a in answers && a.ok ensures FiledUnder(originals, a.id) in Filed(answers, originals) {
      FiledFrom(answers, originals, FiledUnder(originals, a.id));
      assert FilesUnder(originals, a, FiledUnder(originals, a.id));
    }
    if id :| id in Filed(answers, originals).Keys {
      FiledFrom(answers, originals, id);
    }
  }

  /** The keys and values of a filed map once its ids are cut to paths. */
  ghost predicate CutFrom(filed: Data, result: Data) {
    && (forall id | id in filed :: NormaliseVariableId(id) in result)
    && (forall p | p in result :: exists id :: id in filed && NormaliseVariableId(id) == p && filed[id] == result[p])
  }

  lemma PathHasAnswer(answers: seq<Answer>, ids: seq<string>, result: Data, p: string)
    requires CutFrom(Filed(answers, OriginalsOf(ids)), result) && p in result
    ensures exists a :: a in answers && ComesBackAs(ids, a, p) && a.value == result[p]
  {
    var originals := OriginalsOf(ids);
    var id :| id in Filed(answers, originals) && NormaliseVariableId(id) == p && Filed(answers, originals)[id] == result[p];
    FiledFrom(answers, originals, id);
    var a :| a in answers && FilesUnder(originals, a, id) && a.value == Filed(answers, originals)[id];
    assert ComesBackAs(ids, a, p);
  }

  lemma AnswerHasPath(answers: seq<Answer>, ids: seq<string>, result: Data, a: Answer, p: string)
    requires CutFrom(Filed(answers, OriginalsOf(ids)), result) && a in answers && ComesBackAs(ids, a, p)
    ensures p in result
  {
    FiledFrom(answers, OriginalsOf(ids), FiledUnder(OriginalsOf(ids), a.id));
    assert FilesUnder(OriginalsOf(ids), a, FiledUnder(OriginalsOf(ids), a.id));
  }

  lemma AskedComeBack(answers: seq<Answer>, ids: seq<string>, result: Data)
    requires CutFrom(Filed(answers, OriginalsOf(ids)), result) && OnlyAsked(answers, Normalised(ids))
    ensures result == Received(answers)
  {
    OriginalsNormalise(ids);
    FiledIsValues(answers, OriginalsOf(ids));
    assert forall p | p in Received(answers) :: p in result;
  }

  lemma PathsFrom(answers: seq<Answer>, ids: seq<string>, result: Data)
    requires CutFrom(Filed(answers, OriginalsOf(ids)), result)
    ensures forall p :: p in result <==> exists a :: a in answers && ComesBackAs(ids, a, p)
    ensures forall p | p in result :: exists a :: a in answers && ComesBackAs(ids, a, p) && a.value == result[p]
  {
    forall p | p in result ensures exists a :: a in answers && ComesBackAs(ids, a, p) && a.value == result[p] {
      PathHasAnswer(answers, ids, result, p);
    }
    forall p, a | a in answers && ComesBackAs(ids, a, p) ensures p in result {
      AnswerHasPath(answers, ids, result, a, p);
    }
  }

  // ---- what a full answer covers ----

  /** Every stripped id is answered with success, and nothing else. */
  ghost predicate AnsweredInFull(ids: seq<string>, answers: seq<Answer>) {
    && OnlyAsked(answers, Normalised(ids))
    && forall p | p in Normalised(ids) :: exists a :: a in answers && a.ok && a.id == p
  }

  lemma {:induction false} ValuesFrom(answers: seq<Answer>, p: string)
    ensures p in Received(answers) <==> exists a :: a in answers && a.ok && a.id == p
  {
    if answers != [] {
      var n := |answers| - 1;
      ValuesFrom(answers[..n], p);
      assert answers[n] in answers;
      assert forall a :: a in answers <==> a in answers[..n] || a == answers[n];
    }
  }

  /** An id of these that is not plain has an own value only through a longer one that is cut to
      it, which is not plain either: following them up must end. */
  lemma {:induction false} LongestIsMissing(ids: seq<string>, id: string, bound: nat) returns (missing: string)
    requires id in ids && !IsPlain(id) && |id| <= bound
    requires forall x | x in ids :: |x| <= bound
    ensures missing in ids && !IsPlain(missing) && forall x | x in ids :: NormaliseVariableId(x) != missing
    decreases bound - |id|
  {
    if longer :| longer in ids && NormaliseVariableId(longer) == id {
      StripsTwoColons(longer);
      missing := LongestIsMissing(ids, longer, bound);
    } else {
      missing := id;
    }
  }

  lemma {:induction false} LengthBound(ids: seq<string>) returns (bound: nat)
    ensures forall x | x in ids :: |x| <= bound
  {
    if ids == [] {
      bound := 0;
    } else {
      var n := |ids| - 1;
      var b := LengthBound(ids[..n]);
      bound := if |ids[n]| > b then |ids[n]| else b;
      assert forall x | x in ids :: x in ids[..n] || x == ids[n];
    }
  }

  /** A full answer has a value under every id that was asked for iff all of them are plain. */
  lemma AllFoundIffPlain(ids: seq<string>, answers: seq<Answer>)
    requires AnsweredInFull(ids, answers)
    ensures (forall id | id in ids :: id in Received(answers)) <==> forall id | id in ids :: IsPlain(id)
  {
    NormalisedAt(ids);
    forall p ensures p in Received(answers) <==> exists x :: x in ids && NormaliseVariableId(x) == p {
      ValuesFrom(answers, p);
      if x :| x in ids && NormaliseVariableId(x) == p {
        var i :| 0 <= i < |ids| && ids[i] == x;
        assert Normalised(ids)[i] == p;
      }
      if p in Normalised(ids) {
        var i :| 0 <= i < |ids| && Normalised(ids)[i] == p;
        assert ids[i] in ids;
      }
    }
    forall id | id in ids && IsPlain(id) ensures id in Received(answers) {
      StripsTwoColons(id);
    }
    if id :| id in ids && !IsPlain(id) {
      var bound := LengthBound(ids);
      var missing := LongestIsMissing(ids, id, bound);
      assert missing !in Received(answers);
    }
  }
}
