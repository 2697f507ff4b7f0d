/** Where each Conjur variable must be written, and the index that keeps that list free of
    duplicates. The reference is a linear search over the list. */
module Destinations {
  import opened Kube

  datatype Dest = Dest(k8sSecretName: string, secretName: string, contentType: string)
  datatype DestKey = DestKey(k8sSecretName: string, secretName: string)

  type Dests = map<string, seq<Dest>>
  type Index = map<string, set<DestKey>>

  function KeyOf(d: Dest): DestKey {
    DestKey(d.k8sSecretName, d.secretName)
  }

  function KeysOf(ds: seq<Dest>): set<DestKey> {
    set d | d in ds :: KeyOf(d)
  }

  function Listed(dests: Dests, varID: string): seq<Dest> {
    if varID in dests then dests[varID] else []
  }

  predicate Occurs(ds: seq<Dest>, key: DestKey) {
    exists i | 0 <= i < |ds| :: KeyOf(ds[i]) == key
  }

  /** Linear-search append: a destination already present under its key is kept as it was. */
  function AppendOnce(ds: seq<Dest>, d: Dest): seq<Dest> {
    if Occurs(ds, KeyOf(d)) then ds else ds + [d]
  }

  function AppendTo(dests: Dests, varID: string, d: Dest): Dests {
    dests[varID := AppendOnce(Listed(dests, varID), d)]
  }

  /** appendDestination on the lists and the index: one lookup in the index decides. */
  function FastAppend(dests: Dests, index: Index, varID: string, d: Dest): (Dests, Index) {
    var known := if varID in index then index[varID] else {};
    if KeyOf(d) in known then (dests, index)
    else (dests[varID := Listed(dests, varID) + [d]], index[varID := known + {KeyOf(d)}])
  }

  /** The index says exactly what the lists say. */
  ghost predicate IndexAgrees(dests: Dests, index: Index) {
    && index.Keys == dests.Keys
    && forall v | v in dests :: index[v] == KeysOf(dests[v])
  }

  lemma OccursIsIndexed(ds: seq<Dest>, key: DestKey)
    ensures Occurs(ds, key) <==> key in KeysOf(ds)
  {
    if key in KeysOf(ds) {
      var d :| d in ds && KeyOf(d) == key;
      var i :| 0 <= i < |ds| && ds[i] == d;
      assert KeyOf(ds[i]) == key;
    }
    if Occurs(ds, key) {
      var i :| 0 <= i < |ds| && KeyOf(ds[i]) == key;
      assert ds[i] in ds;
    }
  }

  /** The fast append is the linear-search append, and keeps the index in step with the lists. */
  lemma FastAppendIsLinear(dests: Dests, index: Index, varID: string, d: Dest)
    requires IndexAgrees(dests, index)
    ensures FastAppend(dests, index, varID, d).0 == AppendTo(dests, varID, d)
    ensures IndexAgrees(FastAppend(dests, index, varID, d).0, FastAppend(dests, index, varID, d).1)
  {
    var ds := Listed(dests, varID);
    OccursIsIndexed(ds, KeyOf(d));
    assert forall e :: e in ds + [d] <==> e in ds || e == d;
    assert KeysOf(ds + [d]) == KeysOf(ds) + {KeyOf(d)};
    assert KeysOf([]) == {};
  }

  // ---- runs of appends and clears ----

  datatype Op = Append(varID: string, dest: Dest) | Clear

  /** The lists and the index after the operations, as the code maintains them. */
  ghost function Replay(ops: seq<Op>): (Dests, Index) {
    if ops == [] then (map[], map[])
    else match ops[|ops| - 1]
      case Append(v, d) =>
        var (dests, index) := Replay(ops[..|ops| - 1]);
        FastAppend(dests, index, v, d)
      case Clear => (map[], map[])
  }

  /** Everything appended for a variable since the last clear, repetitions included. */
  ghost function Appended(ops: seq<Op>, varID: string): seq<Dest> {
    if ops == [] then []
    else match ops[|ops| - 1]
      case Append(v, d) => Appended(ops[..|ops| - 1], varID) + (if v == varID then [d] else [])
      case Clear => []
  }

  /** Position `i` carries a key not seen before it. */
  predicate FirstOfItsKey(ds: seq<Dest>, i: nat)
    requires i < |ds|
  {
    !Occurs(ds[..i], KeyOf(ds[i]))
  }

  /** The subsequence of first occurrences. */
  ghost function FirstWins(ds: seq<Dest>): seq<Dest> {
    if ds == [] then []
    else FirstWins(ds[..|ds| - 1]) + (if FirstOfItsKey(ds, |ds| - 1) then [ds[|ds| - 1]] else [])
  }

  ghost predicate KeysDistinct(ds: seq<Dest>) {
    forall i, j | 0 <= i < j < |ds| :: KeyOf(ds[i]) != KeyOf(ds[j])
  }

  lemma {:induction false} FirstWinsKeys(ds: seq<Dest>)
    ensures KeysOf(FirstWins(ds)) == KeysOf(ds)
    ensures KeysDistinct(FirstWins(ds))
  {
    if ds != [] {
      var n := |ds| - 1;
      var front := ds[..n];
      assert ds == front + [ds[n]];
      FirstWinsKeys(front);
      OccursIsIndexed(front, KeyOf(ds[n]));
      var r := FirstWins(front);
      forall i | 0 <= i < |r| ensures KeyOf(r[i]) in KeysOf(r) {
        assert r[i] in r;
      }
      assert KeysOf(ds) == KeysOf(front) + {KeyOf(ds[n])} by {
        assert forall d :: d in ds <==> d in front || d == ds[n];
      }
      if FirstOfItsKey(ds, n) {
        assert forall d :: d in r + [ds[n]] <==> d in r || d == ds[n];
      }
    }
  }

  lemma FirstWinsAppend(before: seq<Dest>, d: Dest)
    ensures FirstWins(before + [d]) == AppendOnce(FirstWins(before), d)
  {
    var all := before + [d];
    assert all[..|all| - 1] == before && all[|before|] == d;
    FirstWinsKeys(before);
    OccursIsIndexed(before, KeyOf(d));
    OccursIsIndexed(FirstWins(before), KeyOf(d));
  }

  lemma {:induction false} ReplayLists(ops: seq<Op>, varID: string)
    ensures IndexAgrees(Replay(ops).0, Replay(ops).1)
    ensures Listed(Replay(ops).0, varID) == FirstWins(Appended(ops, varID))
  {
    if ops != [] {
      var front, op := ops[..|ops| - 1], ops[|ops| - 1];
      ReplayLists(front, varID);
      if op.Append? {
        var (dests, index) := Replay(front);
        FastAppendIsLinear(dests, index, op.varID, op.dest);
        if op.varID == varID {
          FirstWinsAppend(Appended(front, varID), op.dest);
        } else {
          assert Listed(Replay(ops).0, varID) == Listed(dests, varID);
          assert Appended(ops, varID) == Appended(front, varID);
        }
      }
    }
  }

  /** After any run of appends and clears the index agrees with the lists, each list is the
      first-wins dedupe of what was appended since the last clear, and no key occurs in it
      twice. */
  lemma ReplayIsFirstWins(ops: seq<Op>, varID: string)
    ensures IndexAgrees(Replay(ops).0, Replay(ops).1)
    ensures Listed(Replay(ops).0, varID) == FirstWins(Appended(ops, varID))
    ensures KeysDistinct(Listed(Replay(ops).0, varID))
  {
    ReplayLists(ops, varID);
    FirstWinsKeys(Appended(ops, varID));
  }
}
