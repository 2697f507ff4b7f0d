/** The accumulation of conjur-map keys to delete, over runs of Kubernetes updates. */
module Removal {
  import opened Kube
  import opened Commit
  import opened Destinations
  import opened Informer
  import opened Gather

  /** The keys of a Secret's conjur-map; decoding errors are ignored here. */
  function ConjurMapKeys(libs: Libs, secret: Secret): set<string> {
    if RawMap(secret) == [] then {} else libs.parseConjurMap(RawMap(secret)).entries.Keys
  }

  /** The conjur-map of the Secret is there, not empty, and has the key once parsed. */
  ghost predicate HoldsKey(libs: Libs, secret: Secret, k: string) {
    && "conjur-map" in DataOf(secret) && DataOf(secret)["conjur-map"] != []
    && k in libs.parseConjurMap(DataOf(secret)["conjur-map"]).entries
  }

  lemma KeysAreHeld(libs: Libs, secret: Secret)
    ensures forall k :: k in ConjurMapKeys(libs, secret) <==> HoldsKey(libs, secret, k)
  {
  }

  /** The key of every destination, plain or mapped, is a key of the map. */
  lemma DestinationKeyIsHeld(libs: Libs, secret: Secret, v: string, d: Dest)
    requires Contributes(libs, secret, v, d)
    ensures HoldsKey(libs, secret, d.secretName)
  {
  }

  /** The list without the members of a set, order kept. */
  function Without(list: seq<string>, gone: set<string>): seq<string> {
    if list == [] then []
    else Without(list[..|list| - 1], gone) + (if list[|list| - 1] in gone then [] else [list[|list| - 1]])
  }

  /** Keys back in the map leave the list, unless there is nothing to take out or put back. */
  function Merged(cumulative: Removals, s: string, added: set<string>): Removals {
    if added != {} && RemovalsFor(cumulative, s) != [] then cumulative[s := Without(cumulative[s], added)] else cumulative
  }

  function Extended(cumulative: Removals, s: string, removed: seq<string>): Removals {
    if removed == [] then cumulative else cumulative[s := RemovalsFor(cumulative, s) + removed]
  }

  /** What one update event does to the accumulated removals; `removed` may come in any order. */
  ghost predicate Accumulates(libs: Libs, sanitize: bool, cumulative: Removals, oldSecret: Secret, newSecret: Secret, cumulative': Removals) {
    var was, now := ConjurMapKeys(libs, oldSecret), ConjurMapKeys(libs, newSecret);
    exists removed ::
      && IsOrder(removed, if sanitize then was - now else {})
      && cumulative' == Extended(Merged(cumulative, newSecret.name, now - was), newSecret.name, removed)
  }

  datatype Step = Update(secret: Secret) | Flush

  /** The Secrets after these steps. */
  ghost function Current(initial: Cluster, steps: seq<Step>): Cluster {
    if steps == [] then initial
    else match steps[|steps| - 1]
      case Update(secret) => Current(initial, steps[..|steps| - 1])[secret.name := secret]
      case Flush => Current(initial, steps[..|steps| - 1])
  }

  /** Every key the conjur-map of `s` has held at some point since the last flush. */
  ghost function EverHeld(libs: Libs, initial: Cluster, steps: seq<Step>, s: string): set<string>
    requires s in initial
  {
    if steps == [] then ConjurMapKeys(libs, initial[s])
    else
      var before := steps[..|steps| - 1];
      CurrentKeeps(initial, before, s);
      match steps[|steps| - 1]
      case Update(secret) => EverHeld(libs, initial, before, s) + (if secret.name == s then ConjurMapKeys(libs, secret) else {})
      case Flush => ConjurMapKeys(libs, Current(initial, before)[s])
  }

  lemma {:induction false} CurrentKeeps(initial: Cluster, steps: seq<Step>, s: string)
    requires s in initial
    ensures s in Current(initial, steps)
  {
    if steps != [] {
      CurrentKeeps(initial, steps[..|steps| - 1], s);
    }
  }

  ghost predicate NoFlushFrom(steps: seq<Step>, m: nat)
    requires m <= |steps|
  {
    forall i | m <= i < |steps| :: !steps[i].Flush?
  }

  /** After the first `m` steps, with no flush since, the Secret held the key. */
  ghost predicate HeldAfter(libs: Libs, initial: Cluster, steps: seq<Step>, s: string, k: string, m: nat) {
    && m <= |steps| && NoFlushFrom(steps, m)
    && s in Current(initial, steps[..m]) && HoldsKey(libs, Current(initial, steps[..m])[s], k)
  }

  /** The keys ever held are those held after some step, the start included, that no flush
      follows. */
  lemma {:induction false} EverHeldIff(libs: Libs, initial: Cluster, steps: seq<Step>, s: string, k: string)
    requires s in initial
    ensures k in EverHeld(libs, initial, steps, s) <==> exists m :: HeldAfter(libs, initial, steps, s, k, m)
  {
    assert steps[..|steps|] == steps;
    CurrentKeeps(initial, steps, s);
    KeysAreHeld(libs, Current(initial, steps)[s]);
    if steps != [] {
      var n := |steps| - 1;
      var before := steps[..n];
      EverHeldIff(libs, initial, before, s, k);
      CurrentKeeps(initial, before, s);
      if steps[n].Update? {
        forall m: nat | m <= n ensures HeldAfter(libs, initial, steps, s, k, m) <==> HeldAfter(libs, initial, before, s, k, m) {
          assert before[..m] == steps[..m];
          assert NoFlushFrom(steps, m) <==> NoFlushFrom(before, m);
        }
        UpdateHeld(libs, initial, steps, s, k);
      } else {
        assert Current(initial, steps) == Current(initial, before);
        assert steps[n].Flush? && forall m: nat | m <= n :: !NoFlushFrom(steps, m);
        assert HeldAfter(libs, initial, steps, s, k, |steps|) <==> HoldsKey(libs, Current(initial, steps)[s], k);
      }
    } else {
      assert HeldAfter(libs, initial, steps, s, k, 0) <==> HoldsKey(libs, initial[s], k);
    }
  }

  lemma UpdateHeld(libs: Libs, initial: Cluster, steps: seq<Step>, s: string, k: string)
    requires s in initial && steps != [] && steps[|steps| - 1].Update?
    requires var before := steps[..|steps| - 1];
             && (k in EverHeld(libs, initial, before, s) <==> exists m :: HeldAfter(libs, initial, before, s, k, m))
             && (forall m: nat | m <= |before| :: HeldAfter(libs, initial, steps, s, k, m) <==> HeldAfter(libs, initial, before, s, k, m))
    ensures k in EverHeld(libs, initial, steps, s) <==> exists m :: HeldAfter(libs, initial, steps, s, k, m)
  {
    var n := |steps| - 1;
    var before := steps[..n];
    CurrentKeeps(initial, before, s);
    KeysAreHeld(libs, steps[n].secret);
    assert steps[..|steps|] == steps;
    var last := HeldAfter(libs, initial, steps, s, k, |steps|);
    assert last <==> HoldsKey(libs, Current(initial, steps)[s], k);
    if steps[n].secret.name != s && last {
      assert before[..n] == before;
      assert HeldAfter(libs, initial, before, s, k, n);
    }
  }

  /** A run: updates to Secrets, forwarded or dropped by the informer, and flushes in between.
      `sums[i]` is the accumulated map after `i` steps. */
  ghost predicate Run(libs: Libs, initial: Cluster, steps: seq<Step>, sums: seq<Removals>) {
    && |sums| == |steps| + 1 && sums[0] == map[]
    && forall i | 0 <= i < |steps| :: Stepped(libs, Current(initial, steps[..i]), steps[i], sums[i], sums[i + 1])
  }

  ghost predicate Stepped(libs: Libs, current: Cluster, step: Step, a: Removals, b: Removals) {
    match step
    case Update(secret) =>
      secret.name in current &&
      (if Forwarded(current[secret.name], secret) then Accumulates(libs, true, a, current[secret.name], secret, b) else b == a)
    case Flush => b == map[]
  }

  ghost predicate StayLabelled(initial: Cluster, steps: seq<Step>) {
    && (forall s | s in initial :: initial[s].name == s && HasManagedByProviderLabel(initial[s]))
    && (forall i | 0 <= i < |steps| && steps[i].Update? :: HasManagedByProviderLabel(steps[i].secret))
  }

  lemma {:induction false} WithoutSet(list: seq<string>, gone: set<string>)
    ensures Elements(Without(list, gone)) == Elements(list) - gone
    ensures NoDup(list) ==> NoDup(Without(list, gone))
  {
    if list != [] {
      var n := |list| - 1;
      WithoutSet(list[..n], gone);
      assert list == list[..n] + [list[n]];
      var r := Without(list[..n], gone);
      assert forall i | 0 <= i < |r| :: r[i] in Elements(r);
      SetOfAppend(list[..n], list[n]);
      SetOfAppend(r, list[n]);
      assert Without(list, gone) == if list[n] in gone then r else r + [list[n]];
    }
  }

  lemma SetOfAppend(list: seq<string>, x: string)
    ensures Elements(list + [x]) == Elements(list) + {x}
  {
  }

  /** An update the informer drops leaves the conjur-map's keys as they were. */
  lemma DroppedKeepsKeys(libs: Libs, oldSecret: Secret, newSecret: Secret)
    requires HasManagedByProviderLabel(oldSecret) && HasManagedByProviderLabel(newSecret)
    requires !Forwarded(oldSecret, newSecret)
    ensures ConjurMapKeys(libs, oldSecret) == ConjurMapKeys(libs, newSecret)
  {
  }

  /** One forwarded update: the list goes from "held before, not in the old map" to "held before
      or now, not in the new map". */
  lemma ForwardedAdjusts(libs: Libs, a: Removals, oldSecret: Secret, newSecret: Secret, b: Removals, ever: set<string>)
    requires Accumulates(libs, true, a, oldSecret, newSecret, b)
    requires ConjurMapKeys(libs, oldSecret) <= ever
    requires NoDup(RemovalsFor(a, newSecret.name)) && Elements(RemovalsFor(a, newSecret.name)) == ever - ConjurMapKeys(libs, oldSecret)
    ensures NoDup(RemovalsFor(b, newSecret.name))
    ensures Elements(RemovalsFor(b, newSecret.name)) == ever + ConjurMapKeys(libs, newSecret) - ConjurMapKeys(libs, newSecret)
  {
    var s, was, now := newSecret.name, ConjurMapKeys(libs, oldSecret), ConjurMapKeys(libs, newSecret);
    var removed :| IsOrder(removed, was - now) && b == Extended(Merged(a, s, now - was), s, removed);
    var list := RemovalsFor(a, s);
    var kept := RemovalsFor(Merged(a, s, now - was), s);
    WithoutSet(list, now - was);
    assert Elements(kept) == Elements(list) - (now - was) && NoDup(kept);
    assert RemovalsFor(b, s) == kept + removed;
    AppendDisjoint(kept, removed);
  }

  lemma AppendDisjoint(a: seq<string>, b: seq<string>)
    requires NoDup(a) && NoDup(b) && Elements(a) !! Elements(b)
    ensures NoDup(a + b) && Elements(a + b) == Elements(a) + Elements(b)
  {
    assert forall i | 0 <= i < |a| :: a[i] in Elements(a);
    assert forall i | 0 <= i < |b| :: b[i] in Elements(b);
    assert forall x :: x in a + b <==> x in a || x in b;
  }

  lemma {:induction false} CurrentIsHeld(libs: Libs, initial: Cluster, steps: seq<Step>, s: string)
    requires s in initial && forall n | n in initial :: initial[n].name == n
    ensures s in Current(initial, steps) && Current(initial, steps)[s].name == s
    ensures ConjurMapKeys(libs, Current(initial, steps)[s]) <= EverHeld(libs, initial, steps, s)
  {
    if steps != [] {
      CurrentIsHeld(libs, initial, steps[..|steps| - 1], s);
    }
  }

  // ---- when the list is right ----

  /** The list of `s` holds, once each, the keys its conjur-map has had since the last flush and
      has no longer. */
  ghost predicate Exact(libs: Libs, initial: Cluster, steps: seq<Step>, list: seq<string>, s: string)
    requires s in initial
  {
    CurrentKeeps(initial, steps, s);
    NoDup(list) && Elements(list) == EverHeld(libs, initial, steps, s) - ConjurMapKeys(libs, Current(initial, steps)[s])
  }

  /** If the informer drops the update, the map loses no key and regains none that is listed. */
  predicate Harmless(libs: Libs, oldSecret: Secret, newSecret: Secret, list: seq<string>) {
    Forwarded(oldSecret, newSecret) ||
    (ConjurMapKeys(libs, oldSecret) <= ConjurMapKeys(libs, newSecret) && ConjurMapKeys(libs, newSecret) !! Elements(list))
  }

  ghost predicate HarmlessStep(libs: Libs, current: Cluster, step: Step, list: seq<string>, s: string) {
    step.Update? && step.secret.name == s && s in current ==> Harmless(libs, current[s], step.secret, list)
  }

  ghost predicate WellNamed(initial: Cluster) {
    forall s | s in initial :: initial[s].name == s
  }

  lemma DroppedExact(was: set<string>, now: set<string>, ever: set<string>, list: seq<string>)
    requires was <= ever && Elements(list) == ever - was
    ensures Elements(list) == ever + now - now <==> was <= now && now !! Elements(list)
  {
    if Elements(list) == ever + now - now {
      forall x | x in was ensures x in now {
        assert x !in Elements(list);
      }
    }
  }

  /** A step keeps the list exact iff it is harmless. */
  lemma ExactStep(libs: Libs, initial: Cluster, steps: seq<Step>, a: Removals, b: Removals, s: string)
    requires steps != [] && s in initial && WellNamed(initial)
    requires Stepped(libs, Current(initial, steps[..|steps| - 1]), steps[|steps| - 1], a, b)
    requires Exact(libs, initial, steps[..|steps| - 1], RemovalsFor(a, s), s)
    ensures Exact(libs, initial, steps, RemovalsFor(b, s), s)
            <==> HarmlessStep(libs, Current(initial, steps[..|steps| - 1]), steps[|steps| - 1], RemovalsFor(a, s), s)
  {
    var before := steps[..|steps| - 1];
    var current := Current(initial, before);
    CurrentIsHeld(libs, initial, before, s);
    match steps[|steps| - 1]
    case Update(secret) =>
      if secret.name == s {
        if Forwarded(current[s], secret) {
          ForwardedAdjusts(libs, a, current[s], secret, b, EverHeld(libs, initial, before, s));
        } else {
          DroppedExact(ConjurMapKeys(libs, current[s]), ConjurMapKeys(libs, secret), EverHeld(libs, initial, before, s), RemovalsFor(a, s));
        }
      } else if Forwarded(current[secret.name], secret) {
        OthersKept(libs, a, current[secret.name], secret, b, s);
      }
    case Flush =>
  }

  lemma OthersKept(libs: Libs, a: Removals, oldSecret: Secret, newSecret: Secret, b: Removals, s: string)
    requires Accumulates(libs, true, a, oldSecret, newSecret, b) && s != newSecret.name
    ensures RemovalsFor(b, s) == RemovalsFor(a, s)
  {
  }

  lemma RunAt(libs: Libs, initial: Cluster, steps: seq<Step>, sums: seq<Removals>, n: nat)
    requires Run(libs, initial, steps, sums) && n < |steps|
    ensures steps[..n + 1][..n] == steps[..n]
    ensures Stepped(libs, Current(initial, steps[..n]), steps[n], sums[n], sums[n + 1])
  {
  }

  lemma {:induction false} ExactUpTo(libs: Libs, initial: Cluster, steps: seq<Step>, sums: seq<Removals>, s: string, n: nat)
    requires Run(libs, initial, steps, sums) && s in initial && WellNamed(initial) && n <= |steps|
    requires forall i | 0 <= i < n :: HarmlessStep(libs, Current(initial, steps[..i]), steps[i], RemovalsFor(sums[i], s), s)
    ensures Exact(libs, initial, steps[..n], RemovalsFor(sums[n], s), s)
  {
    if n > 0 {
      ExactUpTo(libs, initial, steps, sums, s, n - 1);
      RunAt(libs, initial, steps, sums, n - 1);
      ExactStep(libs, initial, steps[..n], sums[n - 1], sums[n], s);
    }
  }

  /** For every run of updates, labelled or not: the list of a Secret is right at every moment
      iff every update the informer drops is harmless. */
  lemma ExactIffHarmless(libs: Libs, initial: Cluster, steps: seq<Step>, sums: seq<Removals>, s: string)
    requires Run(libs, initial, steps, sums) && s in initial && WellNamed(initial)
    ensures (forall n | 0 <= n <= |steps| :: Exact(libs, initial, steps[..n], RemovalsFor(sums[n], s), s))
            <==> forall i | 0 <= i < |steps| :: HarmlessStep(libs, Current(initial, steps[..i]), steps[i], RemovalsFor(sums[i], s), s)
  {
    if forall n | 0 <= n <= |steps| :: Exact(libs, initial, steps[..n], RemovalsFor(sums[n], s), s) {
      forall i | 0 <= i < |steps| ensures HarmlessStep(libs, Current(initial, steps[..i]), steps[i], RemovalsFor(sums[i], s), s) {
        RunAt(libs, initial, steps, sums, i);
        assert Exact(libs, initial, steps[..i], RemovalsFor(sums[i], s), s);
        assert Exact(libs, initial, steps[..i + 1], RemovalsFor(sums[i + 1], s), s);
        ExactStep(libs, initial, steps[..i + 1], sums[i], sums[i + 1], s);
      }
    }
    if forall i | 0 <= i < |steps| :: HarmlessStep(libs, Current(initial, steps[..i]), steps[i], RemovalsFor(sums[i], s), s) {
      forall n | 0 <= n <= |steps| ensures Exact(libs, initial, steps[..n], RemovalsFor(sums[n], s), s) {
        ExactUpTo(libs, initial, steps, sums, s, n);
      }
    }
  }

  lemma {:induction false} LabelledThroughout(initial: Cluster, steps: seq<Step>, s: string)
    requires StayLabelled(initial, steps) && s in initial
    ensures s in Current(initial, steps) && HasManagedByProviderLabel(Current(initial, steps)[s])
  {
    if steps != [] {
      LabelledThroughout(initial, steps[..|steps| - 1], s);
    }
  }

  /** An update to a labelled Secret that stays labelled is harmless to an exact list. */
  lemma LabelledIsHarmless(libs: Libs, initial: Cluster, steps: seq<Step>, secret: Secret, list: seq<string>, s: string)
    requires s in initial && Exact(libs, initial, steps, list, s) && s in Current(initial, steps)
    requires HasManagedByProviderLabel(Current(initial, steps)[s]) && HasManagedByProviderLabel(secret)
    ensures Harmless(libs, Current(initial, steps)[s], secret, list)
  {
    if !Forwarded(Current(initial, steps)[s], secret) {
      DroppedKeepsKeys(libs, Current(initial, steps)[s], secret);
    }
  }

  /** After any run of updates to Secrets that stay labelled, the accumulated list of a Secret is
      free of duplicates and holds exactly the keys its conjur-map has had since the last flush
      and has no longer, although the informer dropped part of the updates. */
  lemma {:induction false} AccumulatesExactly(libs: Libs, initial: Cluster, steps: seq<Step>, sums: seq<Removals>, s: string)
    requires Run(libs, initial, steps, sums) && StayLabelled(initial, steps) && s in initial
    ensures s in Current(initial, steps) && HasManagedByProviderLabel(Current(initial, steps)[s])
    ensures var list := RemovalsFor(sums[|steps|], s);
            && NoDup(list)
            && Elements(list) == EverHeld(libs, initial, steps, s) - ConjurMapKeys(libs, Current(initial, steps)[s])
  {
    LabelledThroughout(initial, steps, s);
    if steps != [] {
      var n := |steps| - 1;
      var before := steps[..n];
      assert Run(libs, initial, before, sums[..|sums| - 1]) by {
        assert forall i | 0 <= i < n :: before[..i] == steps[..i];
      }
      AccumulatesExactly(libs, initial, before, sums[..|sums| - 1], s);
      RunAt(libs, initial, steps, sums, n);
      if steps[n].Update? && steps[n].secret.name == s {
        LabelledIsHarmless(libs, initial, before, steps[n].secret, RemovalsFor(sums[n], s), s);
      }
      assert steps[..n + 1] == steps;
      ExactStep(libs, initial, steps, sums[n], sums[n + 1], s);
    }
  }

  /** The label matters. Keys dropped from the map while the Secret was unlabelled are never
      listed: two updates, one that takes the label off and one that puts it back with the map
      unchanged, leave the list empty, so it is right iff no key went away in between. */
  lemma UnlabelledGap(libs: Libs, initial: Cluster, off: Secret, on: Secret, sums: seq<Removals>, s: string)
    requires s in initial && off.name == on.name == s
    requires HasManagedByProviderLabel(initial[s]) && !HasManagedByProviderLabel(off) && HasManagedByProviderLabel(on)
    requires ConjurMapKeys(libs, off) == ConjurMapKeys(libs, on)
    requires Run(libs, initial, [Update(off), Update(on)], sums)
    ensures RemovalsFor(sums[2], s) == []
    ensures Elements(RemovalsFor(sums[2], s)) == EverHeld(libs, initial, [Update(off), Update(on)], s) - ConjurMapKeys(libs, on)
            <==> ConjurMapKeys(libs, initial[s]) <= ConjurMapKeys(libs, on)
  {
    var steps := [Update(off), Update(on)];
    assert steps[..0] == [] && steps[..1] == [Update(off)];
    RunAt(libs, initial, steps, sums, 0);
    RunAt(libs, initial, steps, sums, 1);
    OffThenOn(initial, off, s);
    assert sums[1] == map[];
    NothingNewListed(libs, off, on, sums[1], sums[2]);
    HeldTwice(libs, initial, off, on, s);
    var was, now := ConjurMapKeys(libs, initial[s]), ConjurMapKeys(libs, on);
    assert EverHeld(libs, initial, steps, s) - now == was - now;
    NothingLost(was, now);
  }

  lemma OffThenOn(initial: Cluster, off: Secret, s: string)
    requires s in initial && off.name == s
    ensures Current(initial, []) == initial && Current(initial, [Update(off)]) == initial[s := off]
  {
    assert [Update(off)][..0] == [];
  }

  /** An update that leaves the keys as they were leaves the list as it was. */
  lemma NothingNewListed(libs: Libs, off: Secret, on: Secret, a: Removals, b: Removals)
    requires ConjurMapKeys(libs, off) == ConjurMapKeys(libs, on)
    requires if Forwarded(off, on) then Accumulates(libs, true, a, off, on, b) else b == a
    ensures RemovalsFor(b, on.name) == RemovalsFor(a, on.name)
  {
    if Forwarded(off, on) {
      var keys := ConjurMapKeys(libs, on);
      assert keys - keys == {};
      var removed :| IsOrder(removed, {}) && b == Extended(Merged(a, on.name, {}), on.name, removed);
      SomeMember(removed);
    }
  }

  /** A forwarded update that drops a key lists it. */
  lemma DroppedKeyListed(libs: Libs, oldSecret: Secret, newSecret: Secret, b: Removals, key: string)
    requires Accumulates(libs, true, map[], oldSecret, newSecret, b)
    requires key in ConjurMapKeys(libs, oldSecret) && key !in ConjurMapKeys(libs, newSecret)
    ensures key in RemovalsFor(b, newSecret.name)
  {
    var was, now := ConjurMapKeys(libs, oldSecret), ConjurMapKeys(libs, newSecret);
    var removed :| IsOrder(removed, was - now) && b == Extended(Merged(map[], newSecret.name, now - was), newSecret.name, removed);
    assert key in removed;
  }

  /** And a live key may stay listed: dropped from the map under the label and put back without
      it, it is in the map again and in the list still. */
  lemma LiveKeyStaysListed(libs: Libs, initial: Cluster, less: Secret, off: Secret, on: Secret, sums: seq<Removals>, s: string, key: string)
    requires s in initial && less.name == off.name == on.name == s
    requires Forwarded(initial[s], less) && !HasManagedByProviderLabel(off) && HasManagedByProviderLabel(on)
    requires key in ConjurMapKeys(libs, initial[s]) && key !in ConjurMapKeys(libs, less)
    requires key in ConjurMapKeys(libs, off) && ConjurMapKeys(libs, off) == ConjurMapKeys(libs, on)
    requires Run(libs, initial, [Update(less), Update(off), Update(on)], sums)
    ensures key in RemovalsFor(sums[3], s) && key in ConjurMapKeys(libs, on)
  {
    var steps := [Update(less), Update(off), Update(on)];
    assert steps[..0] == [] && steps[..1] == [Update(less)] && steps[..2] == [Update(less), Update(off)];
    RunAt(libs, initial, steps, sums, 0);
    RunAt(libs, initial, steps, sums, 1);
    RunAt(libs, initial, steps, sums, 2);
    OffThenOn(initial, less, s);
    assert Current(initial, steps[..2]) == initial[s := less][s := off];
    DroppedKeyListed(libs, initial[s], less, sums[1], key);
    NothingNewListed(libs, off, on, sums[2], sums[3]);
  }

  lemma SomeMember(list: seq<string>)
    ensures list != [] ==> exists x :: x in list
  {
    if list != [] {
      assert list[0] in list;
    }
  }

  lemma NothingLost(a: set<string>, b: set<string>)
    ensures a - b == {} <==> a <= b
  {
    if a - b == {} {
      forall x | x in a ensures x in b {
        assert x !in a - b;
      }
    }
  }

  lemma HeldTwice(libs: Libs, initial: Cluster, off: Secret, on: Secret, s: string)
    requires s in initial && off.name == on.name == s
    ensures EverHeld(libs, initial, [Update(off), Update(on)], s) == ConjurMapKeys(libs, initial[s]) + ConjurMapKeys(libs, off) + ConjurMapKeys(libs, on)
  {
    assert [Update(off), Update(on)][..1] == [Update(off)] && [Update(off)][..0] == [];
    assert EverHeld(libs, initial, [Update(off)], s) == EverHeld(libs, initial, [], s) + ConjurMapKeys(libs, off);
  }
}
