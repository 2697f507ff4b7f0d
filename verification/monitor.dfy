/** The mutex of the provider under every interleaving of goroutines: the periodic one, the
    informer's, or any number of them. */
module Monitor {
  import opened Kube
  import opened Destinations
  import opened SecretData
  import opened Gather

  /** What `mu` protects. */
  datatype Shared = Shared(originals: Originals, dests: Dests, index: Index, groups: Groups)

  const EMPTY := Shared(map[], map[], map[], map[])

  datatype State = State(holder: Option<nat>, shared: Shared)

  /** What a goroutine does to the shared fields inside a run. */
  datatype Action =
    | Fetch(secret: Secret)
    | Append(secret: Secret, varID: string, dest: Dest)
    | AddGroups(secret: Secret, groups: seq<Group>)
    | Skip(name: string)

  datatype Step = Lock(t: nat) | Act(t: nat, action: Action) | Unlock(t: nat)

  /** A goroutine works on Secrets it has recorded. */
  ghost predicate Allowed(libs: Libs, shared: Shared, action: Action) {
    match action
    case Append(secret, varID, dest) =>
      && secret.name in shared.originals && shared.originals[secret.name] == secret
      && Contributes(libs, secret, varID, dest)
    case AddGroups(secret, groups) =>
      && secret.name in shared.originals && shared.originals[secret.name] == secret
      && Elements(groups) == GroupSet(libs, secret)
    case _ => true
  }

  function Perform(shared: Shared, action: Action): Shared {
    match action
    case Fetch(secret) => shared.(originals := shared.originals[secret.name := secret])
    case Append(secret, varID, dest) =>
      var (dests, index) := FastAppend(shared.dests, shared.index, varID, dest);
      shared.(dests := dests, index := index)
    case AddGroups(secret, groups) => shared.(groups := shared.groups[secret.name := groups])
    case Skip(name) => shared.(originals := shared.originals - {name})
  }

  /** A goroutine locks only when the mutex is free and touches the shared fields only while
      holding it. Unlocking clears everything first. */
  ghost predicate Next(libs: Libs, a: State, step: Step, b: State) {
    match step
    case Lock(t) => a.holder == None && b == State(Some(t), a.shared)
    case Act(t, action) =>
      a.holder == Some(t) && Allowed(libs, a.shared, action) && b == a.(shared := Perform(a.shared, action))
    case Unlock(t) => a.holder == Some(t) && b == State(None, EMPTY)
  }

  // ---- one goroutine between locking and unlocking ----

  ghost predicate AllAllowed(libs: Libs, a: Shared, actions: seq<Action>) {
    forall i | 0 <= i < |actions| :: Allowed(libs, Performed(a, actions[..i]), actions[i])
  }

  function Performed(a: Shared, actions: seq<Action>): Shared {
    if actions == [] then a else Perform(Performed(a, actions[..|actions| - 1]), actions[|actions| - 1])
  }

  /** Allowed actions lead from one state of the shared fields to the other. */
  ghost predicate Reaches(libs: Libs, a: Shared, b: Shared) {
    exists actions :: AllAllowed(libs, a, actions) && Performed(a, actions) == b
  }

  lemma ReachesItself(libs: Libs, a: Shared)
    ensures Reaches(libs, a, a)
  {
    assert AllAllowed(libs, a, []) && Performed(a, []) == a;
  }

  lemma ReachesOneMore(libs: Libs, a: Shared, b: Shared, action: Action)
    requires Reaches(libs, a, b) && Allowed(libs, b, action)
    ensures Reaches(libs, a, Perform(b, action))
  {
    var actions :| AllAllowed(libs, a, actions) && Performed(a, actions) == b;
    var longer := actions + [action];
    assert longer[..|actions|] == actions;
    assert forall i | 0 <= i < |actions| :: longer[..i] == actions[..i];
    assert AllAllowed(libs, a, longer) && Performed(a, longer) == Perform(b, action);
  }

  lemma {:induction false} ReachesOnward(libs: Libs, a: Shared, b: Shared, actions: seq<Action>)
    requires Reaches(libs, a, b) && AllAllowed(libs, b, actions)
    ensures Reaches(libs, a, Performed(b, actions))
  {
    if actions != [] {
      var n := |actions| - 1;
      assert forall i | 0 <= i < n :: actions[..n][..i] == actions[..i];
      ReachesOnward(libs, a, b, actions[..n]);
      ReachesOneMore(libs, a, Performed(b, actions[..n]), actions[n]);
    }
  }

  lemma ReachesThrough(libs: Libs, a: Shared, b: Shared, c: Shared)
    requires Reaches(libs, a, b) && Reaches(libs, b, c)
    ensures Reaches(libs, a, c)
  {
    var actions :| AllAllowed(libs, b, actions) && Performed(b, actions) == c;
    ReachesOnward(libs, a, b, actions);
  }

  ghost predicate Interleaving(libs: Libs, states: seq<State>, steps: seq<Step>) {
    && |states| == |steps| + 1 && states[0] == State(None, EMPTY)
    && forall i, j | 0 <= i < j == i + 1 <= |steps| :: Next(libs, states[i], steps[i], states[j])
  }

  lemma InterleavingExtends(libs: Libs, states: seq<State>, steps: seq<Step>, step: Step, b: State)
    requires Interleaving(libs, states, steps) && Next(libs, states[|steps|], step, b)
    ensures Interleaving(libs, states + [b], steps + [step])
  {
  }

  lemma {:induction false} LockedRun(libs: Libs, t: nat, actions: seq<Action>) returns (states: seq<State>, steps: seq<Step>)
    requires AllAllowed(libs, EMPTY, actions)
    ensures Interleaving(libs, states, steps) && steps != [] && steps[0] == Lock(t)
    ensures states[|steps|] == State(Some(t), Performed(EMPTY, actions))
  {
    if actions == [] {
      states, steps := [State(None, EMPTY), State(Some(t), EMPTY)], [Lock(t)];
    } else {
      var n := |actions| - 1;
      assert forall i | 0 <= i < n :: actions[..n][..i] == actions[..i];
      states, steps := LockedRun(libs, t, actions[..n]);
      var b := State(Some(t), Performed(EMPTY, actions));
      InterleavingExtends(libs, states, steps, Act(t, actions[n]), b);
      states, steps := states + [b], steps + [Act(t, actions[n])];
    }
  }

  /** Any state so reached from nothing is what some goroutine holds inside an interleaving: it
      locks, performs the actions, and unlocks. */
  lemma RunIsInterleaving(libs: Libs, t: nat, shared: Shared) returns (states: seq<State>, steps: seq<Step>)
    requires Reaches(libs, EMPTY, shared)
    ensures Interleaving(libs, states, steps) && |steps| >= 2
    ensures steps[0] == Lock(t) && steps[|steps| - 1] == Unlock(t)
    ensures states[|steps| - 1] == State(Some(t), shared)
  {
    var actions :| AllAllowed(libs, EMPTY, actions) && Performed(EMPTY, actions) == shared;
    states, steps := LockedRun(libs, t, actions);
    InterleavingExtends(libs, states, steps, Unlock(t), State(None, EMPTY));
    states, steps := states + [State(None, EMPTY)], steps + [Unlock(t)];
  }

  // ---- any number of goroutines ----

  /** The Secrets `t` has fetched since it last took the lock. */
  ghost function FetchedBy(steps: seq<Step>, t: nat): set<Secret> {
    if steps == [] then {}
    else
      var before := FetchedBy(steps[..|steps| - 1], t);
      match steps[|steps| - 1]
      case Lock(u) => if u == t then {} else before
      case Act(u, Fetch(secret)) => if u == t then before + {secret} else before
      case _ => before
  }

  /** Everything shared stems from these Secrets, and the index agrees with the lists. */
  ghost predicate StemsFrom(libs: Libs, shared: Shared, own: set<Secret>) {
    && (forall s | s in shared.originals :: shared.originals[s] in own)
    && (forall v, d | Lists(shared.dests, v, d) :: exists secret :: secret in own && Contributes(libs, secret, v, d))
    && (forall s | s in shared.groups :: exists secret :: secret in own && secret.name == s && Elements(shared.groups[s]) == GroupSet(libs, secret))
    && IndexAgrees(shared.dests, shared.index)
  }

  /** Nothing is left when the mutex is free; otherwise all is the holder's own. */
  ghost predicate MonitorInvariant(libs: Libs, steps: seq<Step>, state: State) {
    match state.holder
    case None => state.shared == EMPTY
    case Some(t) => StemsFrom(libs, state.shared, FetchedBy(steps, t))
  }

  lemma AppendStems(libs: Libs, shared: Shared, own: set<Secret>, secret: Secret, varID: string, dest: Dest)
    requires StemsFrom(libs, shared, own) && secret in own && Contributes(libs, secret, varID, dest)
    ensures StemsFrom(libs, Perform(shared, Action.Append(secret, varID, dest)), own)
  {
    FastAppendIsLinear(shared.dests, shared.index, varID, dest);
    var after := Perform(shared, Action.Append(secret, varID, dest));
    forall v, d | Lists(after.dests, v, d) ensures exists secret :: secret in own && Contributes(libs, secret, v, d) {
      if !Lists(shared.dests, v, d) {
        assert v == varID && d == dest;
      }
    }
  }

  /** Under every interleaving the invariant holds at every moment: a run only ever uses
      destinations derived from Secrets it fetched itself, and leaves nothing to the next. */
  lemma {:induction false} MonitorHolds(libs: Libs, states: seq<State>, steps: seq<Step>)
    requires Interleaving(libs, states, steps)
    ensures MonitorInvariant(libs, steps, states[|steps|])
  {
    if steps != [] {
      var n := |steps| - 1;
      MonitorHolds(libs, states[..|states| - 1], steps[..n]);
      assert Next(libs, states[n], steps[n], states[n + 1]);
      MonitorStep(libs, steps, states[n], states[n + 1]);
    }
  }

  lemma MonitorStep(libs: Libs, steps: seq<Step>, a: State, b: State)
    requires steps != [] && Next(libs, a, steps[|steps| - 1], b)
    requires MonitorInvariant(libs, steps[..|steps| - 1], a)
    ensures MonitorInvariant(libs, steps, b)
  {
    var own := if a.holder.Some? then FetchedBy(steps[..|steps| - 1], a.holder.value) else {};
    match steps[|steps| - 1]
    case Act(t, Append(secret, varID, dest)) =>
      AppendStems(libs, a.shared, own, secret, varID, dest);
    case Act(t, AddGroups(secret, groups)) =>
      assert secret in own;
    case _ =>
  }
}
