/** The in-memory balance and multiplier snapshots: the object that holds them, and every
    interleaving of reloads, directed updates and commits around it. */
module Balances {
  import opened Options

  const DEFAULT_MULTIPLIER: int := 10000

  datatype AssignmentKey = AssignmentKey(user: nat, group: nat)
  datatype Multipliers = Multipliers(assignments: map<AssignmentKey, int>, groups: map<nat, int>)

  /** The precedence of price multipliers: the user's own for the group, the group's, times one. */
  function Effective(m: Option<Multipliers>, user: nat, group: nat): int {
    if m.None? then DEFAULT_MULTIPLIER
    else if AssignmentKey(user, group) in m.value.assignments then m.value.assignments[AssignmentKey(user, group)]
    else if group in m.value.groups then m.value.groups[group]
    else DEFAULT_MULTIPLIER
  }

  /** A directed update touches only a user that is already there. */
  function Updated(snap: map<nat, int>, u: nat, bal: int): map<nat, int> {
    if u in snap then snap[u := bal] else snap
  }

  class Balances {
    var snap: map<nat, int>
    var mult: Option<Multipliers>

    constructor ()
      ensures snap == map[] && mult.None?
    {
      snap := map[];
      mult := None;
    }

    /** The arguments are what the three loads return, `None` for a load that fails. */
    method Reload(balances: Option<map<nat, int>>, groups: Option<map<nat, int>>, assignments: Option<map<AssignmentKey, int>>)
      returns (ok: bool)
      modifies this
      ensures ok <==> balances.Some? && groups.Some? && assignments.Some?
      ensures ok ==> snap == balances.value && mult == Some(Multipliers(assignments.value, groups.value))
      ensures !ok ==> snap == old(snap) && mult == old(mult)
    {
      if balances.None? { return false; }
      if groups.None? { return false; }
      if assignments.None? { return false; }
      snap := balances.value;
      mult := Some(Multipliers(assignments.value, groups.value));
      return true;
    }

    method ReloadMultipliers(groups: Option<map<nat, int>>, assignments: Option<map<AssignmentKey, int>>) returns (ok: bool)
      modifies this`mult
      ensures ok <==> groups.Some? && assignments.Some?
      ensures mult == if ok then Some(Multipliers(assignments.value, groups.value)) else old(mult)
    {
      if groups.None? { return false; }
      if assignments.None? { return false; }
      mult := Some(Multipliers(assignments.value, groups.value));
      return true;
    }

    method Set(u: nat, bal: int)
      modifies this`snap
      ensures snap == Updated(old(snap), u, bal)
      ensures snap.Keys == old(snap).Keys && (u in snap ==> snap[u] == bal) && forall v | v in snap && v != u :: snap[v] == old(snap)[v]
    {
      if u in snap {
        snap := snap[u := bal];
      }
    }

    /** A user without an entry is reported as absent, never as having a balance of zero. */
    method BalanceOf(u: nat) returns (bal: int, ok: bool)
      ensures ok <==> u in snap
      ensures bal == if u in snap then snap[u] else 0
    {
      if u in snap { return snap[u], true; }
      return 0, false;
    }

    method EffectiveMultiplier(user: nat, group: nat) returns (m: int)
      ensures m == Effective(mult, user, group)
      ensures mult.Some? && AssignmentKey(user, group) in mult.value.assignments ==> m == mult.value.assignments[AssignmentKey(user, group)]
      ensures mult.Some? && AssignmentKey(user, group) !in mult.value.assignments && group in mult.value.groups ==> m == mult.value.groups[group]
      ensures (mult.Some? ==> AssignmentKey(user, group) !in mult.value.assignments && group !in mult.value.groups) ==> m == 10000
    {
      if mult.None? { return DEFAULT_MULTIPLIER; }
      if AssignmentKey(user, group) in mult.value.assignments { return mult.value.assignments[AssignmentKey(user, group)]; }
      if group in mult.value.groups { return mult.value.groups[group]; }
      return DEFAULT_MULTIPLIER;
    }
  }
}

/** Reloads, directed updates and commits interleaved. A reload is a load and, later, a swap of the
    snapshot pointer; a directed update is a read of the pointer and, later, a store into the table it
    found, which may be an old one by then. */
module BalanceRuns {
  import opened Balances

  /** A pending directed update: before and after it has read the pointer. */
  datatype SetCall = Waiting(user: nat, balance: int) | Aimed(user: nat, balance: int, table: nat)

  /** `held` is every balance the store has ever had. */
  datatype World = World(
    store: map<nat, int>, held: set<(nat, int)>,
    tables: seq<map<nat, int>>, current: nat,
    reloads: map<nat, map<nat, int>>, sets: map<nat, SetCall>)

  datatype Step =
    | Change(user: nat, balance: int)
    | Delete(user: nat)
    | Settle(call: nat, user: nat, balance: int)
    | Load(reload: nat)
    | FailReload(reload: nat)
    | Swap(reload: nat)
    | Aim(call: nat)
    | Store(call: nat)

  predicate Enabled(s: World, step: Step) {
    match step
    case Change(_, _) => true
    case Delete(u) => u in s.store
    case Settle(c, u, _) => c !in s.sets && u in s.store
    case Load(r) => r !in s.reloads
    case FailReload(r) => r in s.reloads
    case Swap(r) => r in s.reloads
    case Aim(c) => c in s.sets && s.sets[c].Waiting?
    case Store(c) => c in s.sets && s.sets[c].Aimed? && s.sets[c].table < |s.tables|
  }

  function Next(s: World, step: Step): World
    requires Enabled(s, step)
  {
    match step
    case Change(u, bal) => s.(store := s.store[u := bal], held := s.held + {(u, bal)})
    case Delete(u) => s.(store := s.store - {u})
    case Settle(c, u, bal) =>
      s.(store := s.store[u := bal], held := s.held + {(u, bal)}, sets := s.sets[c := Waiting(u, bal)])
    case Load(r) => s.(reloads := s.reloads[r := s.store])
    case FailReload(r) => s.(reloads := s.reloads - {r})
    case Swap(r) => s.(tables := s.tables + [s.reloads[r]], current := |s.tables|, reloads := s.reloads - {r})
    case Aim(c) => s.(sets := s.sets[c := Aimed(s.sets[c].user, s.sets[c].balance, s.current)])
    case Store(c) =>
      var i := s.sets[c].table;
      s.(tables := s.tables[i := Updated(s.tables[i], s.sets[c].user, s.sets[c].balance)], sets := s.sets - {c})
  }

  ghost predicate AllHeld(s: World, m: map<nat, int>) {
    forall u | u in m :: (u, m[u]) in s.held
  }

  /** Every balance anywhere in memory is one the store has held for that very user. */
  ghost predicate Honest(s: World) {
    && s.current < |s.tables|
    && AllHeld(s, s.store)
    && (forall i | 0 <= i < |s.tables| :: AllHeld(s, s.tables[i]))
    && (forall r | r in s.reloads :: AllHeld(s, s.reloads[r]))
    && (forall c | c in s.sets :: (s.sets[c].user, s.sets[c].balance) in s.held && (s.sets[c].Aimed? ==> s.sets[c].table < |s.tables|))
  }

  ghost predicate Initial(s: World) {
    && s.tables == [map[]] && s.current == 0 && s.reloads == map[] && s.sets == map[]
    && s.held == set u | u in s.store :: (u, s.store[u])
  }

  predicate Possible(s: World, steps: seq<Step>)
    decreases |steps|
  {
    steps == [] || (Enabled(s, steps[0]) && Possible(Next(s, steps[0]), steps[1..]))
  }

  function Exec(s: World, steps: seq<Step>): World
    requires Possible(s, steps)
    decreases |steps|
  {
    if steps == [] then s else Exec(Next(s, steps[0]), steps[1..])
  }

  lemma StepHonest(s: World, step: Step)
    requires Honest(s) && Enabled(s, step)
    ensures Honest(Next(s, step)) && s.held <= Next(s, step).held
  {
    var s' := Next(s, step);
    forall i | 0 <= i < |s'.tables| ensures AllHeld(s', s'.tables[i]) {
      if i < |s.tables| { assert AllHeld(s, s.tables[i]); }
    }
    forall r | r in s'.reloads ensures AllHeld(s', s'.reloads[r]) {
      if r in s.reloads { assert AllHeld(s, s.reloads[r]); }
    }
  }

  /** Snapshot honesty over every run: whatever table a reader has in hand, the balance it reads there is one the
      store held for that user at some time, and a user the store never had is absent. */
  lemma {:induction false} RunHonest(s: World, steps: seq<Step>)
    requires Honest(s) && Possible(s, steps)
    ensures Honest(Exec(s, steps)) && s.held <= Exec(s, steps).held
    decreases |steps|
  {
    if steps != [] {
      StepHonest(s, steps[0]);
      RunHonest(Next(s, steps[0]), steps[1..]);
    }
  }

  lemma SnapshotHonest(s: World, steps: seq<Step>, i: nat, u: nat)
    requires Initial(s) && Possible(s, steps) && i < |Exec(s, steps).tables| && u in Exec(s, steps).tables[i]
    ensures (u, Exec(s, steps).tables[i][u]) in Exec(s, steps).held
  {
    RunHonest(s, steps);
    assert AllHeld(Exec(s, steps), Exec(s, steps).tables[i]);
  }

  // ------------------------------------------------------- convergence

  predicate Quiet(step: Step) { !step.Change? && !step.Delete? && !step.Settle? }

  function Snapshot(s: World): map<nat, int>
    requires s.current < |s.tables|
  {
    s.tables[s.current]
  }

  predicate Superseded(s: World, c: SetCall) { c.user in s.store && c.balance != s.store[c.user] }

  /** Nothing under way carries an outdated value: no loaded table, and no update that has yet to read the pointer. */
  ghost predicate Fresh(s: World) {
    && (forall r | r in s.reloads :: s.reloads[r] == s.store)
    && (forall c | c in s.sets && s.sets[c].Waiting? :: !Superseded(s, s.sets[c]))
  }

  ghost predicate Synced(s: World) {
    && Fresh(s) && s.current < |s.tables| && Snapshot(s) == s.store
    && (forall c | c in s.sets && s.sets[c].Aimed? && s.sets[c].table == s.current :: !Superseded(s, s.sets[c]))
  }

  lemma QuietStep(s: World, step: Step)
    requires Honest(s) && Fresh(s) && Enabled(s, step) && Quiet(step)
    ensures Fresh(Next(s, step)) && Next(s, step).store == s.store
    ensures step.Swap? || Synced(s) ==> Synced(Next(s, step))
  {
  }

  /** One reload after the last commit makes the snapshot equal the store, for good, if nothing outdated was
      under way when commits stopped. */
  lemma {:induction false} FreshConverges(s: World, steps: seq<Step>)
    requires Honest(s) && Fresh(s) && Possible(s, steps)
    requires forall step | step in steps :: Quiet(step)
    requires Synced(s) || exists step | step in steps :: step.Swap?
    ensures Synced(Exec(s, steps)) && Exec(s, steps).store == s.store
    decreases |steps|
  {
    if steps != [] {
      QuietStep(s, steps[0]);
      StepHonest(s, steps[0]);
      assert forall step | step in steps[1..] :: step in steps;
      FreshConverges(Next(s, steps[0]), steps[1..]);
    }
  }

  /** ... and only then: an outdated load or update can still land after a complete later reload. */
  lemma StaleDiverges(s: World, r: nat) returns (steps: seq<Step>)
    requires Honest(s) && !Fresh(s) && r !in s.reloads
    ensures Possible(s, steps) && (forall step | step in steps :: Quiet(step))
    ensures |steps| >= 2 && steps[0] == Load(r) && steps[1] == Swap(r)
    ensures Exec(s, steps).current < |Exec(s, steps).tables| && Snapshot(Exec(s, steps)) != s.store
  {
    hide Honest, Exec, Possible, Next;
    if q :| q in s.reloads && s.reloads[q] != s.store {
      steps := [Load(r), Swap(r), Swap(q)];
      LateSwap(s, r, q);
    } else {
      var c :| c in s.sets && s.sets[c].Waiting? && Superseded(s, s.sets[c]);
      steps := [Load(r), Swap(r), Aim(c), Store(c)];
      LateStore(s, r, c);
    }
  }

  lemma LateSwap(s: World, r: nat, q: nat)
    requires r !in s.reloads && q in s.reloads && s.reloads[q] != s.store
    ensures var steps := [Load(r), Swap(r), Swap(q)];
            Possible(s, steps) && Exec(s, steps).current < |Exec(s, steps).tables| && Snapshot(Exec(s, steps)) != s.store
  {
    var steps := [Load(r), Swap(r), Swap(q)];
    var s1 := Next(s, Load(r));
    var s2 := Next(s1, Swap(r));
    assert Next(s2, Swap(q)).tables[Next(s2, Swap(q)).current] == s.reloads[q];
    Unroll(s, steps);
    Unroll(s1, steps[1..]);
    Unroll(s2, steps[2..]);
  }

  lemma LateStore(s: World, r: nat, c: nat)
    requires r !in s.reloads && c in s.sets && s.sets[c].Waiting? && Superseded(s, s.sets[c])
    ensures var steps := [Load(r), Swap(r), Aim(c), Store(c)];
            Possible(s, steps) && Exec(s, steps).current < |Exec(s, steps).tables| && Snapshot(Exec(s, steps)) != s.store
  {
    var steps := [Load(r), Swap(r), Aim(c), Store(c)];
    var s1 := Next(s, Load(r));
    var s2 := Next(s1, Swap(r));
    var s3 := Next(s2, Aim(c));
    assert Enabled(s3, Store(c));
    var s4 := Next(s3, Store(c));
    assert s4.tables[s4.current][s.sets[c].user] == s.sets[c].balance;
    Unroll(s, steps);
    Unroll(s1, steps[1..]);
    Unroll(s2, steps[2..]);
    Unroll(s3, steps[3..]);
  }

  lemma Unroll(s: World, steps: seq<Step>)
    requires steps != [] && Enabled(s, steps[0])
    ensures Possible(s, steps) <==> Possible(Next(s, steps[0]), steps[1..])
    ensures Possible(s, steps) ==> Exec(s, steps) == Exec(Next(s, steps[0]), steps[1..])
  {
  }
}
