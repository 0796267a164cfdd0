/** Member names in byte order. */
module Names {
  import opened Fields

  type Id = Bytes

  /** Lexicographic order. */
  predicate Less(a: Id, b: Id) {
    b != [] && (a == [] || a[0] < b[0] || (a[0] == b[0] && Less(a[1..], b[1..])))
  }

  /** One name comes before another if it is a proper prefix, or has the smaller byte where they first differ. */
  lemma {:induction false} LessIs(a: Id, b: Id)
    ensures Less(a, b) <==> exists i :: Splits(a, b, i)
  {
    if a != [] && b != [] && a[0] == b[0] {
      LessIs(a[1..], b[1..]);
      if i :| Splits(a[1..], b[1..], i) {
        assert a[..i + 1] == [a[0]] + a[1..][..i] && b[..i + 1] == [b[0]] + b[1..][..i];
        assert Splits(a, b, i + 1);
      }
      if i :| Splits(a, b, i) {
        assert a[1..][..i - 1] == a[..i][1..] && b[1..][..i - 1] == b[..i][1..];
        assert Splits(a[1..], b[1..], i - 1);
      }
    } else if b != [] && (a == [] || a[0] < b[0]) {
      assert Splits(a, b, 0);
    }
  }

  predicate Splits(a: Id, b: Id, i: int) {
    0 <= i <= |a| && i < |b| && a[..i] == b[..i] && (i == |a| || a[i] < b[i])
  }

  lemma {:induction false} Total(a: Id, b: Id)
    ensures a == b || Less(a, b) || Less(b, a)
  {
    if a != [] && b != [] && a[0] == b[0] {
      Total(a[1..], b[1..]);
      assert a == [a[0]] + a[1..] && b == [b[0]] + b[1..];
    }
  }

  lemma {:induction false} Transitive(a: Id, b: Id, c: Id)
    requires Less(a, b) && Less(b, c)
    ensures Less(a, c)
  {
    if a != [] && a[0] == b[0] && b[0] == c[0] { Transitive(a[1..], b[1..], c[1..]); }
  }

  lemma {:induction false} Irreflexive(a: Id)
    ensures !Less(a, a)
  {
    if a != [] { Irreflexive(a[1..]); }
  }

  lemma Asymmetric(a: Id, b: Id)
    requires Less(a, b)
    ensures !Less(b, a)
  {
    if Less(b, a) {
      Transitive(a, b, a);
      Irreflexive(a);
    }
  }

  /** Sorted and free of repetitions. */
  predicate Ascending(s: seq<Id>) { forall i, j | 0 <= i < j < |s| :: Less(s[i], s[j]) }

  ghost function Elems(s: seq<Id>): set<Id> { set x | x in s }

  predicate IsLeast(x: Id, s: set<Id>) { x in s && forall y | y in s :: y == x || Less(x, y) }

  lemma LeastExists(s: set<Id>) returns (x: Id)
    requires s != {}
    ensures IsLeast(x, s)
    decreases |s|
  {
    var y :| y in s;
    if s == {y} { return y; }
    var z := LeastExists(s - {y});
    Total(y, z);
    if Less(y, z) {
      forall w | w in s ensures w == y || Less(y, w) { if w != y && w != z { Transitive(y, z, w); } }
      x := y;
    } else {
      x := z;
    }
  }

  /** Every listed name comes before every name still to be listed. */
  predicate Below(r: seq<Id>, left: set<Id>) { forall i, y | 0 <= i < |r| && y in left :: Less(r[i], y) }

  lemma AppendLeast(r: seq<Id>, left: set<Id>, x: Id)
    requires Ascending(r) && Below(r, left) && IsLeast(x, left)
    ensures Ascending(r + [x]) && Below(r + [x], left - {x}) && Elems(r + [x]) == Elems(r) + {x}
  {
    hide Less;
    var t := r + [x];
    forall i, y | 0 <= i < |t| && y in left - {x} ensures Less(t[i], y) {
      if i < |r| { assert t[i] == r[i]; }
    }
  }

  /** The listing of a set in order. */
  method Sort(s: set<Id>) returns (r: seq<Id>)
    ensures Ascending(r) && Elems(r) == s && |r| == |s|
  {
    hide Less, IsLeast, Below, Ascending;
    var left := s;
    r := [];
    assert Ascending(r) && Below(r, left) by { Nothing(left); }
    while left != {}
      invariant left <= s && Ascending(r) && Below(r, left) && Elems(r) == s - left && |r| + |left| == |s|
      decreases |left|
    {
      ghost var least := LeastExists(left);
      var x :| x in left && IsLeast(x, left);
      AppendLeast(r, left, x);
      r, left := r + [x], left - {x};
    }
  }

  lemma Nothing(left: set<Id>)
    ensures Ascending([]) && Below([], left)
  {}
}

/** Highest-weight ownership of a key among the members. */
module Rendezvous {
  import opened Fields
  import opened Names

  /** The greatest weight wins, the first name among equals. */
  ghost predicate IsOwner(o: Id, members: set<Id>, weight: Id -> nat) {
    o in members && forall m | m in members :: m == o || weight(m) < weight(o) || (weight(m) == weight(o) && Less(o, m))
  }

  /** `hash` is the hash of a member, a zero byte and the key. */
  function Weight(hash: Bytes -> nat, key: Bytes): Id -> nat { m => hash(m + [0] + key) }

  method RendezvousOwner(key: Bytes, members: seq<Id>, hash: Bytes -> nat) returns (best: Id)
    requires Ascending(members)
    ensures members == [] ==> best == []
    ensures members != [] ==> IsOwner(best, Elems(members), Weight(hash, key))
  {
    if |members| == 0 { return []; }
    best := [];
    var bestScore := 0;
    for i := 0 to |members|
      invariant i > 0 ==> best in members[..i] && bestScore == Weight(hash, key)(best)
      invariant i > 0 ==> IsOwner(best, Elems(members[..i]), Weight(hash, key))
    {
      var v := hash(members[i] + [0] + key);
      assert members[..i + 1] == members[..i] + [members[i]];
      assert Elems(members[..i + 1]) == Elems(members[..i]) + {members[i]};
      if i == 0 || v > bestScore { bestScore, best := v, members[i]; }
    }
    assert members[..|members|] == members;
  }

  /** Equal views have exactly one owner, ties included. */
  lemma OwnerUnique(o: Id, p: Id, members: set<Id>, weight: Id -> nat)
    requires IsOwner(o, members, weight) && IsOwner(p, members, weight)
    ensures o == p
  {
    if Less(o, p) && Less(p, o) { Asymmetric(o, p); }
  }

  /** Removing a member that does not own the key leaves the owner. */
  lemma RemoveKeepsOwner(o: Id, x: Id, members: set<Id>, weight: Id -> nat)
    requires IsOwner(o, members, weight) && x != o
    ensures IsOwner(o, members - {x}, weight)
  {}

  /** Adding a member moves a key to that member or not at all. */
  lemma AddMovesOnlyToNew(o: Id, p: Id, x: Id, members: set<Id>, weight: Id -> nat)
    requires IsOwner(o, members, weight) && IsOwner(p, members + {x}, weight)
    ensures p == o || p == x
  {
    if p != x {
      assert IsOwner(p, members, weight);
      OwnerUnique(o, p, members, weight);
    }
  }

  /** Over any change of membership, a key whose owner stays and beats every newcomer does not move. */
  lemma MovesOnlyWhenNeeded(o: Id, p: Id, before: set<Id>, after: set<Id>, weight: Id -> nat)
    requires IsOwner(o, before, weight) && IsOwner(p, after, weight)
    ensures p == o || o !in after || p !in before
  {
    if Less(o, p) && Less(p, o) { Asymmetric(o, p); }
  }
}

/** The heartbeat set in Redis and one instance's view of it. Times are in milliseconds. */
module Members {
  import opened Options
  import opened Names

  const MEMBER_TTL: int := 15_000
  const KEY_TTL: int := 20_000

  /** The server's clock, the scored set, and when the whole key expires, if it does. */
  datatype Zset = Zset(now: int, scores: map<Id, int>, deadline: Option<int>)

  /** What a command sees: nothing once the key has expired. */
  function Present(z: Zset): map<Id, int> { if z.deadline.Some? && z.now > z.deadline.value then map[] else z.scores }

  /** The key holding `scores`: removed when empty, and without an expiry when it is new. */
  function Holding(z: Zset, scores: map<Id, int>): Zset {
    if scores == map[] then Zset(z.now, map[], None) else Zset(z.now, scores, if Present(z) == map[] then None else z.deadline)
  }

  function Above(scores: map<Id, int>, limit: int): map<Id, int> { map m | m in scores && scores[m] > limit :: scores[m] }

  function Prune(z: Zset, limit: int): Zset { Holding(z, Above(Present(z), limit)) }

  function Add(z: Zset, m: Id, score: int): Zset { Holding(z, Present(z)[m := score]) }

  function Remove(z: Zset, m: Id): Zset { Holding(z, Present(z) - {m}) }

  function Renew(z: Zset): Zset { if Present(z) == map[] then z else z.(deadline := Some(z.now + KEY_TTL)) }

  const COMMANDS: nat := 5

  /** The commands of a heartbeat in order: prune, add self, renew the key, count, list. */
  function Command(z: Zset, self: Id, reading: int, k: nat): Zset {
    match k
    case 0 => Prune(z, reading - MEMBER_TTL)
    case 1 => Add(z, self, reading)
    case 2 => Renew(z)
    case _ => z
  }

  /** The server after `k` commands; `env(j)` is what others do before command `j`. */
  function After(z: Zset, self: Id, reading: int, k: nat, env: nat -> Zset -> Zset): Zset {
    if k == 0 then z else Command(env(k - 1)(After(z, self, reading, k - 1, env)), self, reading, k - 1)
  }

  /** Nothing happens between the commands. */
  function Nobody(): nat -> Zset -> Zset { (j: nat) => (y: Zset) => y }

  /** A heartbeat nobody interferes with: it leaves the members that are not 15 s old by its reading, and itself with its reading, in a key
      that lives 20 s from then. */
  lemma UndisturbedTick(z: Zset, self: Id, reading: int, m: Id)
    ensures var after := After(z, self, reading, 5, Nobody());
            && self in Present(after) && Present(after)[self] == reading
            && (m != self ==> (m in Present(after) <==> m in Present(z) && Present(z)[m] > reading - 15_000))
            && (m != self && m in Present(after) ==> Present(after)[m] == Present(z)[m])
            && after.now == z.now && after.deadline == Some(z.now + 20_000)
  {
    var env := Nobody();
    var z1 := Prune(z, reading - MEMBER_TTL);
    var z2 := Add(z1, self, reading);
    var z3 := Renew(z2);
    assert After(z, self, reading, 0, env) == z;
    assert After(z, self, reading, 1, env) == z1;
    assert After(z, self, reading, 2, env) == z2;
    assert After(z, self, reading, 3, env) == z3;
    assert After(z, self, reading, 4, env) == z3;
    assert self in Present(z2);
  }

  /** Conversion to a 32-bit counter. */
  function ToInt32(v: int): int { (v + 0x8000_0000) % 0x1_0000_0000 - 0x8000_0000 }

  class Discovery {
    const self: Id
    var zset: Zset
    var n: int
    var errs: nat
    var failed: bool
    var members: Option<seq<Id>>

    constructor (self: Id, zset: Zset)
      ensures this.self == self && this.zset == zset && n == 0 && errs == 0 && !failed && members.None?
    {
      this.self, this.zset, n, errs, failed, members := self, zset, 0, 0, false, None;
    }

    /** One heartbeat, `reading` being the local clock. If the pipeline breaks, some first commands have taken effect. */
    method Tick(reading: int, broken: Option<nat>, env: nat -> Zset -> Zset)
      modifies this
      ensures broken.Some? ==> n == old(n) && members == old(members) && errs == old(errs) + 1 && failed
      ensures broken.Some? ==> exists k: nat | k <= COMMANDS :: zset == After(old(zset), self, reading, k, env)
      ensures broken.None? ==> errs == 0 && !failed && zset == After(old(zset), self, reading, COMMANDS, env)
      ensures broken.None? ==>
                n == ToInt32(if |Present(After(old(zset), self, reading, 4, env))| > 1 then |Present(After(old(zset), self, reading, 4, env))| else 1)
      ensures broken.None? && 1 <= |Present(After(old(zset), self, reading, 4, env))| < 0x8000_0000 ==>
                n == |Present(After(old(zset), self, reading, 4, env))| == ClusterInstances()
      ensures broken.None? ==> members.Some? && Ascending(members.value) && Elems(members.value) == Present(zset).Keys
    {
      var stop := if broken.Some? && broken.value < COMMANDS then broken.value else COMMANDS;
      var card, listed := 0, {};
      for k := 0 to stop
        invariant zset == After(old(zset), self, reading, k, env)
        invariant n == old(n) && errs == old(errs) && failed == old(failed) && members == old(members)
        invariant k > 3 ==> card == |Present(After(old(zset), self, reading, 4, env))|
        invariant k > 4 ==> listed == Present(zset).Keys
      {
        zset := Command(env(k)(zset), self, reading, k);
        if k == 3 { card := |Present(zset)|; }
        if k == 4 { listed := Present(zset).Keys; }
      }
      if broken.Some? {
        OnTickError();
        return;
      }
      n := ToInt32(if card > 1 then card else 1);
      var sorted := Sort(listed);
      members, errs, failed := Some(sorted), 0, false;
    }

    /** The last view is frozen. */
    method OnTickError()
      modifies `errs, `failed
      ensures errs == old(errs) + 1 && failed
    {
      errs, failed := errs + 1, true;
    }

    function ClusterInstances(): (r: int)
      reads this
      ensures r >= 1 && (n > 0 ==> r == n) && (n <= 0 ==> r == 1)
    {
      if n > 0 then n else 1
    }

    function LiveMembers(): (r: seq<Id>)
      reads this
      ensures members.Some? ==> r == members.value
      ensures members.None? ==> r == []
    {
      if members.None? then [] else members.value
    }

    /** Leaves at once if it had started and the command reaches the server. */
    method Close(started: bool, reached: bool)
      modifies `zset
      ensures zset == if started && reached then Remove(old(zset), self) else old(zset)
      ensures started && reached ==> self !in Present(zset)
    {
      if !started { return; }
      if reached { zset := Remove(zset, self); }
    }
  }
}

/** Membership over every run of the cluster, each command of each heartbeat being a step of its own. An instance that gives up
    waiting, or stops, may leave commands under way that reach the server later or never. */
module Cluster {
  import opened Options
  import opened Names
  import opened Members

  /** The commands of one heartbeat: whose, its clock reading, when that was taken, how many commands are done, whether the
      instance still waits for the replies, and the replies. */
  datatype Pipe = Pipe(owner: Id, reading: int, at: int, done: nat, heard: bool, card: nat, listed: set<Id>)

  /** `live` are the running instances whose heartbeat has reached the server; `scored` is when the reading in an instance's score
      was taken, and `renewed` when the instance last renewed the key. */
  datatype World = World(zset: Zset, running: set<Id>, live: set<Id>, scored: map<Id, int>, renewed: map<Id, int>, pipes: map<nat, Pipe>)

  /** Local clocks read the true time plus something between `lo` and `lo + skew`. A live instance's score and renewal are never
      older than `gap`, and no command reaches the server later than that after its heartbeat's reading. */
  datatype Timing = Timing(lo: int, skew: nat, gap: nat)

  predicate OnTime(w: World, t: Timing) {
    && (forall i | i in w.live :: i in w.scored && w.zset.now - w.scored[i] <= t.gap)
    && (forall i | i in w.live :: i in w.renewed && w.zset.now - w.renewed[i] <= t.gap)
    && (forall n | n in w.pipes :: w.zset.now - w.pipes[n].at <= t.gap)
  }

  datatype Step =
    | Start(i: Id)
    | Begin(n: nat, i: Id, reading: int)
    | Do(n: nat)
    | Finish(n: nat)
    | Break(n: nat)
    | Drop(n: nat)
    | Halt(i: Id)
    | Leave(i: Id)
    | Wait(ms: nat)

  /** What may happen: an instance begins a heartbeat when it waits for none, with a reading within the band; what it no longer waits
      for may go on or be dropped. */
  predicate Enabled(w: World, s: Step, t: Timing) {
    match s
    case Start(i) => i !in w.running
    case Begin(n, i, reading) =>
      && i in w.running && n !in w.pipes && (forall m | m in w.pipes && w.pipes[m].owner == i :: !w.pipes[m].heard)
      && t.lo <= reading - w.zset.now <= t.lo + t.skew
    case Do(n) => n in w.pipes && w.pipes[n].done < COMMANDS
    case Finish(n) => n in w.pipes && w.pipes[n].heard && w.pipes[n].done == COMMANDS
    case Break(n) => n in w.pipes && w.pipes[n].heard
    case Drop(n) => n in w.pipes && !w.pipes[n].heard
    case Halt(i) => i in w.running
    case Leave(i) => i !in w.running
    case Wait(_) => true
  }

  /** One command of a heartbeat. Renewing the key completes it as far as others can see. */
  function DoCommand(w: World, n: nat): World
    requires n in w.pipes
  {
    var p := w.pipes[n];
    var i, z := p.owner, Command(w.zset, p.owner, p.reading, p.done);
    var replied := if p.done == 3 then p.(card := |Present(z)|) else if p.done == 4 then p.(listed := Present(z).Keys) else p;
    var landed := p.done == 2 && i in Present(z) && i in w.running;
    World(z, w.running, if landed then w.live + {i} else w.live, if p.done == 1 then w.scored[i := p.at] else w.scored,
          if landed then w.renewed[i := z.now] else w.renewed, w.pipes[n := replied.(done := p.done + 1)])
  }

  /** The instance no longer waits for any of its heartbeats. */
  function Unheard(pipes: map<nat, Pipe>, i: Id): map<nat, Pipe> {
    map n | n in pipes :: if pipes[n].owner == i then pipes[n].(heard := false) else pipes[n]
  }

  function Next(w: World, s: Step, t: Timing): World
    requires Enabled(w, s, t)
  {
    match s
    case Start(i) => w.(running := w.running + {i})
    case Begin(n, i, reading) => w.(pipes := w.pipes[n := Pipe(i, reading, w.zset.now, 0, true, 0, {})])
    case Do(n) => DoCommand(w, n)
    case Finish(n) => w.(pipes := w.pipes - {n})
    case Break(n) => w.(pipes := w.pipes[n := w.pipes[n].(heard := false)])
    case Drop(n) => w.(pipes := w.pipes - {n})
    case Halt(i) => w.(running := w.running - {i}, live := w.live - {i}, pipes := Unheard(w.pipes, i))
    case Leave(i) => w.(zset := Remove(w.zset, i))
    case Wait(ms) => w.(zset := w.zset.(now := w.zset.now + ms))
  }

  // ------------------------------------------------------- what every step keeps

  /** A live instance is in the set, and the key outlives its last renewal by the time to live of the key. */
  predicate Held(w: World, t: Timing, i: Id) {
    && i in w.running && i in w.scored && i in w.renewed && w.renewed[i] <= w.zset.now && i in w.zset.scores
    && w.zset.scores[i] >= w.scored[i] + t.lo
    && (w.zset.deadline.Some? ==> w.zset.deadline.value >= w.renewed[i] + KEY_TTL)
  }

  /** The reading of a heartbeat under way is within the band; once it has added its owner, the score has a time; once it has pruned,
      every score in the set is within the member time to live of its reading. */
  predicate PipeGood(w: World, t: Timing, p: Pipe) {
    && p.at <= w.zset.now && p.done <= COMMANDS && t.lo <= p.reading - p.at <= t.lo + t.skew
    && (p.done >= 2 ==> p.owner in w.scored)
    && (p.done >= 1 ==> forall m | m in Present(w.zset) :: Present(w.zset)[m] > p.reading - MEMBER_TTL)
  }

  /** A score is a reading taken at its time. */
  predicate Dated(w: World, t: Timing) {
    forall i | i in w.scored && i in Present(w.zset) :: Present(w.zset)[i] >= w.scored[i] + t.lo
  }

  predicate Inv(w: World, t: Timing) {
    && (forall i | i in w.live :: Held(w, t, i))
    && (forall n | n in w.pipes :: PipeGood(w, t, w.pipes[n]))
    && Dated(w, t)
  }

  /** The budget the member time to live leaves for clocks and heartbeats. */
  predicate Affordable(t: Timing) { t.skew + t.gap < MEMBER_TTL }

  /** On time, the key has not expired while any instance is live. */
  lemma LiveIsPresent(w: World, t: Timing, i: Id)
    requires Affordable(t) && Inv(w, t) && OnTime(w, t) && i in w.live
    ensures Present(w.zset) == w.zset.scores && i in Present(w.zset)
  {
    assert Held(w, t, i);
  }

  /** No heartbeat's cut-off reaches the score of a live instance, or the reading of a heartbeat under way. */
  lemma CutoffMisses(w: World, t: Timing, o: nat, i: Id, m: nat)
    requires Affordable(t) && Inv(w, t) && OnTime(w, t) && o in w.pipes
    ensures i in w.live ==> i in w.zset.scores && w.zset.scores[i] > w.pipes[o].reading - MEMBER_TTL
    ensures m in w.pipes ==> w.pipes[m].reading > w.pipes[o].reading - MEMBER_TTL
  {
    assert PipeGood(w, t, w.pipes[o]);
    if i in w.live { assert Held(w, t, i); }
    if m in w.pipes { assert PipeGood(w, t, w.pipes[m]); }
  }

  lemma PruneInv(w: World, t: Timing, n: nat)
    requires Affordable(t) && Inv(w, t) && OnTime(w, t) && n in w.pipes && w.pipes[n].done == 0
    ensures Inv(DoCommand(w, n), t)
  {
    var v := DoCommand(w, n);
    assert forall m | m in Present(v.zset) :: m in Present(w.zset) && Present(v.zset)[m] == Present(w.zset)[m];
    forall j | j in v.live ensures Held(v, t, j) {
      LiveIsPresent(w, t, j);
      CutoffMisses(w, t, n, j, n);
      assert Held(w, t, j);
    }
    forall m | m in v.pipes ensures PipeGood(v, t, v.pipes[m]) { assert PipeGood(w, t, w.pipes[m]); }
  }

  lemma AddInv(w: World, t: Timing, n: nat)
    requires Affordable(t) && Inv(w, t) && OnTime(w, t) && n in w.pipes && w.pipes[n].done == 1
    ensures Inv(DoCommand(w, n), t)
  {
    var v, p := DoCommand(w, n), w.pipes[n];
    assert PipeGood(w, t, p);
    assert Present(v.zset) == Present(w.zset)[p.owner := p.reading];
    forall j | j in v.live ensures Held(v, t, j) {
      LiveIsPresent(w, t, j);
      assert Held(w, t, j);
    }
    forall m | m in v.pipes ensures PipeGood(v, t, v.pipes[m]) {
      assert PipeGood(w, t, w.pipes[m]);
      CutoffMisses(w, t, m, p.owner, n);
    }
  }

  lemma RenewInv(w: World, t: Timing, n: nat)
    requires Affordable(t) && Inv(w, t) && OnTime(w, t) && n in w.pipes && w.pipes[n].done == 2
    ensures Inv(DoCommand(w, n), t)
  {
    var v, p := DoCommand(w, n), w.pipes[n];
    assert PipeGood(w, t, p);
    assert Present(v.zset) == Present(w.zset);
    forall j | j in v.live ensures Held(v, t, j) {
      if j in w.live {
        LiveIsPresent(w, t, j);
        assert Held(w, t, j);
      }
    }
    forall m | m in v.pipes ensures PipeGood(v, t, v.pipes[m]) { assert PipeGood(w, t, w.pipes[m]); }
  }

  lemma ReadInv(w: World, t: Timing, n: nat)
    requires Inv(w, t) && n in w.pipes && 3 <= w.pipes[n].done < COMMANDS
    ensures Inv(DoCommand(w, n), t)
  {
    var v := DoCommand(w, n);
    forall j | j in v.live ensures Held(v, t, j) { assert Held(w, t, j); }
    forall m | m in v.pipes ensures PipeGood(v, t, v.pipes[m]) { assert PipeGood(w, t, w.pipes[m]); }
  }

  lemma OtherInv(w: World, s: Step, t: Timing)
    requires Affordable(t) && Inv(w, t) && OnTime(w, t) && Enabled(w, s, t) && !s.Do?
    ensures Inv(Next(w, s, t), t)
  {
    var v := Next(w, s, t);
    assert forall m | m in Present(v.zset) :: m in Present(w.zset) && Present(v.zset)[m] == Present(w.zset)[m];
    forall j | j in v.live ensures Held(v, t, j) {
      assert Held(w, t, j);
      LiveIsPresent(w, t, j);
    }
    forall m | m in v.pipes ensures PipeGood(v, t, v.pipes[m]) { if m in w.pipes { assert PipeGood(w, t, w.pipes[m]); } }
  }

  lemma StepInv(w: World, s: Step, t: Timing)
    requires Affordable(t) && Inv(w, t) && OnTime(w, t) && Enabled(w, s, t)
    ensures Inv(Next(w, s, t), t)
  {
    hide Inv, OnTime, DoCommand;
    if s.Do? {
      match w.pipes[s.n].done
      case 0 => PruneInv(w, t, s.n);
      case 1 => AddInv(w, t, s.n);
      case 2 => RenewInv(w, t, s.n);
      case _ => ReadInv(w, t, s.n);
    } else {
      OtherInv(w, s, t);
    }
  }

  // ------------------------------------------------------- over whole runs

  predicate Initial(w: World) { w.running == {} && w.live == {} && w.scored == map[] && w.renewed == map[] && w.pipes == map[] }

  /** The worlds of a run from an arbitrary leftover set, all of them on time. */
  predicate IsRun(ws: seq<World>, steps: seq<Step>, t: Timing) {
    && |ws| == |steps| + 1 && Initial(ws[0])
    && (forall k | 0 <= k <= |steps| :: OnTime(ws[k], t))
    && (forall k | 0 <= k < |steps| :: Enabled(ws[k], steps[k], t) && ws[k + 1] == Next(ws[k], steps[k], t))
  }

  lemma {:induction false} RunInv(ws: seq<World>, steps: seq<Step>, t: Timing, k: nat)
    requires Affordable(t) && IsRun(ws, steps, t) && k <= |steps|
    ensures Inv(ws[k], t)
  {
    hide Inv, OnTime, Next, Enabled;
    if k == 0 {
      assert Inv(ws[0], t) by { Start0(ws[0], t); }
    } else {
      RunInv(ws, steps, t, k - 1);
      StepInv(ws[k - 1], steps[k - 1], t);
    }
  }

  lemma Start0(w: World, t: Timing)
    requires Initial(w)
    ensures Inv(w, t)
  {}

  /** No tick prunes a live instance: at every moment of every run they are all in the set, which has not expired. */
  lemma LiveNeverPruned(ws: seq<World>, steps: seq<Step>, t: Timing, k: nat, i: Id)
    requires Affordable(t) && IsRun(ws, steps, t) && k <= |steps| && i in ws[k].live
    ensures i in Present(ws[k].zset)
  {
    hide Inv, Next, Enabled, Present;
    RunInv(ws, steps, t, k);
    LiveIsPresent(ws[k], t, i);
  }

  /** Every tick counts and lists all the instances that are live, and lists nobody whose last score is 15 s old by its clock. */
  lemma TickSeesTheLiving(ws: seq<World>, steps: seq<Step>, t: Timing, k: nat, n: nat)
    requires Affordable(t) && IsRun(ws, steps, t) && k < |steps| && steps[k] == Do(n) && n in ws[k].pipes && ws[k].pipes[n].done >= 3
    ensures n in ws[k + 1].pipes
    ensures var p := ws[k + 1].pipes[n];
            && |ws[k].live| <= |Present(ws[k].zset)| && p.reading == ws[k].pipes[n].reading
            && (ws[k].pipes[n].done == 3 ==> p.card == |Present(ws[k].zset)|)
            && (ws[k].pipes[n].done == 4 ==>
                  && ws[k].live <= p.listed == Present(ws[k].zset).Keys
                  && forall m | m in p.listed :: ws[k].zset.scores[m] > p.reading - MEMBER_TTL)
  {
    hide Inv, OnTime, Affordable;
    var w := ws[k];
    assert Enabled(w, steps[k], t) && ws[k + 1] == Next(w, steps[k], t);
    forall j | j in w.live ensures j in Present(w.zset) { LiveNeverPruned(ws, steps, t, k, j); }
    CardinalityOfSubset(w.live, Present(w.zset).Keys);
    RunInv(ws, steps, t, k);
    ListedIsFresh(w, t, n);
  }

  lemma ListedIsFresh(w: World, t: Timing, n: nat)
    requires Inv(w, t) && n in w.pipes && w.pipes[n].done >= 1
    ensures forall m | m in Present(w.zset) :: m in w.zset.scores && w.zset.scores[m] > w.pipes[n].reading - MEMBER_TTL
  {
    assert PipeGood(w, t, w.pipes[n]);
  }

  lemma {:induction false} CardinalityOfSubset(a: set<Id>, b: set<Id>)
    requires a <= b
    ensures |a| <= |b|
  {
    if a != {} {
      var x :| x in a;
      CardinalityOfSubset(a - {x}, b - {x});
    }
  }

  /** Stopped for good: not running, and with no command on its way. */
  predicate Silent(w: World, m: Id) { m !in w.running && forall n | n in w.pipes :: w.pipes[n].owner != m }

  /** The score of an instance that has fallen silent can only vanish. */
  lemma {:induction false} StoppedScoreStays(ws: seq<World>, steps: seq<Step>, t: Timing, j: nat, k: nat, m: Id)
    requires Affordable(t) && IsRun(ws, steps, t) && j <= k <= |steps|
    requires forall l | j <= l <= k :: Silent(ws[l], m)
    ensures m in Present(ws[k].zset) ==> m in Present(ws[j].zset) && Present(ws[k].zset)[m] == Present(ws[j].zset)[m]
    decreases k
  {
    hide Inv, OnTime, Affordable, Silent;
    if j < k {
      StoppedScoreStays(ws, steps, t, j, k - 1, m);
      StoppedStep(ws[k - 1], steps[k - 1], t, m);
    }
  }

  lemma StoppedStep(w: World, s: Step, t: Timing, m: Id)
    requires Enabled(w, s, t) && Silent(w, m)
    ensures var v := Next(w, s, t);
            m in Present(v.zset) ==> m in Present(w.zset) && Present(v.zset)[m] == Present(w.zset)[m]
  {}

  /** A stopped member is absent from every tick at least 15 s past its last score. */
  lemma StoppedNotListed(ws: seq<World>, steps: seq<Step>, t: Timing, j: nat, k: nat, n: nat, m: Id)
    requires Affordable(t) && IsRun(ws, steps, t) && j <= k < |steps| && steps[k] == Do(n) && n in ws[k].pipes && ws[k].pipes[n].done == 4
    requires forall l | j <= l <= k :: Silent(ws[l], m)
    requires m in Present(ws[j].zset) ==> ws[k].pipes[n].reading >= Present(ws[j].zset)[m] + MEMBER_TTL
    ensures n in ws[k + 1].pipes && m !in ws[k + 1].pipes[n].listed
  {
    hide Inv, OnTime, Affordable, Silent, Next, Enabled;
    TickSeesTheLiving(ws, steps, t, k, n);
    StoppedScoreStays(ws, steps, t, j, k, m);
  }

  // ------------------------------------------------------- the budget is exact

  /** As soon as skew and gap add up to the member time to live, there is a run, on time throughout, in which a tick prunes a live
      instance. */
  lemma BudgetIsExact(t: Timing) returns (ws: seq<World>, steps: seq<Step>)
    requires !Affordable(t)
    ensures IsRun(ws, steps, t) && exists i | i in ws[|steps|].live :: i !in Present(ws[|steps|].zset)
  {
    hide Enabled, Next, OnTime, DoCommand;
    var a: Id, b: Id := [0], [1];
    var w := if t.gap < MEMBER_TTL then t.gap else MEMBER_TTL;
    ws, steps := FirstHeartbeat(t, a);
    var quiet := Landed(t, a).(zset := Landed(t, a).zset.(now := w), pipes := map[]);
    Waits(ws[7], w, t);
    var both := quiet.(running := {a, b});
    JoinsAndPrunes(quiet, t, a, b);
    var begun := both.(pipes := map[0 := Pipe(b, t.lo + MEMBER_TTL, w, 0, true, 0, {})]);
    ws := ws + [quiet, both, begun, DoCommand(begun, 0)];
    steps := steps + [Wait(w), Start(b), Begin(0, b, t.lo + MEMBER_TTL), Do(0)];
    assert a in ws[|steps|].live;
  }

  /** After the first three commands of a first heartbeat at time 0. */
  function Landed(t: Timing, a: Id): World {
    World(Zset(0, map[a := t.lo], Some(KEY_TTL)), {a}, {a}, map[a := 0], map[a := 0], map[0 := Pipe(a, t.lo, 0, 3, true, 0, {})])
  }

  /** An instance starts, its heartbeat lands, and the replies are lost. */
  lemma FirstHeartbeat(t: Timing, a: Id) returns (ws: seq<World>, steps: seq<Step>)
    ensures |steps| == 7 && IsRun(ws, steps, t) && ws[7] == Landed(t, a).(pipes := map[])
  {
    hide Next, Enabled, OnTime, DoCommand;
    var w0 := World(Zset(0, map[], None), {}, {}, map[], map[], map[]);
    var w1 := w0.(running := {a});
    var w2 := w1.(pipes := map[0 := Pipe(a, t.lo, 0, 0, true, 0, {})]);
    var w3 := w1.(pipes := map[0 := Pipe(a, t.lo, 0, 1, true, 0, {})]);
    var w4 := w1.(zset := Zset(0, map[a := t.lo], None), scored := map[a := 0], pipes := map[0 := Pipe(a, t.lo, 0, 2, true, 0, {})]);
    var w5 := Landed(t, a);
    var w6 := w5.(pipes := map[0 := w5.pipes[0].(heard := false)]);
    Begins(t, a);
    Lands(t, a);
    Commands(w2, t);
    Commands(w3, t);
    Commands(w4, t);
    RepliesLost(t, a);
    ws := [w0, w1, w2, w3, w4, w5, w6, w5.(pipes := map[])];
    steps := [Start(a), Begin(0, a, t.lo), Do(0), Do(0), Do(0), Break(0), Drop(0)];
  }

  lemma Begins(t: Timing, a: Id)
    ensures var w0 := World(Zset(0, map[], None), {}, {}, map[], map[], map[]);
            var w1 := w0.(running := {a});
            var w2 := w1.(pipes := map[0 := Pipe(a, t.lo, 0, 0, true, 0, {})]);
            && Enabled(w0, Start(a), t) && Next(w0, Start(a), t) == w1 && Enabled(w1, Begin(0, a, t.lo), t)
            && Next(w1, Begin(0, a, t.lo), t) == w2 && OnTime(w0, t) && OnTime(w1, t)
  {}

  lemma Commands(w: World, t: Timing)
    requires 0 in w.pipes && w.pipes.Keys == {0} && w.pipes[0].done < COMMANDS && w.zset.now == w.pipes[0].at && w.live == {}
    ensures Enabled(w, Do(0), t) && Next(w, Do(0), t) == DoCommand(w, 0) && OnTime(w, t)
  {}

  lemma RepliesLost(t: Timing, a: Id)
    ensures var w5 := Landed(t, a);
            var w6 := w5.(pipes := map[0 := w5.pipes[0].(heard := false)]);
            && Enabled(w5, Break(0), t) && Next(w5, Break(0), t) == w6 && Enabled(w6, Drop(0), t)
            && Next(w6, Drop(0), t) == w5.(pipes := map[]) && OnTime(w5, t) && OnTime(w6, t) && OnTime(w5.(pipes := map[]), t)
  {}

  lemma Lands(t: Timing, a: Id)
    ensures var w1 := World(Zset(0, map[], None), {a}, {}, map[], map[], map[]);
            var w2 := w1.(pipes := map[0 := Pipe(a, t.lo, 0, 0, true, 0, {})]);
            var w3 := w1.(pipes := map[0 := Pipe(a, t.lo, 0, 1, true, 0, {})]);
            var w4 := w1.(zset := Zset(0, map[a := t.lo], None), scored := map[a := 0], pipes := map[0 := Pipe(a, t.lo, 0, 2, true, 0, {})]);
            DoCommand(w2, 0) == w3 && DoCommand(w3, 0) == w4 && DoCommand(w4, 0) == Landed(t, a)
  {
    assert Above(map[], t.lo - MEMBER_TTL) == map[];
    assert a in map[a := t.lo];
  }

  lemma Waits(w: World, ms: nat, t: Timing)
    ensures Enabled(w, Wait(ms), t) && Next(w, Wait(ms), t) == w.(zset := w.zset.(now := w.zset.now + ms))
  {}

  /** Another instance starts with its clock ahead and prunes before its first score. */
  lemma JoinsAndPrunes(w: World, t: Timing, a: Id, b: Id)
    requires a != b && w.running == {a} && w.live == {a} && w.scored == map[a := 0] && w.renewed == map[a := 0] && w.pipes == map[]
    requires w.zset.scores == map[a := t.lo] && w.zset.deadline == Some(KEY_TTL) && 0 <= w.zset.now <= t.gap
    requires w.zset.now <= MEMBER_TTL <= w.zset.now + t.skew
    ensures var both := w.(running := {a, b});
            var begun := both.(pipes := map[0 := Pipe(b, t.lo + MEMBER_TTL, w.zset.now, 0, true, 0, {})]);
            && Enabled(w, Start(b), t) && Next(w, Start(b), t) == both && Enabled(both, Begin(0, b, t.lo + MEMBER_TTL), t)
            && Next(both, Begin(0, b, t.lo + MEMBER_TTL), t) == begun && Enabled(begun, Do(0), t)
            && Next(begun, Do(0), t) == DoCommand(begun, 0) && DoCommand(begun, 0).live == {a}
            && a !in Present(DoCommand(begun, 0).zset)
            && OnTime(w, t) && OnTime(both, t) && OnTime(begun, t) && OnTime(DoCommand(begun, 0), t)
  {
    assert {a} + {b} == {a, b};
    assert Above(map[a := t.lo], t.lo) == map[];
  }
}
