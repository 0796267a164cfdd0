/** Continuation bindings in Redis: a compare-and-set with a time to live, its batched form, and lookups. The server's clock is
    in milliseconds, the clients' in nanoseconds. */
module BindingStore {
  import opened Ints
  import opened Options
  import opened Fields
  import opened RoutingKeys
  import Base16
  import opened Wire

  const TTL_MS: int := 24 * 3600 * 1000
  const MS: int := 1_000_000

  datatype Entry = Entry(value: Bytes, deadline: int)

  /** The server: its clock and its keys. A key is dead once the clock has passed its deadline, whether or not it was removed. */
  datatype Redis = Redis(now: nat, entries: map<Bytes, Entry>)

  predicate Live(r: Redis, key: Bytes) { key in r.entries && r.now <= r.entries[key].deadline }

  datatype Status = Created | Refreshed | Conflict

  /** The compare-and-set script, one atomic step. */
  function Cas(r: Redis, key: Bytes, payload: Bytes): (Redis, Status) {
    var bound := Redis(r.now, r.entries[key := Entry(payload, r.now + TTL_MS)]);
    if !Live(r, key) then (bound, Created)
    else if r.entries[key].value == payload then (bound, Refreshed)
    else (r, Conflict)
  }

  // ------------------------------------------------------- requests

  datatype BindRequest = BindRequest(key: ContinuationKey, binding: Binding)

  datatype BindResult = Done(status: Status) | Refused

  const PREFIX: Bytes := Text("c3api:cont:")

  function RedisKey(mac: Bytes -> Bytes, k: ContinuationKey): Option<Bytes>
    requires WellTyped(k)
  {
    if k.continuation == [] || k.protocolTag == [] then None
    else Some(PREFIX + Base16.Encode(mac(Tagged(TupleFields(k)))))
  }

  predicate TypedRequest(q: BindRequest) {
    WellTyped(q.key) && IsInt64(q.binding.account) && IsInt64(q.binding.revision) && |q.binding.fingerprint| == 32
  }

  predicate ValidateBind(b: Binding) { b.account > 0 && b.revision > 0 && !IsZero(b.fingerprint) }

  /** The command a request becomes, unless it is refused before anything is sent. */
  function Command(mac: Bytes -> Bytes, q: BindRequest): Option<(Bytes, Bytes)>
    requires TypedRequest(q)
  {
    if !ValidateBind(q.binding) then None
    else
      var key := RedisKey(mac, q.key);
      if key.None? then None else Some((key.value, EncodeWire(q.binding)))
  }

  /** One request by itself, `before` being all that happens on the server up to its command. */
  function Bind(mac: Bytes -> Bytes, q: BindRequest, r: Redis, before: Redis -> Redis): (Redis, BindResult)
    requires TypedRequest(q)
  {
    var cmd := Command(mac, q);
    if cmd.None? then (r, Refused)
    else
      var (after, status) := Cas(before(r), cmd.value.0, cmd.value.1);
      (after, Done(status))
  }

  predicate Typed(qs: seq<BindRequest>) { forall i | 0 <= i < |qs| :: TypedRequest(qs[i]) }

  /** The requests one at a time in order; `env(i)` is what happens between the commands before request `i`'s. */
  function BindAll(mac: Bytes -> Bytes, qs: seq<BindRequest>, r: Redis, env: nat -> Redis -> Redis): (o: (Redis, seq<BindResult>))
    requires Typed(qs)
    ensures |o.1| == |qs|
  {
    if qs == [] then (r, [])
    else
      var n := |qs| - 1;
      var (mid, results) := BindAll(mac, qs[..n], r, env);
      var (after, result) := Bind(mac, qs[n], mid, env(n));
      (after, results + [result])
  }

  /** The lookup script and the checks on its reply, between two samples of the client's clock. */
  function LookupAt(r: Redis, key: Bytes, start: int, completion: int): Option<Binding> {
    if !Live(r, key) then None
    else
      var pttl := r.entries[key].deadline - r.now;
      if pttl <= 0 || start + pttl * MS <= completion then None else ParseBinding(r.entries[key].value)
  }

  datatype Fault = NoFault | LostBefore | LostAfter

  datatype Queued = Queued(index: nat, key: Bytes, payload: Bytes)

  /** The server after the first `k` queued commands, and their replies. */
  function Execute(queue: seq<Queued>, k: nat, r: Redis, env: nat -> Redis -> Redis): (o: (Redis, seq<Status>))
    requires k <= |queue|
    ensures |o.1| == k
  {
    if k == 0 then (r, [])
    else
      var (mid, replies) := Execute(queue, k - 1, r, env);
      var (after, status) := Cas(env(queue[k - 1].index)(mid), queue[k - 1].key, queue[k - 1].payload);
      (after, replies + [status])
  }

  /** What the first loop of the batch queues. */
  function QueueOf(mac: Bytes -> Bytes, qs: seq<BindRequest>): seq<Queued>
    requires Typed(qs)
  {
    if qs == [] then []
    else
      var n := |qs| - 1;
      var cmd := Command(mac, qs[n]);
      QueueOf(mac, qs[..n]) + if cmd.None? then [] else [Queued(n, cmd.value.0, cmd.value.1)]
  }

  // ------------------------------------------------------- a batch is its requests in order

  lemma EmptyBatch(mac: Bytes -> Bytes, r: Redis, env: nat -> Redis -> Redis)
    ensures BindAll(mac, [], r, env) == (r, [])
  {}

  lemma EmptyQueue(mac: Bytes -> Bytes)
    ensures QueueOf(mac, []) == []
  {}

  /** Executing a prefix of the queue does not depend on what is queued after it. */
  lemma {:induction false} ExecuteFrame(q: seq<Queued>, more: seq<Queued>, k: nat, r: Redis, env: nat -> Redis -> Redis)
    requires k <= |q|
    ensures Execute(q + more, k, r, env) == Execute(q, k, r, env)
  {
    hide Cas;
    if k > 0 { ExecuteFrame(q, more, k - 1, r, env); }
  }

  lemma {:induction false} RepliesGrow(q: seq<Queued>, j: nat, k: nat, r: Redis, env: nat -> Redis -> Redis)
    requires j <= k <= |q|
    ensures Execute(q, j, r, env).1 == Execute(q, k, r, env).1[..j]
    decreases k
  {
    hide Cas;
    if j < k { RepliesGrow(q, j, k - 1, r, env); }
  }

  lemma {:induction false} ExecuteAll(mac: Bytes -> Bytes, qs: seq<BindRequest>, r: Redis, env: nat -> Redis -> Redis)
    requires Typed(qs)
    ensures Execute(QueueOf(mac, qs), |QueueOf(mac, qs)|, r, env).0 == BindAll(mac, qs, r, env).0
  {
    hide Cas, Command;
    if qs != [] {
      var n := |qs| - 1;
      ExecuteAll(mac, qs[..n], r, env);
      var q := QueueOf(mac, qs[..n]);
      ExecuteFrame(q, QueueOf(mac, qs)[|q|..], |q|, r, env);
      assert QueueOf(mac, qs) == q + QueueOf(mac, qs)[|q|..];
    }
  }

  lemma {:induction false} ExecutePrefix(mac: Bytes -> Bytes, qs: seq<BindRequest>, k: nat, r: Redis, env: nat -> Redis -> Redis)
    requires Typed(qs) && k <= |QueueOf(mac, qs)|
    ensures exists p | 0 <= p <= |qs| :: Execute(QueueOf(mac, qs), k, r, env).0 == BindAll(mac, qs[..p], r, env).0
  {
    hide Command, Execute, BindAll;
    if k == |QueueOf(mac, qs)| {
      ExecuteAll(mac, qs, r, env);
      assert qs[..|qs|] == qs;
    } else {
      var n := |qs| - 1;
      var q := QueueOf(mac, qs[..n]);
      assert QueueOf(mac, qs) == q + QueueOf(mac, qs)[|q|..];
      ExecuteFrame(q, QueueOf(mac, qs)[|q|..], k, r, env);
      ExecutePrefix(mac, qs[..n], k, r, env);
      var p :| 0 <= p <= n && Execute(q, k, r, env).0 == BindAll(mac, qs[..n][..p], r, env).0;
      assert qs[..n][..p] == qs[..p];
    }
  }

  /** The queue grows by one command with each request that is not refused. */
  lemma QueueStep(mac: Bytes -> Bytes, qs: seq<BindRequest>, n: nat)
    requires Typed(qs) && n < |qs|
    ensures QueueOf(mac, qs[..n + 1]) == QueueOf(mac, qs[..n])
              + if Command(mac, qs[n]).None? then [] else [Queued(n, Command(mac, qs[n]).value.0, Command(mac, qs[n]).value.1)]
  {
    hide Command;
    assert qs[..n + 1][..n] == qs[..n];
  }

  lemma {:induction false} QueuePrefix(mac: Bytes -> Bytes, qs: seq<BindRequest>, m: nat, n: nat)
    requires Typed(qs) && m <= n <= |qs|
    ensures QueueOf(mac, qs[..m]) <= QueueOf(mac, qs[..n])
    decreases n
  {
    hide Command, QueueOf;
    if m < n {
      QueuePrefix(mac, qs, m, n - 1);
      QueueStep(mac, qs, n - 1);
    }
  }

  lemma {:induction false} ResultsPrefix(mac: Bytes -> Bytes, qs: seq<BindRequest>, m: nat, r: Redis, env: nat -> Redis -> Redis)
    requires Typed(qs) && m <= |qs|
    ensures BindAll(mac, qs[..m], r, env).1 == BindAll(mac, qs, r, env).1[..m]
    decreases |qs|
  {
    hide Bind;
    if m == |qs| {
      assert qs[..m] == qs;
    } else {
      var n := |qs| - 1;
      ResultsPrefix(mac, qs[..n], m, r, env);
      assert qs[..n][..m] == qs[..m];
    }
  }

  /** The last request of a batch that was not refused got the last reply. */
  lemma LastReply(mac: Bytes -> Bytes, qs: seq<BindRequest>, r: Redis, env: nat -> Redis -> Redis)
    requires Typed(qs) && qs != []
    ensures var n, q := |qs| - 1, QueueOf(mac, qs);
            && (Command(mac, qs[n]).None? ==> BindAll(mac, qs, r, env).1[n] == Refused)
            && (Command(mac, qs[n]).Some? ==> q != [] && BindAll(mac, qs, r, env).1[n] == Done(Execute(q, |q|, r, env).1[|q| - 1]))
  {
    hide Command, Cas;
    var n := |qs| - 1;
    var before, q := QueueOf(mac, qs[..n]), QueueOf(mac, qs);
    ExecuteAll(mac, qs[..n], r, env);
    assert q == before + q[|before|..];
    ExecuteFrame(before, q[|before|..], |before|, r, env);
  }

  /** Replies line up with requests: request `i` got the reply after as many as were queued before it. */
  lemma ReplyOf(mac: Bytes -> Bytes, qs: seq<BindRequest>, i: nat, r: Redis, env: nat -> Redis -> Redis)
    requires Typed(qs) && i < |qs|
    ensures var q, k := QueueOf(mac, qs), |QueueOf(mac, qs[..i])|;
            && |QueueOf(mac, qs[..i + 1])| == (if Command(mac, qs[i]).Some? then k + 1 else k) <= |q|
            && BindAll(mac, qs, r, env).1[i]
               == if Command(mac, qs[i]).Some? then Done(Execute(q, |q|, r, env).1[k]) else Refused
  {
    hide Command, Execute, BindAll, QueueOf;
    var q, upTo, k := QueueOf(mac, qs), QueueOf(mac, qs[..i + 1]), |QueueOf(mac, qs[..i])|;
    assert qs[..|qs|] == qs;
    QueueStep(mac, qs, i);
    QueuePrefix(mac, qs, i + 1, |qs|);
    ResultsPrefix(mac, qs, i + 1, r, env);
    LastReply(mac, qs[..i + 1], r, env);
    if Command(mac, qs[i]).Some? {
      assert q == upTo + q[|upTo|..];
      ExecuteFrame(upTo, q[|upTo|..], |upTo|, r, env);
      RepliesGrow(q, |upTo|, |q|, r, env);
    }
  }

  class Store {
    const mac: Bytes -> Bytes
    var redis: Redis

    constructor (mac: Bytes -> Bytes, redis: Redis)
      ensures this.mac == mac && this.redis == redis
    {
      this.mac, this.redis := mac, redis;
    }

    method CreateOrRefresh(q: BindRequest, fault: Fault, before: Redis -> Redis) returns (result: Option<BindResult>)
      requires TypedRequest(q)
      modifies this
      ensures fault.NoFault? ==> (redis, result) == (Bind(mac, q, old(redis), before).0, Some(Bind(mac, q, old(redis), before).1))
      ensures !fault.NoFault? ==> result.None? || (result == Some(Refused) && redis == old(redis))
      ensures !fault.NoFault? ==> redis in {old(redis), Bind(mac, q, old(redis), before).0}
    {
      if !ValidateBind(q.binding) { return Some(Refused); }
      var key := RedisKey(mac, q.key);
      if key.None? { return Some(Refused); }
      if fault.LostBefore? { return None; }
      var (after, status) := Cas(before(redis), key.value, EncodeWire(q.binding));
      redis := after;
      if fault.LostAfter? { return None; }
      result := Some(Done(status));
    }

    method Lookup(k: ContinuationKey, start: int, completion: int) returns (hit: Option<Binding>, refused: bool)
      requires WellTyped(k)
      ensures refused <==> RedisKey(mac, k).None?
      ensures hit == if refused then None else LookupAt(redis, RedisKey(mac, k).value, start, completion)
    {
      var key := RedisKey(mac, k);
      if key.None? { return None, true; }
      refused := false;
      if !Live(redis, key.value) { return None, false; }
      var entry := redis.entries[key.value];
      var pttl := entry.deadline - redis.now;
      if pttl <= 0 { return None, false; }
      var deadline := start + pttl * MS;
      if !(deadline > completion) { return None, false; }
      hit := ParseBinding(entry.value);
    }

    /** First loop: validate each request and queue its command. */
    method Queue(qs: seq<BindRequest>) returns (queue: seq<Queued>, queued: array<bool>)
      requires Typed(qs)
      ensures queue == QueueOf(mac, qs)
      ensures fresh(queued) && queued.Length == |qs| && forall j | 0 <= j < |qs| :: queued[j] == Command(mac, qs[j]).Some?
    {
      hide Command, QueueOf;
      EmptyQueue(mac);
      queue, queued := [], new bool[|qs|](_ => false);
      for i := 0 to |qs|
        invariant queue == QueueOf(mac, qs[..i])
        invariant forall j | 0 <= j < i :: queued[j] == Command(mac, qs[j]).Some?
        invariant forall j | i <= j < |qs| :: !queued[j]
      {
        QueueStep(mac, qs, i);
        var cmd := Command(mac, qs[i]);
        if cmd.None? { continue; }
        queue := queue + [Queued(i, cmd.value.0, cmd.value.1)];
        queued[i] := true;
      }
      assert qs[..|qs|] == qs;
    }

    /** The server works through the queue, up to command `stop`. */
    method Exec(queue: seq<Queued>, stop: nat, env: nat -> Redis -> Redis) returns (replies: seq<Status>)
      requires stop <= |queue|
      modifies this
      ensures (redis, replies) == Execute(queue, stop, old(redis), env)
    {
      hide Cas;
      replies := [];
      for k := 0 to stop
        invariant (redis, replies) == Execute(queue, k, old(redis), env)
      {
        var (after, status) := Cas(env(queue[k].index)(redis), queue[k].key, queue[k].payload);
        redis := after;
        replies := replies + [status];
      }
    }

    /** Last loop: put each reply at the index of its request. */
    method Collect(qs: seq<BindRequest>, queued: array<bool>, replies: seq<Status>, ghost r: Redis, ghost env: nat -> Redis -> Redis)
      returns (results: seq<BindResult>)
      requires Typed(qs) && queued.Length == |qs|
      requires forall j | 0 <= j < |qs| :: queued[j] == Command(mac, qs[j]).Some?
      requires replies == Execute(QueueOf(mac, qs), |QueueOf(mac, qs)|, r, env).1
      ensures results == BindAll(mac, qs, r, env).1
    {
      hide Command, Execute, BindAll, QueueOf;
      EmptyQueue(mac);
      var slots := new BindResult[|qs|](_ => Refused);
      var k := 0;
      ghost var all := BindAll(mac, qs, r, env).1;
      for i := 0 to |qs|
        invariant k == |QueueOf(mac, qs[..i])|
        invariant forall j | 0 <= j < i :: slots[j] == all[j]
        invariant forall j | i <= j < |qs| :: slots[j] == Refused
      {
        ReplyOf(mac, qs, i, r, env);
        if !queued[i] { continue; }
        slots[i] := Done(replies[k]);
        k := k + 1;
      }
      results := slots[..];
    }

    /** One pipeline: validate and queue, execute, read the replies. If the pipeline reports an error, `executed` of its commands
        have taken effect; if it does not, all of them have. */
    method CreateOrRefreshBatch(qs: seq<BindRequest>, failed: bool, executed: nat, env: nat -> Redis -> Redis)
      returns (results: Option<seq<BindResult>>)
      requires Typed(qs)
      modifies this
      ensures !failed || qs == [] ==>
                redis == BindAll(mac, qs, old(redis), env).0 && results == Some(BindAll(mac, qs, old(redis), env).1)
      ensures failed && qs != [] ==>
                results.None? && exists p | 0 <= p <= |qs| :: redis == BindAll(mac, qs[..p], old(redis), env).0
    {
      hide Command, Execute, BindAll, QueueOf;
      if |qs| == 0 {
        EmptyBatch(mac, redis, env);
        return Some([]);
      }
      var queue, queued := Queue(qs);
      var stop := if failed && executed < |queue| then executed else |queue|;
      var replies := Exec(queue, stop, env);
      if failed {
        ExecutePrefix(mac, qs, stop, old(redis), env);
        return None;
      }
      ExecuteAll(mac, qs, old(redis), env);
      var collected := Collect(qs, queued, replies, old(redis), env);
      results := Some(collected);
    }
  }
}

/** What holds of a binding over every run of the server, whatever clients interleave. */
module BindingRuns {
  import opened Ints
  import opened Fields
  import opened RoutingKeys
  import Base16
  import opened Wire
  import opened BindingStore

  /** Any client's command, time passing, or the server removing a key that is dead. */
  datatype Step = Send(key: Bytes, binding: Binding) | Pass(ms: nat) | Purge(key: Bytes)

  function Next(r: Redis, s: Step): Redis {
    match s
    case Send(key, b) => Cas(r, key, EncodeWire(b)).0
    case Pass(ms) => r.(now := r.now + ms)
    case Purge(key) => if Live(r, key) then r else r.(entries := r.entries - {key})
  }

  predicate ValidSteps(steps: seq<Step>) { forall i | 0 <= i < |steps| :: steps[i].Send? ==> Valid(steps[i].binding) }

  function Run(r: Redis, steps: seq<Step>): Redis {
    if steps == [] then r else Next(Run(r, steps[..|steps| - 1]), steps[|steps| - 1])
  }

  /** Values are encodings of valid bindings, and no deadline is further off than the time to live. */
  ghost predicate Sane(r: Redis) {
    forall key | key in r.entries ::
      r.entries[key].deadline <= r.now + TTL_MS && exists b: Binding :: Valid(b) && r.entries[key].value == EncodeWire(b)
  }

  lemma {:induction false} RunSane(r: Redis, steps: seq<Step>)
    requires Sane(r) && ValidSteps(steps)
    ensures Sane(Run(r, steps)) && r.now <= Run(r, steps).now
  {
    hide EncodeWire, Valid;
    if steps != [] { RunSane(r, steps[..|steps| - 1]); }
  }

  /** What one compare-and-set does: created if and only if nothing was alive there, a conflict if and only if something else was,
      and otherwise the payload is held for the whole time to live; no other key is touched. */
  lemma CasOutcome(r: Redis, key: Bytes, payload: Bytes, other: Bytes)
    ensures var (after, status) := Cas(r, key, payload);
            var alive := key in r.entries && r.now <= r.entries[key].deadline;
            && (status.Created? <==> !alive) && (status.Conflict? <==> alive && r.entries[key].value != payload)
            && (status.Conflict? ==> after == r) && after.now == r.now
            && (!status.Conflict? ==> key in after.entries && after.entries[key] == Entry(payload, r.now + 86_400_000))
            && (other != key ==> (other in after.entries <==> other in r.entries)
                                 && (other in r.entries ==> after.entries[other] == r.entries[other]))
  {}

  /** The only commands sent carry valid bindings. */
  lemma CommandsAreValid(mac: Bytes -> Bytes, q: BindRequest)
    requires TypedRequest(q)
    ensures Command(mac, q).Some? ==> Valid(q.binding) && Command(mac, q).value.1 == EncodeWire(q.binding)
    ensures Command(mac, q).None? <==> !Valid(q.binding) || q.key.continuation == [] || q.key.protocolTag == []
  {}

  lemma NowGrows(r: Redis, steps: seq<Step>)
    ensures r.now <= Run(r, steps).now
  {}

  /** Until its deadline a binding stays, with the same payload and no earlier a deadline, through every run. */
  lemma {:induction false} HeldToDeadline(r: Redis, steps: seq<Step>, key: Bytes)
    requires Live(r, key) && Run(r, steps).now <= r.entries[key].deadline <= r.now + TTL_MS
    ensures var end := Run(r, steps);
            Live(end, key) && end.entries[key].value == r.entries[key].value && end.entries[key].deadline >= r.entries[key].deadline
  {
    hide EncodeWire;
    if steps != [] {
      NowGrows(r, steps[..|steps| - 1]);
      HeldToDeadline(r, steps[..|steps| - 1], key);
    }
  }

  /** However often it is refreshed, a binding that has not expired has the payload it was created with. */
  lemma {:induction false} NeverRewritten(r: Redis, steps: seq<Step>, key: Bytes)
    requires forall i | 0 <= i <= |steps| :: Live(Run(r, steps[..i]), key)
    ensures Live(r, key) && Live(Run(r, steps), key) && Run(r, steps).entries[key].value == r.entries[key].value
  {
    hide EncodeWire;
    assert steps[..0] == [] && steps[..|steps|] == steps;
    if steps != [] {
      var front := steps[..|steps| - 1];
      forall i | 0 <= i <= |front| ensures Live(Run(r, front[..i]), key) { assert front[..i] == steps[..i]; }
      NeverRewritten(r, front, key);
      assert steps[..|steps| - 1] == front;
    }
  }

  /** A writer that created or refreshed a binding keeps it for the whole time to live: whoever writes another binding under the key
      gets a conflict and changes nothing, and whoever repeats it gets a refresh. */
  lemma FirstWriterWins(r: Redis, key: Bytes, b: Binding, steps: seq<Step>, c: Binding)
    requires Valid(b) && Valid(c) && Cas(r, key, EncodeWire(b)).1 != Conflict
    requires Run(Cas(r, key, EncodeWire(b)).0, steps).now <= r.now + TTL_MS
    ensures var end := Run(Cas(r, key, EncodeWire(b)).0, steps);
            if c == b then Cas(end, key, EncodeWire(c)).1 == Refreshed else Cas(end, key, EncodeWire(c)) == (end, Conflict)
  {
    hide EncodeWire, Valid, Run;
    HeldToDeadline(Cas(r, key, EncodeWire(b)).0, steps, key);
    if c != b && EncodeWire(b) == EncodeWire(c) { WireInjective(b, c); }
  }

  /** Every hit is a validated binding that is still unexpired at the completion sample. The client's clock is off by `skew`;
      its samples are taken at `t0` and `t2` and the server works at `t1` in between. */
  lemma HitIsFresh(r: Redis, key: Bytes, t0: nat, t1: nat, t2: nat, skew: int, steps: seq<Step>)
    requires Sane(r) && t0 <= t1 <= t2 && r.now == t1 / MS
    requires Run(r, steps).now == t2 / MS && LookupAt(r, key, t0 + skew, t2 + skew).Some?
    ensures var b, end := LookupAt(r, key, t0 + skew, t2 + skew).value, Run(r, steps);
            Valid(b) && Live(end, key) && end.entries[key].value == EncodeWire(b)
  {
    hide EncodeWire, Valid, ParseBinding, Run;
    WireCanonical(r.entries[key].value);
    StillInTime(t0, t1, t2, r.entries[key].deadline);
    HeldToDeadline(r, steps, key);
  }

  lemma StillInTime(t0: nat, t1: nat, t2: nat, deadline: int)
    requires t0 <= t1 && t2 < t0 + (deadline - t1 / MS) * MS
    ensures t2 / MS <= deadline
  {
    assert t1 == MS * (t1 / MS) + t1 % MS;
    assert t2 < deadline * MS + MS;
    assert t2 == MS * (t2 / MS) + t2 % MS;
  }

  /** A lookup misses only what is dead, due at once, or would be dead by the completion sample, and its arithmetic stays in range. */
  lemma HitIff(r: Redis, key: Bytes, start: int, completion: int)
    requires Sane(r)
    ensures LookupAt(r, key, start, completion).Some? <==>
            key in r.entries && r.entries[key].deadline > r.now && completion < start + (r.entries[key].deadline - r.now) * 1_000_000
    ensures LookupAt(r, key, start, completion).Some? ==>
            EncodeWire(LookupAt(r, key, start, completion).value) == r.entries[key].value
    ensures Live(r, key) ==> 0 <= (r.entries[key].deadline - r.now) * 1_000_000 <= MAX_INT64
  {
    hide EncodeWire, Valid, ParseBinding;
    if key in r.entries {
      var b: Binding :| Valid(b) && r.entries[key].value == EncodeWire(b);
      WireRoundTrip(b);
    }
  }

  /** Two continuations share a key if and only if the key hash agrees on their tuples: they are the same, or their two tuples are a
      collision of the hash. */
  lemma KeysIndependent(mac: Bytes -> Bytes, j: ContinuationKey, k: ContinuationKey)
    requires WellTyped(j) && WellTyped(k) && RedisKey(mac, j).Some? && RedisKey(mac, k).Some?
    ensures var a, b := Tagged(TupleFields(j)), Tagged(TupleFields(k));
            && RedisKey(mac, j).value == Text("c3api:cont:") + Base16.Encode(mac(a))
            && (RedisKey(mac, j) == RedisKey(mac, k) <==> mac(a) == mac(b))
            && (RedisKey(mac, j) == RedisKey(mac, k) ==> j == k || (a != b && mac(a) == mac(b)))
  {
    hide Tagged, TupleFields, Base16.Encode;
    var a, b := Tagged(TupleFields(j)), Tagged(TupleFields(k));
    var x, y := Base16.Encode(mac(a)), Base16.Encode(mac(b));
    assert (PREFIX + x)[|PREFIX|..] == x && (PREFIX + y)[|PREFIX|..] == y;
    if x == y { Base16.Injective(mac(a), mac(b)); }
    if a == b { TupleInjective(j, k); }
  }

  /** What happens between the commands once request `i` is left out. */
  function LeaveOut(env: nat -> Redis -> Redis, i: nat): nat -> Redis -> Redis {
    (j: nat) => env(if j < i then j else j + 1)
  }

  lemma {:induction false} OnlyEarlier(mac: Bytes -> Bytes, qs: seq<BindRequest>, i: nat, r: Redis, env: nat -> Redis -> Redis)
    requires Typed(qs) && |qs| <= i
    ensures BindAll(mac, qs, r, LeaveOut(env, i)) == BindAll(mac, qs, r, env)
    decreases |qs|
  {
    hide Bind;
    if qs != [] { OnlyEarlier(mac, qs[..|qs| - 1], i, r, env); }
  }

  /** A refused item touches nothing and blocks nobody: the batch leaves the state, and gives the other items the results, of the batch
      without it. */
  lemma {:induction false} RefusedTouchesNothing(mac: Bytes -> Bytes, qs: seq<BindRequest>, i: nat, r: Redis, env: nat -> Redis -> Redis)
    requires Typed(qs) && i < |qs| && Command(mac, qs[i]).None?
    ensures var rest := qs[..i] + qs[i + 1..];
            var (all, without) := (BindAll(mac, qs, r, env), BindAll(mac, rest, r, LeaveOut(env, i)));
            all.0 == without.0 && all.1 == without.1[..i] + [Refused] + without.1[i..]
    decreases |qs|
  {
    hide Bind, BindAll, Command;
    var n, rest := |qs| - 1, qs[..i] + qs[i + 1..];
    LastRequest(mac, qs, r, env);
    if i == n {
      assert rest == qs[..n];
      OnlyEarlier(mac, qs[..n], i, r, env);
      RefusedAlone(mac, qs[n], BindAll(mac, qs[..n], r, env).0, env(n));
    } else {
      RefusedTouchesNothing(mac, qs[..n], i, r, env);
      assert rest[..n - 1] == qs[..n][..i] + qs[..n][i + 1..];
      LastRequest(mac, rest, r, LeaveOut(env, i));
      var before := BindAll(mac, rest[..n - 1], r, LeaveOut(env, i));
      Insertion(before.1, i, Refused, Bind(mac, qs[n], before.0, env(n)).1);
    }
  }

  lemma LastRequest(mac: Bytes -> Bytes, qs: seq<BindRequest>, r: Redis, env: nat -> Redis -> Redis)
    requires Typed(qs) && qs != []
    ensures var n := |qs| - 1;
            var before := BindAll(mac, qs[..n], r, env);
            BindAll(mac, qs, r, env)
            == (Bind(mac, qs[n], before.0, env(n)).0, before.1 + [Bind(mac, qs[n], before.0, env(n)).1])
  {}

  lemma RefusedAlone(mac: Bytes -> Bytes, q: BindRequest, r: Redis, before: Redis -> Redis)
    requires TypedRequest(q) && Command(mac, q).None?
    ensures Bind(mac, q, r, before) == (r, Refused)
  {}

  lemma Insertion(w: seq<BindResult>, i: nat, x: BindResult, last: BindResult)
    requires i <= |w|
    ensures (w + [last])[..i] + [x] + (w + [last])[i..] == w[..i] + [x] + w[i..] + [last]
  {}
}
