/** Sharded Redis counters, the in-memory aggregator in front of them, and the clamped read
    (internal/like/aggregator.go, read.go, service.go). */
module LikeCounters {
  import opened Collections
  import opened LikeKeys

  type Counters = map<ShardKey, int>

  /** Video -> pending increment. */
  type Deltas = map<int, int>

  function Raw(c: Counters, vid: int): int {
    Get(c, HomeKey(vid))
  }

  function Merge(a: Deltas, b: Deltas): Deltas {
    map v | v in a.Keys + b.Keys :: Get(a, v) + Get(b, v)
  }

  /** What a batch adds to one Redis key: a video's delta goes to its home shard. */
  function Share(b: Deltas, k: ShardKey): int {
    if k == HomeKey(k.vid) then Get(b, k.vid) else 0
  }

  /** The counters after the pipeline of a flush; zero deltas send no command. */
  function ApplyBatch(c: Counters, b: Deltas): Counters {
    map k | k in c.Keys + (set v | v in b && b[v] != 0 :: HomeKey(v)) :: Get(c, k) + Share(b, k)
  }

  lemma ApplyBatchAt(c: Counters, b: Deltas, k: ShardKey)
    ensures Get(ApplyBatch(c, b), k) == Get(c, k) + Share(b, k)
  {
    if k !in ApplyBatch(c, b) && k == HomeKey(k.vid) && k.vid in b {
      assert b[k.vid] == 0;
    }
  }

  // ---------------- reading ----------------

  function ShardSum(c: Counters, vid: int, n: nat): int {
    if n == 0 then 0 else ShardSum(c, vid, n - 1) + Get(c, ShardKey(vid, n - 1))
  }

  function ClampedCount(c: Counters, vid: int): nat {
    var total := ShardSum(c, vid, COUNTER_SHARDS);
    if total < 0 then 0 else total
  }

  predicate HomeOnly(c: Counters) {
    forall k | k in c :: k == HomeKey(k.vid)
  }

  lemma {:induction false} ShardSumPrefix(c: Counters, vid: int, n: nat)
    requires HomeOnly(c)
    ensures ShardSum(c, vid, n) == if 0 <= HomeShard(vid) < n then Raw(c, vid) else 0
  {
    if n > 0 {
      ShardSumPrefix(c, vid, n - 1);
    }
  }

  /** Sharding is invisible: the 16-way sum is the one counter at the home shard. */
  lemma CountIsHomeCounter(c: Counters, vid: int)
    requires HomeOnly(c) && vid >= 0
    ensures ShardSum(c, vid, COUNTER_SHARDS) == Raw(c, vid)
    ensures ClampedCount(c, vid) == if Raw(c, vid) < 0 then 0 else Raw(c, vid)
  {
    ShardSumPrefix(c, vid, COUNTER_SHARDS);
  }

  // ---------------- Redis ----------------

  function ExecCommands(c: Counters, commands: seq<(ShardKey, int)>): Counters {
    if commands == [] then c
    else
      var last := commands[|commands| - 1];
      Bump(ExecCommands(c, commands[..|commands| - 1]), last.0, last.1)
  }

  /** `gate` holds the pairs (uid, vid) with vid in the set userlike:{uid}. Each method is one
      command or one pipeline; a failing one changes nothing. */
  class Redis {
    var counters: Counters
    var gate: set<(int, int)>

    constructor ()
      ensures counters == map[] && gate == {}
    {
      counters, gate := map[], {};
    }

    method SAdd(uid: int, vid: int, fails: bool) returns (added: nat, err: bool)
      modifies this`gate
      ensures err == fails && gate == if err then old(gate) else old(gate) + {(uid, vid)}
      ensures added == if !err && (uid, vid) !in old(gate) then 1 else 0
    {
      err := fails;
      added := if !fails && (uid, vid) !in gate then 1 else 0;
      if !fails { gate := gate + {(uid, vid)}; }
    }

    method SRem(uid: int, vid: int, fails: bool) returns (removed: nat, err: bool)
      modifies this`gate
      ensures err == fails && gate == if err then old(gate) else old(gate) - {(uid, vid)}
      ensures removed == if !err && (uid, vid) in old(gate) then 1 else 0
    {
      err := fails;
      removed := if !fails && (uid, vid) in gate then 1 else 0;
      if !fails { gate := gate - {(uid, vid)}; }
    }

    method IncrBy(key: ShardKey, delta: int, fails: bool) returns (err: bool)
      modifies this`counters
      ensures err == fails && counters == if err then old(counters) else Bump(old(counters), key, delta)
    {
      err := fails;
      if !fails { counters := Bump(counters, key, delta); }
    }

    /** All-or-nothing, as the aggregator takes it. */
    method Exec(pipe: seq<(ShardKey, int)>, fails: bool) returns (err: bool)
      modifies this`counters
      ensures err == fails && counters == if err then old(counters) else ExecCommands(old(counters), pipe)
    {
      err := fails;
      if !fails {
        for i := 0 to |pipe|
          invariant counters == ExecCommands(old(counters), pipe[..i])
        {
          assert pipe[..i + 1][..i] == pipe[..i];
          counters := Bump(counters, pipe[i].0, pipe[i].1);
        }
        assert pipe[..|pipe|] == pipe;
      }
    }

    method Count(vid: int) returns (count: int)
      ensures count == ClampedCount(counters, vid)
    {
      var keys: seq<ShardKey> := [];
      for i := 0 to COUNTER_SHARDS
        invariant |keys| == i && forall j | 0 <= j < i :: keys[j] == ShardKey(vid, j)
      {
        keys := keys + [ShardKey(vid, i)];
      }
      var total := 0;
      for i := 0 to |keys|
        invariant total == ShardSum(counters, vid, i)
      {
        total := total + (if keys[i] in counters then counters[keys[i]] else 0);
      }
      if total < 0 {
        total := 0;
      }
      count := total;
    }
  }

  // ---------------- the aggregator ----------------

  function Visited(b: Deltas, todo: set<int>): Deltas {
    map v | v in b && v !in todo :: b[v]
  }

  class CounterAggregator {
    var deltas: Deltas
    const redis: Redis

    constructor (redis: Redis)
      ensures deltas == map[] && this.redis == redis
    {
      deltas := map[];
      this.redis := redis;
    }

    method Add(videoID: int, delta: int)
      modifies this
      ensures deltas == Bump(old(deltas), videoID, delta)
    {
      deltas := Bump(deltas, videoID, delta);
    }

    /** Takes the current map away; later requests accumulate into a new one. */
    method Swap() returns (batch: Deltas)
      modifies this
      ensures batch == old(deltas) && deltas == map[]
    {
      batch := deltas;
      deltas := map[];
    }

    method Send(batch: Deltas, execFails: bool) returns (err: bool)
      modifies redis`counters
      ensures err == execFails
      ensures redis.counters == if err then old(redis.counters) else ApplyBatch(old(redis.counters), batch)
    {
      var pipe: seq<(ShardKey, int)> := [];
      var todo := batch.Keys;
      ghost var c := redis.counters;
      SendNothing(c, batch);
      while todo != {}
        invariant todo <= batch.Keys && redis.counters == c
        invariant ExecCommands(c, pipe) == ApplyBatch(c, Visited(batch, todo))
        decreases todo
      {
        ghost var some := AnyElement(todo);
        var vid :| vid in todo;
        var delta := batch[vid];
        SendOne(c, pipe, batch, todo, vid);
        if delta != 0 {
          pipe := pipe + [(ShardKey(vid, GoMod(vid, COUNTER_SHARDS)), delta)];
        }
        todo := todo - {vid};
      }
      assert Visited(batch, {}) == batch;
      err := redis.Exec(pipe, execFails);
    }

    /** Merges an unsent batch into whatever has accumulated meanwhile. */
    method PutBack(batch: Deltas)
      modifies this
      ensures deltas == Merge(old(deltas), batch)
    {
      var todo := batch.Keys;
      MergeNothing(deltas, batch);
      while todo != {}
        invariant todo <= batch.Keys
        invariant deltas == Merge(old(deltas), Visited(batch, todo))
        decreases todo
      {
        ghost var some := AnyElement(todo);
        var vid :| vid in todo;
        MergeOne(old(deltas), batch, todo, vid);
        deltas := Bump(deltas, vid, batch[vid]);
        todo := todo - {vid};
      }
      assert Visited(batch, {}) == batch;
    }

    /** One tick without interleaved requests: everything pending is sent, or nothing is lost. */
    method Flush(execFails: bool)
      modifies this, redis`counters
      ensures forall v :: Raw(redis.counters, v) + Get(deltas, v) == Raw(old(redis.counters), v) + Get(old(deltas), v)
      ensures execFails ==> redis.counters == old(redis.counters) && deltas == Merge(map[], old(deltas))
      ensures !execFails ==> redis.counters == ApplyBatch(old(redis.counters), old(deltas)) && deltas == map[]
    {
      ghost var c, d := redis.counters, deltas;
      FlushNothing(c, d);
      if |deltas.Keys| == 0 { return; }
      var batch := Swap();
      var err := Send(batch, execFails);
      if err {
        PutBack(batch);
      }
      forall v
        ensures Raw(redis.counters, v) + Get(deltas, v) == Raw(c, v) + Get(d, v)
      {
        ApplyBatchAt(c, d, HomeKey(v));
      }
    }
  }

  lemma SendNothing(c: Counters, b: Deltas)
    ensures ExecCommands(c, []) == ApplyBatch(c, Visited(b, b.Keys))
  {
  }

  /** One more command of the pipeline. */
  lemma SendOne(c: Counters, pipe: seq<(ShardKey, int)>, b: Deltas, todo: set<int>, vid: int)
    requires vid in todo && vid in b && ExecCommands(c, pipe) == ApplyBatch(c, Visited(b, todo))
    ensures ExecCommands(c, if b[vid] == 0 then pipe else pipe + [(HomeKey(vid), b[vid])])
            == ApplyBatch(c, Visited(b, todo - {vid}))
  {
    assert (pipe + [(HomeKey(vid), b[vid])])[..|pipe|] == pipe;
    var x, y := Visited(b, todo), Visited(b, todo - {vid});
    var sent := if b[vid] == 0 then ApplyBatch(c, x) else Bump(ApplyBatch(c, x), HomeKey(vid), b[vid]);
    forall k
      ensures (k in sent <==> k in ApplyBatch(c, y)) && Get(sent, k) == Get(ApplyBatch(c, y), k)
    {
      ApplyBatchAt(c, x, k);
      ApplyBatchAt(c, y, k);
    }
    SameMap(sent, ApplyBatch(c, y));
  }

  lemma MergeNothing(a: Deltas, b: Deltas)
    ensures a == Merge(a, Visited(b, b.Keys))
  {
    var m := Merge(a, Visited(b, b.Keys));
    forall v
      ensures (v in a <==> v in m) && Get(a, v) == Get(m, v)
    {
    }
    SameMap(a, m);
  }

  lemma MergeOne(a: Deltas, b: Deltas, todo: set<int>, vid: int)
    requires vid in todo && vid in b
    ensures Bump(Merge(a, Visited(b, todo)), vid, b[vid]) == Merge(a, Visited(b, todo - {vid}))
  {
    var m, n := Bump(Merge(a, Visited(b, todo)), vid, b[vid]), Merge(a, Visited(b, todo - {vid}));
    forall v
      ensures (v in m <==> v in n) && Get(m, v) == Get(n, v)
    {
    }
    SameMap(m, n);
  }

  /** With nothing pending the tick has nothing to do. */
  lemma FlushNothing(c: Counters, d: Deltas)
    ensures d.Keys == {} ==> d == map[] && ApplyBatch(c, d) == c && Merge(map[], d) == d
  {
    if d.Keys == {} {
      SameMap(ApplyBatch(c, d), c);
    }
  }
}
