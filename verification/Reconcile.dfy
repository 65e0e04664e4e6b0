/** Repairing Redis counters from the database (internal/like/reconcile.go). */
module Reconcile {
  import opened Collections
  import opened LikeKeys
  import opened LikeCounters

  /** The like_count column, never negative; a missing row reads 0. */
  type Snapshot = map<int, nat>

  function DbCount(db: Snapshot, vid: int): nat {
    if vid in db then db[vid] else 0
  }

  // ---------------- one video ----------------

  /** The effect of syncVideo on the raw counter: the correction comes from the clamped count. */
  function SyncRaw(raw: int, db: nat): int {
    raw + db - (if raw < 0 then 0 else raw)
  }

  predicate Within(raw: int, db: nat, threshold: nat) {
    Abs((if raw < 0 then 0 else raw) - db) <= threshold
  }

  /** One visit of the reconciler. */
  function Visit(raw: int, db: nat, threshold: nat): int {
    if Within(raw, db, threshold) then raw else SyncRaw(raw, db)
  }

  function Visits(raw: int, db: nat, threshold: nat, n: nat): int {
    if n == 0 then raw else Visit(Visits(raw, db, threshold, n - 1), db, threshold)
  }

  lemma {:induction false} VisitsFirst(raw: int, db: nat, threshold: nat, n: nat)
    ensures Visits(raw, db, threshold, n + 1) == Visits(Visit(raw, db, threshold), db, threshold, n)
  {
    if n > 0 {
      VisitsFirst(raw, db, threshold, n - 1);
    }
  }

  lemma {:induction false} StaysWithin(raw: int, db: nat, threshold: nat, n: nat)
    requires Within(raw, db, threshold)
    ensures Visits(raw, db, threshold, n) == raw
  {
    if n > 0 {
      StaysWithin(raw, db, threshold, n - 1);
    }
  }

  /** A visit that corrects a negative counter strictly raises it, by the database count. */
  lemma VisitRaises(raw: int, db: nat, threshold: nat)
    requires raw < 0 && !Within(raw, db, threshold)
    ensures Visit(raw, db, threshold) == raw + db > raw
  {
  }

  /** From any counter, at most max(0, -raw) + 1 visits bring the count within the threshold, for good. */
  lemma {:induction false} VisitsConverge(raw: int, db: nat, threshold: nat, n: nat)
    requires n > (if raw < 0 then -raw else 0)
    ensures Within(Visits(raw, db, threshold, n), db, threshold)
    decreases n
  {
    if Within(raw, db, threshold) {
      StaysWithin(raw, db, threshold, n);
    } else {
      var next := Visit(raw, db, threshold);
      VisitsFirst(raw, db, threshold, n - 1);
      if raw < 0 && n > 1 {
        VisitRaises(raw, db, threshold);
        VisitsConverge(next, db, threshold, n - 1);
      } else {
        assert next == db;
        StaysWithin(next, db, threshold, n - 1);
      }
    }
  }

  // ---------------- on the counters ----------------

  function Sync(c: Counters, vid: int, db: nat): Counters {
    var delta := db - ClampedCount(c, vid);
    if delta == 0 then c else Bump(c, HomeKey(vid), delta)
  }

  lemma SyncAt(c: Counters, vid: int, db: nat, v: int)
    requires HomeOnly(c)
    ensures HomeOnly(Sync(c, vid, db))
    ensures v != vid ==> Raw(Sync(c, vid, db), v) == Raw(c, v)
    ensures vid >= 0 ==> Raw(Sync(c, vid, db), vid) == SyncRaw(Raw(c, vid), db)
  {
    if vid >= 0 {
      CountIsHomeCounter(c, vid);
    }
  }

  /** One syncVideo reaches the database count exactly when the raw sum was not negative, or there
      was nothing to reach. */
  lemma SyncReachesDb(c: Counters, vid: int, db: nat)
    requires HomeOnly(c) && vid >= 0
    ensures ClampedCount(Sync(c, vid, db), vid) == db <==> (ShardSum(c, vid, COUNTER_SHARDS) >= 0 || db == 0)
  {
    SyncAt(c, vid, db, vid);
    CountIsHomeCounter(c, vid);
    CountIsHomeCounter(Sync(c, vid, db), vid);
  }

  /** Deltas that were pending during a successful repair shift the repaired counter by exactly
      themselves when they are flushed. */
  lemma PendingShiftsRepair(c: Counters, vid: int, db: nat, pending: Deltas)
    requires HomeOnly(c) && vid >= 0 && Raw(c, vid) >= 0
    ensures Raw(ApplyBatch(Sync(c, vid, db), pending), vid) == db + Get(pending, vid)
  {
    SyncAt(c, vid, db, vid);
    ApplyBatchAt(Sync(c, vid, db), pending, HomeKey(vid));
  }

  /** One scanned key and what becomes of the commands for it: reading the two counts, correcting. */
  datatype Scan = Scan(key: string, readsFail: bool, incrFails: bool)

  /** What the reconciler does for one scanned key; one whose commands fail is left alone. */
  function RepairKey(c: Counters, x: Scan, db: Snapshot, threshold: nat): Counters {
    if OutcomeOf(c, x, db, threshold) == Repaired then Sync(c, VidOfKey(x.key), DbCount(db, VidOfKey(x.key))) else c
  }

  datatype Outcome = Nothing | Repaired | Failed

  function OutcomeOf(c: Counters, x: Scan, db: Snapshot, threshold: nat): Outcome {
    var vid := VidOfKey(x.key);
    if vid == 0 then Nothing
    else if x.readsFail then Failed
    else if Abs(ClampedCount(c, vid) - DbCount(db, vid)) <= threshold then Nothing
    else if x.incrFails then Failed else Repaired
  }

  function RepairAll(c: Counters, xs: seq<Scan>, db: Snapshot, threshold: nat): Counters {
    if xs == [] then c
    else RepairKey(RepairAll(c, xs[..|xs| - 1], db, threshold), xs[|xs| - 1], db, threshold)
  }

  /** How the keys of a pass end, each in the counters that the keys before it left. */
  function Outcomes(c: Counters, xs: seq<Scan>, db: Snapshot, threshold: nat): (os: seq<Outcome>)
    ensures |os| == |xs|
  {
    if xs == [] then []
    else
      var init := xs[..|xs| - 1];
      Outcomes(c, init, db, threshold) + [OutcomeOf(RepairAll(c, init, db, threshold), xs[|xs| - 1], db, threshold)]
  }

  lemma {:induction false} OutcomesAt(c: Counters, xs: seq<Scan>, db: Snapshot, threshold: nat, i: nat)
    requires i < |xs|
    ensures Outcomes(c, xs, db, threshold)[i] == OutcomeOf(RepairAll(c, xs[..i], db, threshold), xs[i], db, threshold)
    decreases |xs|
  {
    var n := |xs| - 1;
    if i < n {
      OutcomesAt(c, xs[..n], db, threshold, i);
      assert xs[..n][..i] == xs[..i];
    }
  }

  predicate Works(x: Scan, vid: int) {
    VidOfKey(x.key) == vid && !x.readsFail && !x.incrFails
  }

  /** How often the video's keys come up with working commands. */
  function Scanned(xs: seq<Scan>, vid: int): nat {
    if xs == [] then 0
    else Scanned(xs[..|xs| - 1], vid) + (if Works(xs[|xs| - 1], vid) then 1 else 0)
  }

  /** A key acts on its own video only; with failing commands it does not act at all. */
  lemma RepairKeyAt(c: Counters, x: Scan, db: Snapshot, threshold: nat, v: int)
    requires HomeOnly(c) && v > 0
    ensures var c' := RepairKey(c, x, db, threshold);
            HomeOnly(c') && Raw(c', v) == if Works(x, v) then Visit(Raw(c, v), DbCount(db, v), threshold) else Raw(c, v)
  {
    var vid := VidOfKey(x.key);
    SyncAt(c, vid, DbCount(db, vid), v);
    if vid == v {
      CountIsHomeCounter(c, v);
    }
  }

  /** A scan may return keys of many videos, in any order and more than once, and any command may
      fail at any time: each video is visited as often as its keys come up with working commands,
      and no video disturbs another. */
  lemma {:induction false} ScanVisits(c: Counters, xs: seq<Scan>, db: Snapshot, threshold: nat, v: int)
    requires HomeOnly(c) && v > 0
    ensures var c' := RepairAll(c, xs, db, threshold);
            HomeOnly(c') && Raw(c', v) == Visits(Raw(c, v), DbCount(db, v), threshold, Scanned(xs, v))
    decreases |xs|
  {
    if xs != [] {
      ScanVisits(c, xs[..|xs| - 1], db, threshold, v);
      RepairKeyAt(RepairAll(c, xs[..|xs| - 1], db, threshold), xs[|xs| - 1], db, threshold, v);
    }
  }

  /** The count read for the video differs from the like_count column by at most the threshold. */
  predicate CloseToDb(c: Counters, vid: int, db: Snapshot, threshold: nat) {
    if vid in db then db[vid] - threshold <= ClampedCount(c, vid) <= db[vid] + threshold
    else ClampedCount(c, vid) <= threshold
  }

  /** Scans that keep returning a video's key bring its count within the threshold of the database. */
  lemma ReconcileConverges(c: Counters, xs: seq<Scan>, db: Snapshot, threshold: nat, v: int)
    requires HomeOnly(c) && v > 0
    requires Scanned(xs, v) > (if Raw(c, v) < 0 then -Raw(c, v) else 0)
    ensures CloseToDb(RepairAll(c, xs, db, threshold), v, db, threshold)
  {
    ScanVisits(c, xs, db, threshold, v);
    VisitsConverge(Raw(c, v), DbCount(db, v), threshold, Scanned(xs, v));
    CountIsHomeCounter(RepairAll(c, xs, db, threshold), v);
  }

  /** Whatever the counters were, each video whose keys came up often enough is close to the database. */
  ghost predicate Converged(before: Counters, after: Counters, xs: seq<Scan>, db: Snapshot, threshold: nat) {
    HomeOnly(before) ==>
      forall v | v > 0 && Scanned(xs, v) > 0 && Scanned(xs, v) > -Raw(before, v) :: CloseToDb(after, v, db, threshold)
  }

  lemma PassConverges(c: Counters, xs: seq<Scan>, db: Snapshot, threshold: nat)
    ensures Converged(c, RepairAll(c, xs, db, threshold), xs, db, threshold)
  {
    if HomeOnly(c) {
      forall v | v > 0 && Scanned(xs, v) > 0 && Scanned(xs, v) > -Raw(c, v)
        ensures CloseToDb(RepairAll(c, xs, db, threshold), v, db, threshold)
      {
        ReconcileConverges(c, xs, db, threshold, v);
      }
    }
  }

  /** The counters and the two tallies after the keys xs. */
  ghost predicate PassedKeys(c: Counters, xs: seq<Scan>, db: Snapshot, threshold: nat,
                             c': Counters, reconciled: nat, errors: nat) {
    var os := Outcomes(c, xs, db, threshold);
    && c' == RepairAll(c, xs, db, threshold)
    && reconciled == multiset(os)[Repaired] && errors == multiset(os)[Failed]
  }

  // ---------------- the reconciler ----------------

  class Reconciler {
    const redis: Redis
    const threshold: nat

    constructor (redis: Redis, threshold: nat)
      ensures this.redis == redis && this.threshold == threshold
    {
      this.redis, this.threshold := redis, threshold;
    }

    method SyncVideo(vid: int, dbCnt: nat, incrFails: bool) returns (err: bool)
      modifies redis`counters
      ensures redis.counters == if err then old(redis.counters) else Sync(old(redis.counters), vid, dbCnt)
      ensures err <==> incrFails && ClampedCount(old(redis.counters), vid) != dbCnt
    {
      var redisCnt := redis.Count(vid);
      var delta := dbCnt - redisCnt;
      if delta == 0 { return false; }
      var shard := GoMod(vid, COUNTER_SHARDS);
      err := redis.IncrBy(ShardKey(vid, shard), delta, incrFails);
    }

    /** One scanned key. A key is repaired, found in order, or counted as an error and left alone. */
    method ReconcileKey(x: Scan, db: Snapshot) returns (outcome: Outcome)
      modifies redis`counters
      ensures redis.counters == RepairKey(old(redis.counters), x, db, threshold)
      ensures outcome == OutcomeOf(old(redis.counters), x, db, threshold)
      ensures outcome != Repaired ==> redis.counters == old(redis.counters)
      ensures var vid, c := VidOfKey(x.key), old(redis.counters);
              outcome == if vid == 0 then Nothing
                         else if x.readsFail then Failed
                         else if CloseToDb(c, vid, db, threshold) then Nothing
                         else if x.incrFails then Failed
                         else Repaired
      ensures var vid, c := VidOfKey(x.key), old(redis.counters);
              outcome == Repaired && vid > 0 && HomeOnly(c) && Raw(c, vid) >= 0 ==>
                ClampedCount(redis.counters, vid) == if vid in db then db[vid] else 0
    {
      var vid := ParseVidFromKey(x.key);
      if vid == 0 { return Nothing; }
      if x.readsFail { return Failed; }
      var redisCnt := redis.Count(vid);
      var dbCnt := DbCount(db, vid);
      var diff := redisCnt - dbCnt;
      if Abs(diff) <= threshold { return Nothing; }
      ghost var c := redis.counters;
      var err := SyncVideo(vid, dbCnt, x.incrFails);
      if vid > 0 && HomeOnly(c) {
        CountIsHomeCounter(c, vid);
        SyncReachesDb(c, vid, dbCnt);
      }
      outcome := if err then Failed else Repaired;
    }

    /** One pass over the pages of a SCAN, without other writers. Errors of one key do not keep the
        pass from repairing the others. */
    method ReconcileAll(pages: seq<seq<Scan>>, db: Snapshot) returns (reconciled: nat, errors: nat)
      modifies redis`counters
      ensures PassedKeys(old(redis.counters), Concat(pages), db, threshold, redis.counters, reconciled, errors)
      ensures Converged(old(redis.counters), redis.counters, Concat(pages), db, threshold)
    {
      reconciled, errors := 0, 0;
      ghost var c := redis.counters;
      for p := 0 to |pages|
        invariant PassedKeys(c, Concat(pages[..p]), db, threshold, redis.counters, reconciled, errors)
      {
        reconciled, errors := ReconcilePage(pages[p], Concat(pages[..p]), c, db, reconciled, errors);
        assert pages[..p + 1] == pages[..p] + [pages[p]];
        ConcatSnoc(pages[..p], pages[p]);
      }
      assert pages[..|pages|] == pages;
      PassConverges(c, Concat(pages), db, threshold);
    }

    /** The keys of one page, after the keys in `done`. */
    method ReconcilePage(xs: seq<Scan>, ghost done: seq<Scan>, ghost c: Counters, db: Snapshot,
                         reconciled0: nat, errors0: nat)
      returns (reconciled: nat, errors: nat)
      requires PassedKeys(c, done, db, threshold, redis.counters, reconciled0, errors0)
      modifies redis`counters
      ensures PassedKeys(c, done + xs, db, threshold, redis.counters, reconciled, errors)
    {
      reconciled, errors := reconciled0, errors0;
      assert done + xs[..0] == done;
      for i := 0 to |xs|
        invariant PassedKeys(c, done + xs[..i], db, threshold, redis.counters, reconciled, errors)
      {
        OneMore(c, done + xs[..i], xs[i], db, threshold, redis.counters, reconciled, errors);
        assert done + xs[..i + 1] == done + xs[..i] + [xs[i]];
        var outcome := ReconcileKey(xs[i], db);
        match outcome {
          case Repaired => reconciled := reconciled + 1;
          case Failed => errors := errors + 1;
          case Nothing =>
        }
      }
      assert xs[..|xs|] == xs;
    }
  }

  /** A pass that goes one key further. */
  lemma OneMore(c: Counters, xs: seq<Scan>, x: Scan, db: Snapshot, threshold: nat,
                before: Counters, reconciled: nat, errors: nat)
    requires PassedKeys(c, xs, db, threshold, before, reconciled, errors)
    ensures var o := OutcomeOf(before, x, db, threshold);
            PassedKeys(c, xs + [x], db, threshold, RepairKey(before, x, db, threshold),
                       reconciled + (if o == Repaired then 1 else 0), errors + (if o == Failed then 1 else 0))
  {
    assert (xs + [x])[..|xs|] == xs;
    var o, os := OutcomeOf(before, x, db, threshold), Outcomes(c, xs, db, threshold);
    assert Outcomes(c, xs + [x], db, threshold) == os + [o];
    CountSnoc(os, o, Repaired);
    CountSnoc(os, o, Failed);
  }

  lemma CountSnoc(os: seq<Outcome>, o: Outcome, wanted: Outcome)
    ensures multiset(os + [o])[wanted] == multiset(os)[wanted] + if o == wanted then 1 else 0
  {
  }
}
