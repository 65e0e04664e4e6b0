/** Persisted like records and count snapshots, and the consumer that writes them
    (cmd/likeworker/main.go, internal/like/mysql_repo.go, consumer.go). */
module LikeRepo {
  import opened Collections
  import opened LikeEvents

  // ---------------- records: last writer wins ----------------

  datatype Record = Record(liked: bool, updatedAt: int)

  datatype Row = NoRow | Row(record: Record)

  datatype Write = Write(ts: int, liked: bool)

  function Upsert(row: Row, w: Write): Row {
    match row
    case NoRow => Row(Record(w.liked, w.ts))
    case Row(r) => if w.ts > r.updatedAt then Row(Record(w.liked, w.ts)) else row
  }

  function UpsertFrom(row: Row, ws: seq<Write>): Row {
    if ws == [] then row else Upsert(UpsertFrom(row, ws[..|ws| - 1]), ws[|ws| - 1])
  }

  function UpsertAll(ws: seq<Write>): Row {
    UpsertFrom(NoRow, ws)
  }

  /** INSERT ... ON DUPLICATE KEY UPDATE: the assignments run left to right, each seeing the ones before it. */
  method UpsertSql(row: Row, w: Write) returns (result: Row)
    ensures result == Upsert(row, w)
  {
    var status, updatedAt := w.liked, w.ts;
    if row.Row? {
      status, updatedAt := row.record.liked, row.record.updatedAt;
      status := if w.ts > updatedAt then w.liked else status;
      updatedAt := if w.ts > updatedAt then w.ts else updatedAt;
    }
    result := Row(Record(status, updatedAt));
  }

  /** i is the first arrival with the greatest timestamp. */
  predicate IsLatest(ws: seq<Write>, i: nat) {
    && i < |ws|
    && (forall j | 0 <= j < |ws| :: ws[j].ts <= ws[i].ts)
    && (forall j | 0 <= j < i :: ws[j].ts < ws[i].ts)
  }

  lemma {:induction false} LatestWins(ws: seq<Write>) returns (i: nat)
    requires ws != []
    ensures IsLatest(ws, i) && UpsertAll(ws) == Row(Record(ws[i].liked, ws[i].ts))
    decreases |ws|
  {
    var n := |ws| - 1;
    i := n;
    assert UpsertAll(ws) == Upsert(UpsertAll(ws[..n]), ws[n]);
    if n > 0 {
      var k := LatestWins(ws[..n]);
      if ws[n].ts <= ws[k].ts {
        i := k;
      }
    }
  }

  /** Every write with the greatest timestamp says the same. */
  predicate LatestAgree(ws: seq<Write>) {
    forall a, b | a in ws && b in ws && a.ts == b.ts && (forall c | c in ws :: c.ts <= a.ts) :: a.liked == b.liked
  }

  ghost predicate SameWrites(ws: seq<Write>, xs: seq<Write>) {
    forall w :: w in ws <==> w in xs
  }

  lemma LatestDetermined(ws: seq<Write>, w: Write)
    requires LatestAgree(ws) && w in ws && forall c | c in ws :: c.ts <= w.ts
    ensures UpsertAll(ws) == Row(Record(w.liked, w.ts))
  {
    var i := LatestWins(ws);
    assert ws[i] in ws && ws[i].ts == w.ts;
  }

  lemma FirstArrivalStays(ws: seq<Write>, a: Write)
    requires forall c | c in ws :: c.ts <= a.ts
    ensures UpsertAll([a] + ws) == Row(Record(a.liked, a.ts))
  {
    var xs := [a] + ws;
    var i := LatestWins(xs);
    assert xs[0] == a;
    forall j | 0 <= j < |xs|
      ensures xs[j].ts <= a.ts
    {
      assert xs[j] in xs;
    }
    assert i == 0;
  }

  /** Order and duplication of the writes to one record are irrelevant exactly when its latest
      writes agree, in particular when timestamps are distinct. */
  lemma OrderIrrelevantIff(ws: seq<Write>)
    ensures LatestAgree(ws) <==> forall xs | SameWrites(ws, xs) :: UpsertAll(xs) == UpsertAll(ws)
  {
    if LatestAgree(ws) {
      forall xs | SameWrites(ws, xs)
        ensures UpsertAll(xs) == UpsertAll(ws)
      {
        if ws == [] {
          EmptyWrites(xs);
        } else {
          var i := LatestWins(ws);
          assert forall c | c in ws :: c.ts <= ws[i].ts;
          LatestDetermined(ws, ws[i]);
          LatestDetermined(xs, ws[i]);
        }
      }
    } else {
      var a, b :| a in ws && b in ws && a.ts == b.ts && (forall c | c in ws :: c.ts <= a.ts) && a.liked != b.liked;
      FirstArrivalStays(ws, a);
      FirstArrivalStays(ws, b);
      assert SameWrites(ws, [a] + ws) && SameWrites(ws, [b] + ws);
    }
  }

  /** Every write with the greatest timestamp says what the last one says. */
  predicate NewestSayLast(ws: seq<Write>)
    requires ws != []
  {
    forall a | a in ws && (forall c | c in ws :: c.ts <= a.ts) :: a.liked == ws[|ws| - 1].liked
  }

  predicate Liked(row: Row) {
    row.Row? && row.record.liked
  }

  /** The record tells what the last write said, in whatever order and however often the writes
      arrive, exactly when the newest writes all say it. */
  lemma LastSticksIff(ws: seq<Write>)
    requires ws != []
    ensures NewestSayLast(ws) <==> forall xs | SameWrites(ws, xs) :: Liked(UpsertAll(xs)) == ws[|ws| - 1].liked
  {
    if NewestSayLast(ws) {
      forall xs | SameWrites(ws, xs)
        ensures Liked(UpsertAll(xs)) == ws[|ws| - 1].liked
      {
        LastSticks(ws, xs);
      }
    } else {
      var a :| a in ws && (forall c | c in ws :: c.ts <= a.ts) && a.liked != ws[|ws| - 1].liked;
      FirstArrivalStays(ws, a);
      assert SameWrites(ws, [a] + ws);
    }
  }

  lemma LastSticks(ws: seq<Write>, xs: seq<Write>)
    requires ws != [] && NewestSayLast(ws) && SameWrites(ws, xs)
    ensures Liked(UpsertAll(xs)) == ws[|ws| - 1].liked
  {
    assert ws[|ws| - 1] in xs;
    var i := LatestWins(xs);
    assert xs[i] in ws;
    forall c | c in ws
      ensures c.ts <= xs[i].ts
    {
      assert c in xs;
    }
  }

  lemma EmptyWrites(xs: seq<Write>)
    requires forall w :: w !in xs
    ensures xs == []
  {
    if xs != [] {
      HeadIn(xs);
    }
  }

  // ---------------- snapshots: clamped sums ----------------

  function Clamp(count: int, delta: int): nat {
    if count + delta < 0 then 0 else count + delta
  }

  function Stored(ds: seq<int>): nat {
    if ds == [] then 0 else Clamp(Stored(ds[..|ds| - 1]), ds[|ds| - 1])
  }

  function Sum(ds: seq<int>): int {
    if ds == [] then 0 else Sum(ds[..|ds| - 1]) + ds[|ds| - 1]
  }

  /** The least of 0 and all prefix sums. */
  function LowestPrefix(ds: seq<int>): int {
    if ds == [] then 0
    else
      var low := LowestPrefix(ds[..|ds| - 1]);
      if Sum(ds) < low then Sum(ds) else low
  }

  /** Clamping at zero reflects the running sum at its lowest point. */
  lemma {:induction false} StoredIsReflectedSum(ds: seq<int>)
    ensures Stored(ds) == Sum(ds) - LowestPrefix(ds)
  {
    if ds != [] {
      StoredIsReflectedSum(ds[..|ds| - 1]);
    }
  }

  lemma {:induction false} LowestIsAPrefix(ds: seq<int>)
    ensures LowestPrefix(ds) <= 0
    ensures forall k | 0 <= k <= |ds| :: LowestPrefix(ds) <= Sum(ds[..k])
    ensures LowestPrefix(ds) == 0 || exists k :: 0 <= k <= |ds| && LowestPrefix(ds) == Sum(ds[..k])
  {
    assert ds[..|ds|] == ds;
    if ds != [] {
      var init := ds[..|ds| - 1];
      LowestIsAPrefix(init);
      assert forall k | 0 <= k <= |init| :: init[..k] == ds[..k];
    }
  }

  /** The snapshot never falls below the true sum and equals it exactly when no prefix is negative. */
  lemma SnapshotBound(ds: seq<int>)
    ensures Stored(ds) >= Sum(ds)
    ensures Stored(ds) == Sum(ds) <==> forall k | 0 <= k <= |ds| :: Sum(ds[..k]) >= 0
  {
    StoredIsReflectedSum(ds);
    LowestIsAPrefix(ds);
  }

  lemma {:induction false} StoredAppend(ds: seq<int>, es: seq<int>)
    ensures Stored(ds + es) >= Clamp(Stored(ds), Sum(es))
  {
    if es == [] {
      assert ds + es == ds;
    } else {
      var init := es[..|es| - 1];
      StoredAppend(ds, init);
      assert (ds + es)[..|ds + es| - 1] == ds + init;
    }
  }

  function BatchSums(batches: seq<seq<int>>): seq<int> {
    if batches == [] then [] else BatchSums(batches[..|batches| - 1]) + [Sum(batches[|batches| - 1])]
  }

  /** Applying events in batches never leaves more in the snapshot than applying them one by one. */
  lemma {:induction false} BatchingNeverStoresMore(batches: seq<seq<int>>)
    ensures Stored(BatchSums(batches)) <= Stored(Concat(batches))
  {
    if batches != [] {
      var init, last := batches[..|batches| - 1], batches[|batches| - 1];
      BatchingNeverStoresMore(init);
      assert batches == init + [last];
      ConcatSnoc(init, last);
      StoredAppend(Concat(init), last);
      assert BatchSums(batches)[..|BatchSums(batches)| - 1] == BatchSums(init);
    }
  }

  // ---------------- the repository ----------------

  type Records = map<(int, int), Record>

  type Stats = map<int, int>

  function RowOf(rs: Records, key: (int, int)): Row {
    if key in rs then Row(rs[key]) else NoRow
  }

  /** The row of k after a write to `key`. */
  function RowAfter(rs: Records, key: (int, int), w: Write, k: (int, int)): Row {
    if k == key then Upsert(RowOf(rs, k), w) else RowOf(rs, k)
  }

  class MemLikeRepo {
    var records: Records
    var stats: Stats

    constructor ()
      ensures records == map[] && stats == map[]
    {
      records, stats := map[], map[];
    }

    method UpsertLike(uid: int, vid: int, ts: int, liked: bool, fails: bool) returns (err: bool)
      modifies this`records
      ensures err == fails && (err ==> records == old(records))
      ensures !err ==> forall k :: RowOf(records, k) == RowAfter(old(records), (uid, vid), Write(ts, liked), k)
    {
      err := fails;
      if fails { return; }
      var key := (uid, vid);
      if key !in records {
        records := records[key := Record(liked, ts)];
      } else if ts > records[key].updatedAt {
        records := records[key := Record(liked, ts)];
      }
    }

    /** An error means that no row was written. */
    method ApplyCountDeltas(deltas: map<int, int>, fails: bool) returns (err: bool)
      modifies this`stats
      ensures err <==> fails && deltas.Keys != {}
      ensures err ==> stats == old(stats)
      ensures !err ==> forall v :: Get(stats, v) == (if v in deltas then Clamp(Get(old(stats), v), deltas[v])
                                                     else Get(old(stats), v))
    {
      err := fails && |deltas.Keys| > 0;
      if err { return; }
      var todo := deltas.Keys;
      while todo != {}
        invariant todo <= deltas.Keys
        invariant forall v :: Get(stats, v) ==
                    if v in deltas && v !in todo then Clamp(Get(old(stats), v), deltas[v]) else Get(old(stats), v)
        decreases todo
      {
        ghost var some := AnyElement(todo);
        var vid :| vid in todo;
        stats := Bump(stats, vid, deltas[vid]);
        if stats[vid] < 0 {
          stats := stats[vid := 0];
        }
        todo := todo - {vid};
      }
    }
  }

  /** A row of video_stats, if there is one. */
  datatype StatRow = NoStat | Stat(likeCount: int)

  function Greatest(a: int, b: int): int { if a >= b then a else b }

  /** INSERT GREATEST(0, d), or on a duplicate key UPDATE to GREATEST(0, like_count + d). */
  function StatSql(row: StatRow, delta: int): StatRow {
    match row
    case NoStat => Stat(Greatest(0, delta))
    case Stat(n) => Stat(Greatest(0, n + delta))
  }

  function StatSqlAll(ds: seq<int>): StatRow {
    if ds == [] then NoStat else StatSql(StatSqlAll(ds[..|ds| - 1]), ds[|ds| - 1])
  }

  /** The SQL rows hold the same snapshots as the in-memory ones. */
  lemma {:induction false} SqlKeepsStored(ds: seq<int>)
    ensures StatSqlAll(ds) == if ds == [] then NoStat else Stat(Stored(ds))
  {
    if ds != [] {
      SqlKeepsStored(ds[..|ds| - 1]);
    }
  }

  // ---------------- the consumer ----------------

  predicate Recorded(e: LikeEvent) { e.action != Action.Other }

  /** What an event writes to one record. */
  function WritesOf(e: LikeEvent, key: (int, int)): seq<Write> {
    if (e.userID, e.videoID) == key && Recorded(e) then [Write(e.tsMilli, e.action == Action.Like)] else []
  }

  function WritesTo(es: seq<LikeEvent>, key: (int, int)): seq<Write> {
    if es == [] then [] else WritesTo(es[..|es| - 1], key) + WritesOf(es[|es| - 1], key)
  }

  class Consumer {
    const repo: MemLikeRepo

    constructor (repo: MemLikeRepo)
      ensures this.repo == repo
    {
      this.repo := repo;
    }

    /** The record write of one event. */
    method WriteRecord(e: LikeEvent, fails: bool) returns (err: bool)
      modifies repo`records
      ensures err <==> fails && Recorded(e)
      ensures err ==> repo.records == old(repo.records)
      ensures !err ==> forall k :: RowOf(repo.records, k) == UpsertFrom(RowOf(old(repo.records), k), WritesOf(e, k))
    {
      err := false;
      match e.action {
        case Like => err := repo.UpsertLike(e.userID, e.videoID, e.tsMilli, true, fails);
        case Unlike => err := repo.UpsertLike(e.userID, e.videoID, e.tsMilli, false, fails);
        case Other =>
      }
    }

    /** Records first, one by one, then the aggregated deltas. A failing record write stops the
        batch before any count is written. */
    method HandleBatch(events: seq<LikeEvent>, upsertFails: nat -> bool, applyFails: bool)
      returns (err: bool, ghost done: nat)
      requires forall v :: Get(repo.stats, v) >= 0
      modifies repo
      ensures done <= |events| && (forall k | 0 <= k < done :: Recorded(events[k]) ==> !upsertFails(k))
      ensures done < |events| ==> err && Recorded(events[done]) && upsertFails(done)
      ensures forall k :: RowOf(repo.records, k) == UpsertFrom(RowOf(old(repo.records), k), WritesTo(events[..done], k))
      ensures err ==> repo.stats == old(repo.stats)
      ensures done == |events| ==> (err <==> applyFails && exists k :: 0 <= k < |events| && Recorded(events[k]))
      ensures !err ==> forall v :: Get(repo.stats, v) == Clamp(Get(old(repo.stats), v), NetLikes(events, v))
    {
      var deltas: map<int, int> := map[];
      done := 0;
      for i := 0 to |events|
        invariant done == i && repo.stats == old(repo.stats)
        invariant forall k :: RowOf(repo.records, k)
                              == UpsertFrom(RowOf(old(repo.records), k), WritesTo(events[..i], k))
        invariant forall v :: Get(deltas, v) == NetLikes(events[..i], v)
        invariant forall k | 0 <= k < i :: Recorded(events[k]) ==> !upsertFails(k)
        invariant deltas.Keys == {} <==> forall k | 0 <= k < i :: !Recorded(events[k])
      {
        var e := events[i];
        assert events[..i + 1] == events[..i] + [e];
        ghost var before := repo.records;
        var failed := WriteRecord(e, upsertFails(i));
        if failed { return true, i; }
        WriteMore(old(repo.records), before, repo.records, events[..i], e);
        CountMore(deltas, events[..i], e);
        match e.action {
          case Like => deltas := Bump(deltas, e.videoID, 1);
          case Unlike => deltas := Bump(deltas, e.videoID, -1);
          case Other =>
        }
        done := i + 1;
      }
      assert events[..|events|] == events;
      err := repo.ApplyCountDeltas(deltas, applyFails);
    }
  }

  lemma CountMore(deltas: map<int, int>, es: seq<LikeEvent>, e: LikeEvent)
    requires forall v :: Get(deltas, v) == NetLikes(es, v)
    ensures forall v :: NetLikes(es + [e], v) == Get(deltas, v) + (if e.videoID == v then DeltaOf(e.action) else 0)
  {
    forall v
      ensures NetLikes(es + [e], v) == Get(deltas, v) + (if e.videoID == v then DeltaOf(e.action) else 0)
    {
      NetLikesAppend(es, e, v);
    }
  }

  lemma {:induction false} UpsertFromAppend(row: Row, ws: seq<Write>, xs: seq<Write>)
    ensures UpsertFrom(row, ws + xs) == UpsertFrom(UpsertFrom(row, ws), xs)
  {
    if xs == [] {
      assert ws + xs == ws;
    } else {
      UpsertFromAppend(row, ws, xs[..|xs| - 1]);
      assert (ws + xs)[..|ws + xs| - 1] == ws + xs[..|xs| - 1];
    }
  }

  lemma WriteMore(r0: Records, r1: Records, r2: Records, es: seq<LikeEvent>, e: LikeEvent)
    requires forall k :: RowOf(r1, k) == UpsertFrom(RowOf(r0, k), WritesTo(es, k))
    requires forall k :: RowOf(r2, k) == UpsertFrom(RowOf(r1, k), WritesOf(e, k))
    ensures forall k :: RowOf(r2, k) == UpsertFrom(RowOf(r0, k), WritesTo(es + [e], k))
  {
    forall k
      ensures RowOf(r2, k) == UpsertFrom(RowOf(r0, k), WritesTo(es + [e], k))
    {
      assert (es + [e])[..|es|] == es;
      UpsertFromAppend(RowOf(r0, k), WritesTo(es, k), WritesOf(e, k));
    }
  }
}
