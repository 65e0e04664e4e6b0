/** Stages of the recommendation feed (internal/rec/scorer.go); scores are exact rationals. */
module Ranking {
  import opened Collections
  import opened Sorting

  datatype ScoredVideo = ScoredVideo(videoID: int, authorID: int, score: real)

  // ---------------- merge and rank ----------------

  function Scale(v: ScoredVideo, weight: real): ScoredVideo {
    ScoredVideo(v.videoID, v.authorID, v.score * weight)
  }

  function Weighted(vs: seq<ScoredVideo>, weight: real): seq<ScoredVideo> {
    seq(|vs|, i requires 0 <= i < |vs| => Scale(vs[i], weight))
  }

  /** All recalled videos with their source's weight, in source order. */
  function Recalled(hot: seq<ScoredVideo>, recent: seq<ScoredVideo>, cf: seq<ScoredVideo>,
                    social: seq<ScoredVideo>): seq<ScoredVideo>
  {
    Weighted(hot, 1.0) + Weighted(recent, 0.7) + Weighted(cf, 1.2) + Weighted(social, 0.9)
  }

  function IdsOf(vs: seq<ScoredVideo>): set<int> {
    set v | v in vs :: v.videoID
  }

  function IdOf(v: ScoredVideo): int { v.videoID }

  predicate NotLower(a: ScoredVideo, b: ScoredVideo) { a.score >= b.score }

  /** The entries whose video has not occurred before. */
  function Firsts(vs: seq<ScoredVideo>): seq<ScoredVideo> {
    if vs == [] then []
    else
      var init, last := vs[..|vs| - 1], vs[|vs| - 1];
      if last.videoID in IdsOf(init) then Firsts(init) else Firsts(init) + [last]
  }

  lemma FirstsAppend(vs: seq<ScoredVideo>, v: ScoredVideo)
    ensures IdsOf(vs + [v]) == IdsOf(vs) + {v.videoID}
    ensures Firsts(vs + [v]) == if v.videoID in IdsOf(vs) then Firsts(vs) else Firsts(vs) + [v]
  {
    assert (vs + [v])[..|vs|] == vs;
  }

  /** v is in vs, at a place where its video has not occurred before. */
  predicate FirstAt(vs: seq<ScoredVideo>, v: ScoredVideo, i: int) {
    0 <= i < |vs| && vs[i] == v && v.videoID !in IdsOf(vs[..i])
  }

  lemma FirstAtGrows(vs: seq<ScoredVideo>, w: ScoredVideo, v: ScoredVideo)
    ensures (exists i :: FirstAt(vs + [w], v, i))
            <==> (exists i :: FirstAt(vs, v, i)) || (v == w && w.videoID !in IdsOf(vs))
  {
    var ws := vs + [w];
    assert ws[..|vs|] == vs;
    forall i | 0 <= i < |vs|
      ensures FirstAt(ws, v, i) <==> FirstAt(vs, v, i)
    {
      assert ws[..i] == vs[..i];
    }
    if v == w && w.videoID !in IdsOf(vs) {
      assert FirstAt(ws, v, |vs|);
    }
  }

  /** Firsts holds every video once, with exactly its first occurrence. */
  lemma {:induction false} FirstsAreFirst(vs: seq<ScoredVideo>)
    ensures DistinctBy(Firsts(vs), IdOf) && IdsOf(Firsts(vs)) == IdsOf(vs)
    ensures forall v :: v in Firsts(vs) <==> exists i :: FirstAt(vs, v, i)
  {
    if vs != [] {
      var init, last := vs[..|vs| - 1], vs[|vs| - 1];
      FirstsAreFirst(init);
      assert vs == init + [last];
      FirstsAppend(init, last);
      forall v
        ensures v in Firsts(vs) <==> exists i :: FirstAt(vs, v, i)
      {
        FirstAtGrows(init, last, v);
      }
      FirstsDistinct(Firsts(init), last, IdsOf(init));
    }
  }

  lemma FirstsDistinct(vs: seq<ScoredVideo>, v: ScoredVideo, ids: set<int>)
    requires DistinctBy(vs, IdOf) && IdsOf(vs) == ids
    ensures v.videoID !in ids ==> DistinctBy(vs + [v], IdOf) && IdsOf(vs + [v]) == ids + {v.videoID}
    ensures v.videoID in ids ==> ids + {v.videoID} == ids
  {
    forall i | 0 <= i < |vs|
      ensures vs[i].videoID in ids
    {
      assert vs[i] in vs;
    }
  }

  /** v is the first entry of its video in the source, with its score times the weight. */
  predicate TakenFrom(v: ScoredVideo, source: seq<ScoredVideo>, weight: real) {
    exists i :: 0 <= i < |source| && IsFirstScaled(v, source, weight, i)
  }

  predicate IsFirstScaled(v: ScoredVideo, source: seq<ScoredVideo>, weight: real, i: nat)
    requires i < |source|
  {
    && v == ScoredVideo(source[i].videoID, source[i].authorID, source[i].score * weight)
    && forall j | 0 <= j < i :: source[j].videoID != v.videoID
  }

  predicate Lacks(source: seq<ScoredVideo>, id: int) {
    forall i | 0 <= i < |source| :: source[i].videoID != id
  }

  /** The weight is that of the first source that recalled the video. */
  predicate WeightedBySource(v: ScoredVideo, hot: seq<ScoredVideo>, recent: seq<ScoredVideo>, cf: seq<ScoredVideo>,
                             social: seq<ScoredVideo>)
  {
    if !Lacks(hot, v.videoID) then TakenFrom(v, hot, 1.0)
    else if !Lacks(recent, v.videoID) then TakenFrom(v, recent, 0.7)
    else if !Lacks(cf, v.videoID) then TakenFrom(v, cf, 1.2)
    else TakenFrom(v, social, 0.9)
  }

  /** Where the first occurrence in a + rest comes from. */
  lemma FirstInSource(source: seq<ScoredVideo>, weight: real, rest: seq<ScoredVideo>, v: ScoredVideo, i: int)
    requires FirstAt(Weighted(source, weight) + rest, v, i)
    ensures !Lacks(source, v.videoID) ==> TakenFrom(v, source, weight)
    ensures Lacks(source, v.videoID) ==> FirstAt(rest, v, i - |source|)
  {
    var all := Weighted(source, weight) + rest;
    forall j | 0 <= j < i
      ensures all[j].videoID != v.videoID
    {
      assert all[..i][j] in all[..i];
    }
    if i < |source| {
      assert all[i] == Scale(source[i], weight);
      forall j | 0 <= j < i
        ensures source[j].videoID != v.videoID
      {
        assert all[j] == Scale(source[j], weight);
      }
      assert IsFirstScaled(v, source, weight, i);
    } else {
      forall j | 0 <= j < |source|
        ensures source[j].videoID != v.videoID
      {
        assert all[j] == Scale(source[j], weight);
      }
      forall x | x in rest[..i - |source|]
        ensures x.videoID != v.videoID
      {
        var j :| 0 <= j < i - |source| && rest[j] == x;
        assert all[|source| + j] == x;
      }
    }
  }

  lemma FromLastSources(cf: seq<ScoredVideo>, social: seq<ScoredVideo>, v: ScoredVideo, i: int)
    requires FirstAt(Weighted(cf, 1.2) + (Weighted(social, 0.9) + []), v, i)
    ensures if !Lacks(cf, v.videoID) then TakenFrom(v, cf, 1.2) else TakenFrom(v, social, 0.9)
  {
    FirstInSource(cf, 1.2, Weighted(social, 0.9) + [], v, i);
    if Lacks(cf, v.videoID) {
      FirstInSource(social, 0.9, [], v, i - |cf|);
    }
  }

  lemma CandidatesWeighted(hot: seq<ScoredVideo>, recent: seq<ScoredVideo>, cf: seq<ScoredVideo>,
                           social: seq<ScoredVideo>, v: ScoredVideo)
    requires v in Firsts(Recalled(hot, recent, cf, social))
    ensures WeightedBySource(v, hot, recent, cf, social)
  {
    FirstsAreFirst(Recalled(hot, recent, cf, social));
    var i :| FirstAt(Recalled(hot, recent, cf, social), v, i);
    var atSocial := Weighted(social, 0.9) + [];
    var atCf := Weighted(cf, 1.2) + atSocial;
    var atRecent := Weighted(recent, 0.7) + atCf;
    assert Recalled(hot, recent, cf, social) == Weighted(hot, 1.0) + atRecent;
    FirstInSource(hot, 1.0, atRecent, v, i);
    if Lacks(hot, v.videoID) {
      FirstInSource(recent, 0.7, atCf, v, i - |hot|);
      if Lacks(recent, v.videoID) {
        FromLastSources(cf, social, v, i - |hot| - |recent|);
      }
    }
  }

  /** The `limit` best of the distinct candidates, best first: nothing left out beats anything kept. */
  predicate IsRanking(r: seq<ScoredVideo>, candidates: seq<ScoredVideo>, limit: nat) {
    && InOrder(r, NotLower)
    && DistinctBy(r, IdOf)
    && |r| == (if |candidates| < limit then |candidates| else limit)
    && (forall v | v in r :: v in candidates)
    && (forall v, w | v in candidates && v !in r && w in r :: v.score <= w.score)
  }

  lemma CutRanks(sorted: seq<ScoredVideo>, candidates: seq<ScoredVideo>, limit: nat)
    requires InOrder(sorted, NotLower) && DistinctBy(sorted, IdOf) && |sorted| == |candidates|
    requires forall v :: v in sorted <==> v in candidates
    ensures IsRanking(Take(sorted, limit), candidates, limit)
  {
    var r := Take(sorted, limit);
    forall v | v in r
      ensures v in candidates
    {
      assert v in sorted;
    }
    forall v, w | v in candidates && v !in r && w in r
      ensures v.score <= w.score
    {
      assert v in sorted;
      DroppedIsLater(sorted, NotLower, limit, v, w);
    }
  }

  method MergeAndRank(hot: seq<ScoredVideo>, recent: seq<ScoredVideo>, cf: seq<ScoredVideo>,
                      social: seq<ScoredVideo>, limit: nat)
    returns (r: seq<ScoredVideo>)
    ensures IsRanking(r, Firsts(Recalled(hot, recent, cf, social)), limit)
    ensures forall v | v in r :: WeightedBySource(v, hot, recent, cf, social)
  {
    var seen: set<int>, all: seq<ScoredVideo> := {}, [];
    seen, all := AddSource(seen, all, hot, 1.0, []);
    assert [] + Weighted(hot, 1.0) == Weighted(hot, 1.0);
    seen, all := AddSource(seen, all, recent, 0.7, Weighted(hot, 1.0));
    seen, all := AddSource(seen, all, cf, 1.2, Weighted(hot, 1.0) + Weighted(recent, 0.7));
    seen, all := AddSource(seen, all, social, 0.9, Weighted(hot, 1.0) + Weighted(recent, 0.7) + Weighted(cf, 1.2));
    FirstsAreFirst(Recalled(hot, recent, cf, social));
    var sorted := SortBy(all, NotLower);
    PermutationKeeps(sorted, all, IdOf);
    CutRanks(sorted, all, limit);
    r := Take(sorted, limit);
    forall v | v in r
      ensures WeightedBySource(v, hot, recent, cf, social)
    {
      CandidatesWeighted(hot, recent, cf, social, v);
    }
  }

  method AddSource(seen: set<int>, all: seq<ScoredVideo>, videos: seq<ScoredVideo>, weight: real,
                   ghost done: seq<ScoredVideo>)
    returns (seen': set<int>, all': seq<ScoredVideo>)
    requires seen == IdsOf(done) && all == Firsts(done)
    ensures seen' == IdsOf(done + Weighted(videos, weight)) && all' == Firsts(done + Weighted(videos, weight))
  {
    seen', all' := seen, all;
    ghost var weighted := Weighted(videos, weight);
    assert done + weighted[..0] == done;
    for i := 0 to |videos|
      invariant seen' == IdsOf(done + weighted[..i]) && all' == Firsts(done + weighted[..i])
    {
      ghost var before := done + weighted[..i];
      assert done + weighted[..i + 1] == before + [weighted[i]];
      FirstsAppend(before, weighted[i]);
      seen', all' := AddUnseen(seen', all', videos[i], weight);
    }
    assert weighted[..|videos|] == weighted;
  }

  method AddUnseen(seen: set<int>, all: seq<ScoredVideo>, v: ScoredVideo, weight: real)
    returns (seen': set<int>, all': seq<ScoredVideo>)
    ensures seen' == seen + {v.videoID}
    ensures all' == if v.videoID in seen then all else all + [Scale(v, weight)]
  {
    if v.videoID in seen {
      assert seen + {v.videoID} == seen;
      return seen, all;
    }
    return seen + {v.videoID}, all + [Scale(v, weight)];
  }

  // ---------------- diversity ----------------

  function CountAuthor(vs: seq<ScoredVideo>, a: int): nat {
    if vs == [] then 0 else CountAuthor(vs[..|vs| - 1], a) + (if vs[|vs| - 1].authorID == a then 1 else 0)
  }

  function Capped(vs: seq<ScoredVideo>, cap: nat): seq<ScoredVideo> {
    if vs == [] then []
    else
      var r, last := Capped(vs[..|vs| - 1], cap), vs[|vs| - 1];
      if CountAuthor(r, last.authorID) >= cap then r else r + [last]
  }

  /** t keeps some of the videos of vs, in their order. */
  predicate Subsequence(t: seq<ScoredVideo>, vs: seq<ScoredVideo>) {
    if t == [] then true
    else if vs == [] then false
    else
      || (t[|t| - 1] == vs[|vs| - 1] && Subsequence(t[..|t| - 1], vs[..|vs| - 1]))
      || Subsequence(t, vs[..|vs| - 1])
  }

  method DiversityRerank(videos: seq<ScoredVideo>, maxPerAuthor: int) returns (result: seq<ScoredVideo>)
    ensures result == if maxPerAuthor <= 0 then videos else Capped(videos, maxPerAuthor)
  {
    if maxPerAuthor <= 0 { return videos; }
    result := [];
    var authorCount: map<int, int> := map[];
    for i := 0 to |videos|
      invariant result == Capped(videos[..i], maxPerAuthor)
      invariant forall a :: Get(authorCount, a) == CountAuthor(result, a)
    {
      var v := videos[i];
      assert videos[..i + 1][..i] == videos[..i];
      if Get(authorCount, v.authorID) < maxPerAuthor {
        authorCount := Bump(authorCount, v.authorID, 1);
        assert (result + [v])[..|result|] == result;
        result := result + [v];
      }
    }
    assert videos[..|videos|] == videos;
  }

  lemma {:induction false} CappedCounts(vs: seq<ScoredVideo>, cap: nat, a: int)
    ensures CountAuthor(Capped(vs, cap), a) == if CountAuthor(vs, a) < cap then CountAuthor(vs, a) else cap
  {
    if vs != [] {
      var init, last := vs[..|vs| - 1], vs[|vs| - 1];
      CappedCounts(init, cap, a);
      var r := Capped(init, cap);
      assert (r + [last])[..|r|] == r;
      CappedCounts(init, cap, last.authorID);
    }
  }

  /** A video is kept exactly when fewer than `cap` videos of its author come before it. */
  lemma CappedKeepsFirst(vs: seq<ScoredVideo>, v: ScoredVideo, cap: nat)
    ensures Capped(vs + [v], cap) == Capped(vs, cap) + if CountAuthor(vs, v.authorID) < cap then [v] else []
  {
    assert (vs + [v])[..|vs|] == vs;
    CappedCounts(vs, cap, v.authorID);
  }

  lemma ExtendSubsequence(t: seq<ScoredVideo>, vs: seq<ScoredVideo>, v: ScoredVideo)
    requires Subsequence(t, vs)
    ensures Subsequence(t, vs + [v]) && Subsequence(t + [v], vs + [v])
  {
    assert (vs + [v])[..|vs|] == vs && (t + [v])[..|t|] == t;
  }

  lemma CappedNext(vs: seq<ScoredVideo>, v: ScoredVideo, cap: nat)
    ensures Capped(vs + [v], cap) in {Capped(vs, cap), Capped(vs, cap) + [v]}
  {
    assert (vs + [v])[..|vs|] == vs;
  }

  lemma {:induction false} CappedIsSubsequence(vs: seq<ScoredVideo>, cap: nat)
    ensures Subsequence(Capped(vs, cap), vs)
    decreases |vs|
  {
    if vs != [] {
      var init, last := vs[..|vs| - 1], vs[|vs| - 1];
      CappedIsSubsequence(init, cap);
      ExtendSubsequence(Capped(init, cap), init, last);
      CappedNext(init, last, cap);
      assert vs == init + [last];
    }
  }

  lemma {:induction false} SubsequenceCounts(t: seq<ScoredVideo>, vs: seq<ScoredVideo>, a: int)
    requires Subsequence(t, vs)
    ensures CountAuthor(t, a) <= CountAuthor(vs, a)
    decreases |vs|
  {
    if t != [] {
      if t[|t| - 1] == vs[|vs| - 1] && Subsequence(t[..|t| - 1], vs[..|vs| - 1]) {
        SubsequenceCounts(t[..|t| - 1], vs[..|vs| - 1], a);
      } else {
        SubsequenceCounts(t, vs[..|vs| - 1], a);
      }
    }
  }

  function WithoutAuthor(vs: seq<ScoredVideo>, a: int): seq<ScoredVideo> {
    if vs == [] then []
    else WithoutAuthor(vs[..|vs| - 1], a) + (if vs[|vs| - 1].authorID == a then [] else [vs[|vs| - 1]])
  }

  lemma {:induction false} RemoveAuthor(vs: seq<ScoredVideo>, a: int, b: int)
    ensures |WithoutAuthor(vs, a)| == |vs| - CountAuthor(vs, a)
    ensures CountAuthor(WithoutAuthor(vs, a), b) == if b == a then 0 else CountAuthor(vs, b)
  {
    if vs != [] {
      var init, last := vs[..|vs| - 1], vs[|vs| - 1];
      RemoveAuthor(init, a, b);
      var w := WithoutAuthor(init, a);
      assert (w + [last])[..|w|] == w && w + [] == w;
    }
  }

  /** Fewer per author means fewer in all. */
  lemma {:induction false} FewerPerAuthor(t: seq<ScoredVideo>, r: seq<ScoredVideo>)
    requires forall a :: CountAuthor(t, a) <= CountAuthor(r, a)
    ensures |t| <= |r|
    decreases |t|
  {
    if t != [] {
      var a := t[|t| - 1].authorID;
      assert CountAuthor(t, a) >= 1;
      var t', r' := WithoutAuthor(t, a), WithoutAuthor(r, a);
      forall b
        ensures CountAuthor(t', b) <= CountAuthor(r', b)
      {
        RemoveAuthor(t, a, b);
        RemoveAuthor(r, a, b);
      }
      RemoveAuthor(t, a, a);
      RemoveAuthor(r, a, a);
      FewerPerAuthor(t', r');
    }
  }

  /** The rerank keeps the order, respects the cap, and no selection that does both is longer. */
  lemma DiversityIsMaximal(vs: seq<ScoredVideo>, cap: nat, t: seq<ScoredVideo>)
    requires Subsequence(t, vs) && forall a :: CountAuthor(t, a) <= cap
    ensures Subsequence(Capped(vs, cap), vs)
    ensures forall a :: CountAuthor(Capped(vs, cap), a) <= cap
    ensures |t| <= |Capped(vs, cap)|
  {
    CappedIsSubsequence(vs, cap);
    forall a
      ensures CountAuthor(t, a) <= CountAuthor(Capped(vs, cap), a) <= cap
    {
      CappedCounts(vs, cap, a);
      SubsequenceCounts(t, vs, a);
    }
    FewerPerAuthor(t, Capped(vs, cap));
  }

  // ---------------- fresh injection ----------------

  /** The share of fresh videos aimed at, counted on the page before injection, at least one. */
  function FreshTarget(n: nat, ratio: real): nat {
    var share := (n as real * ratio).Floor;
    if share < 1 then 1 else share
  }

  lemma FreshTargetIs(n: nat, ratio: real)
    ensures var t, share := FreshTarget(n, ratio), n as real * ratio;
            if share < 1.0 then t == 1 else t as real <= share < t as real + 1.0
  {
  }

  function CountIn(vs: seq<ScoredVideo>, ids: set<int>): nat {
    if vs == [] then 0 else CountIn(vs[..|vs| - 1], ids) + (if vs[|vs| - 1].videoID in ids then 1 else 0)
  }

  function Outside(vs: seq<ScoredVideo>, ids: set<int>): seq<ScoredVideo> {
    if vs == [] then []
    else Outside(vs[..|vs| - 1], ids) + (if vs[|vs| - 1].videoID in ids then [] else [vs[|vs| - 1]])
  }

  function Needed(merged: seq<ScoredVideo>, recent: seq<ScoredVideo>, ratio: real): nat {
    var missing := FreshTarget(|merged|, ratio) - CountIn(merged, IdsOf(recent));
    if missing < 0 then 0 else missing
  }

  lemma OutsideNext(vs: seq<ScoredVideo>, v: ScoredVideo, ids: set<int>)
    ensures Outside(vs + [v], ids) == if v.videoID in ids then Outside(vs, ids) else Outside(vs, ids) + [v]
  {
    assert (vs + [v])[..|vs|] == vs;
  }

  lemma {:induction false} OutsideSubsequence(vs: seq<ScoredVideo>, ids: set<int>)
    ensures Subsequence(Outside(vs, ids), vs)
  {
    if vs != [] {
      var init, last := vs[..|vs| - 1], vs[|vs| - 1];
      OutsideSubsequence(init, ids);
      assert vs == init + [last];
      OutsideNext(init, last, ids);
      ExtendSubsequence(Outside(init, ids), init, last);
    }
  }

  lemma {:induction false} OutsideMembers(vs: seq<ScoredVideo>, ids: set<int>, v: ScoredVideo)
    ensures v in Outside(vs, ids) <==> v in vs && v.videoID !in ids
  {
    if vs != [] {
      var init, last := vs[..|vs| - 1], vs[|vs| - 1];
      OutsideMembers(init, ids, v);
      assert vs == init + [last];
      OutsideNext(init, last, ids);
    }
  }

  /** The pool videos that the page lacks, in pool order. */
  lemma OutsideIsPool(vs: seq<ScoredVideo>, ids: set<int>)
    ensures Subsequence(Outside(vs, ids), vs)
    ensures forall v :: v in Outside(vs, ids) <==> v in vs && v.videoID !in ids
  {
    OutsideSubsequence(vs, ids);
    forall v
      ensures v in Outside(vs, ids) <==> v in vs && v.videoID !in ids
    {
      OutsideMembers(vs, ids, v);
    }
  }

  method FreshInjection(merged: seq<ScoredVideo>, recent: seq<ScoredVideo>, freshRatio: real)
    returns (r: seq<ScoredVideo>)
    ensures r == if merged == [] || recent == [] then merged
                 else merged + Take(Outside(recent, IdsOf(merged)), Needed(merged, recent, freshRatio))
  {
    if |merged| == 0 || |recent| == 0 { return merged; }
    var targetFresh := (|merged| as real * freshRatio).Floor;
    if targetFresh < 1 {
      targetFresh := 1;
    }
    var freshSet := IdsOf(recent);
    var currentFresh := 0;
    for i := 0 to |merged|
      invariant currentFresh == CountIn(merged[..i], freshSet)
    {
      assert merged[..i + 1][..i] == merged[..i];
      if merged[i].videoID in freshSet {
        currentFresh := currentFresh + 1;
      }
    }
    assert merged[..|merged|] == merged;
    var needed := targetFresh - currentFresh;
    if needed <= 0 {
      assert Take(Outside(recent, IdsOf(merged)), 0) == [];
      return merged;
    }
    var total := needed;
    var mergedSet := IdsOf(merged);
    var injected: seq<ScoredVideo> := [];
    for i := 0 to |recent|
      invariant needed >= 0 && |injected| == total - needed
      invariant injected == Take(Outside(recent[..i], mergedSet), total)
    {
      assert recent[..i + 1][..i] == recent[..i];
      if needed <= 0 {
        OutsidePrefix(recent, i, mergedSet);
        break;
      }
      if recent[i].videoID !in mergedSet {
        injected := injected + [recent[i]];
        needed := needed - 1;
      }
    }
    OutsidePrefix(recent, |recent|, mergedSet);
    assert recent[..|recent|] == recent;
    r := merged + injected;
  }

  lemma {:induction false} OutsidePrefix(vs: seq<ScoredVideo>, i: nat, ids: set<int>)
    requires i <= |vs|
    ensures Outside(vs[..i], ids) <= Outside(vs, ids)
  {
    if i < |vs| {
      OutsidePrefix(vs[..|vs| - 1], i, ids);
      assert vs[..|vs| - 1][..i] == vs[..i];
    } else {
      assert vs[..i] == vs;
    }
  }

  lemma {:induction false} CountSplits(vs: seq<ScoredVideo>, ids: set<int>)
    ensures CountIn(vs, ids) + |Outside(vs, ids)| == |vs|
  {
    if vs != [] {
      CountSplits(vs[..|vs| - 1], ids);
    }
  }

  lemma OverlapNext(vs: seq<ScoredVideo>, v: ScoredVideo, ids: set<int>)
    requires v.videoID !in IdsOf(vs)
    ensures |IdsOf(vs + [v]) * ids| == |IdsOf(vs) * ids| + (if v.videoID in ids then 1 else 0)
  {
    FirstsAppend(vs, v);
    if v.videoID in ids {
      assert (IdsOf(vs) + {v.videoID}) * ids == IdsOf(vs) * ids + {v.videoID};
    } else {
      assert (IdsOf(vs) + {v.videoID}) * ids == IdsOf(vs) * ids;
    }
  }

  lemma {:induction false} CountIsOverlap(vs: seq<ScoredVideo>, ids: set<int>)
    requires DistinctBy(vs, IdOf)
    ensures CountIn(vs, ids) == |IdsOf(vs) * ids|
    decreases |vs|
  {
    if vs == [] {
      assert IdsOf(vs) * ids == {};
    } else {
      var init, last := vs[..|vs| - 1], vs[|vs| - 1];
      CountIsOverlap(init, ids);
      assert vs == init + [last];
      OverlapNext(init, last, ids);
    }
  }

  lemma {:induction false} CountAppend(vs: seq<ScoredVideo>, ws: seq<ScoredVideo>, ids: set<int>)
    ensures CountIn(vs + ws, ids) == CountIn(vs, ids) + CountIn(ws, ids)
  {
    if ws == [] {
      assert vs + ws == vs;
    } else {
      CountAppend(vs, ws[..|ws| - 1], ids);
      assert (vs + ws)[..|vs + ws| - 1] == vs + ws[..|ws| - 1];
    }
  }

  lemma {:induction false} CountAll(vs: seq<ScoredVideo>, ids: set<int>)
    requires forall i | 0 <= i < |vs| :: vs[i].videoID in ids
    ensures CountIn(vs, ids) == |vs|
  {
    if vs != [] {
      CountAll(vs[..|vs| - 1], ids);
    }
  }

  lemma {:induction false} OutsideIsPart(vs: seq<ScoredVideo>, ids: set<int>, all: set<int>)
    requires forall i | 0 <= i < |vs| :: vs[i].videoID in all
    ensures forall i | 0 <= i < |Outside(vs, ids)| :: Outside(vs, ids)[i].videoID in all
  {
    if vs != [] {
      OutsideIsPart(vs[..|vs| - 1], ids, all);
    }
  }

  /** Injection appends to the page and lifts its fresh share to the target as far as the pool
      reaches: with distinct IDs it holds exactly max(current, min(target, |pool|)) fresh videos. */
  lemma InjectionReachesTarget(merged: seq<ScoredVideo>, recent: seq<ScoredVideo>, ratio: real)
    requires merged != [] && recent != [] && DistinctBy(merged, IdOf) && DistinctBy(recent, IdOf)
    ensures var ids, target := IdsOf(recent), FreshTarget(|merged|, ratio);
            var goal := if |recent| < target then |recent| else target;
            CountIn(merged + Take(Outside(recent, IdsOf(merged)), Needed(merged, recent, ratio)), ids)
            == if CountIn(merged, ids) < goal then goal else CountIn(merged, ids)
  {
    var ids, pool := IdsOf(recent), Outside(recent, IdsOf(merged));
    var added := Take(pool, Needed(merged, recent, ratio));
    CountIsOverlap(merged, ids);
    CountIsOverlap(recent, IdsOf(merged));
    assert IdsOf(merged) * ids == ids * IdsOf(merged);
    CountSplits(recent, IdsOf(merged));
    OutsideIsPart(recent, IdsOf(merged), ids);
    CountAppend(merged, added, ids);
    CountAll(added, ids);
  }
}
