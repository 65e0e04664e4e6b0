/** Following a cursor from page to page while new members keep arriving on top. */
module Paging {
  import opened Collections
  import opened RankedSet

  function LastScore(page: seq<Entry>): int
    requires page != []
  {
    page[|page| - 1].score
  }

  /** A client's pages: page k is read from state zs[k], behind the last score of the page before. */
  ghost predicate Follows(zs: seq<ZSet>, limits: seq<nat>, cursor: int, pages: seq<seq<Entry>>)
    requires |zs| == |limits| == |pages|
  {
    pages != [] ==>
      && pages[0] == Page(zs[0], cursor, limits[0])
      && (|pages| > 1 ==> pages[0] != [] && Follows(zs[1..], limits[1..], LastScore(pages[0]), pages[1..]))
  }

  lemma FollowsOn(zs: seq<ZSet>, limits: seq<nat>, cursor: int, pages: seq<seq<Entry>>)
    requires |zs| == |limits| == |pages| > 0 && pages[0] == Page(zs[0], cursor, limits[0])
    requires |pages| > 1 ==> pages[0] != [] && Follows(zs[1..], limits[1..], LastScore(pages[0]), pages[1..])
    ensures Follows(zs, limits, cursor, pages)
  {
  }

  /** The last page fell short of its limit. */
  predicate Finished<T>(pages: seq<seq<T>>, limits: seq<nat>)
    requires |pages| == |limits|
  {
    pages != [] && |pages[|pages| - 1]| < limits[|pages| - 1]
  }

  lemma {:induction false} ConcatFull<T>(pages: seq<seq<T>>, n: nat)
    requires forall k | 0 <= k < |pages| :: |pages[k]| == n
    ensures |Concat(pages)| == n * |pages|
  {
    if pages != [] {
      ConcatFull(pages[1..], n);
    }
  }

  lemma {:induction false} FewPages(zs: seq<ZSet>, limits: seq<nat>, cursor: int, pages: seq<seq<Entry>>)
    requires |zs| == |limits| == |pages| && Follows(zs, limits, cursor, pages)
    ensures |pages| <= |Concat(pages)| + 1
    decreases |pages|
  {
    if |pages| > 1 {
      FewPages(zs[1..], limits[1..], LastScore(pages[0]), pages[1..]);
    }
  }

  // ---------------- the entries of interest ----------------

  /** The entries whose members are in b. */
  function Within(s: seq<Entry>, b: ZSet): seq<Entry> {
    if s == [] then [] else Keep(s[0], b) + Within(s[1..], b)
  }

  function Keep(e: Entry, b: ZSet): seq<Entry> {
    if e.id in b then [e] else []
  }

  lemma {:induction false} WithinAppend(s: seq<Entry>, t: seq<Entry>, b: ZSet)
    ensures Within(s + t, b) == Within(s, b) + Within(t, b)
  {
    if s == [] {
      assert s + t == t;
    } else {
      WithinAppend(s[1..], t, b);
      assert (s + t)[1..] == s[1..] + t;
      assert Within(s + t, b) == Keep(s[0], b) + Within(s[1..] + t, b);
    }
  }

  lemma {:induction false} WithinMembers(s: seq<Entry>, b: ZSet)
    ensures forall e :: e in Within(s, b) <==> e in s && e.id in b
  {
    if s != [] {
      assert s == [s[0]] + s[1..];
      WithinMembers(s[1..], b);
    }
  }

  lemma {:induction false} WithinDescending(s: seq<Entry>, b: ZSet)
    requires Descending(s)
    ensures Descending(Within(s, b))
  {
    if s != [] {
      var t := Within(s[1..], b);
      WithinDescending(s[1..], b);
      WithinMembers(s[1..], b);
      forall j | 0 <= j < |t|
        ensures Lower(t[j], s[0])
      {
        assert t[j] in t && t[j] in s[1..];
      }
    }
  }

  lemma {:induction false} WithinAll(s: seq<Entry>, b: ZSet)
    requires forall i | 0 <= i < |s| :: s[i].id in b
    ensures Within(s, b) == s
  {
    if s != [] {
      WithinAll(s[1..], b);
    }
  }

  lemma {:induction false} WithinSame(s: seq<Entry>, b: ZSet, c: ZSet)
    requires forall i | 0 <= i < |s| :: s[i].id in b <==> s[i].id in c
    ensures Within(s, b) == Within(s, c)
  {
    if s != [] {
      WithinSame(s[1..], b, c);
    }
  }

  lemma WithinListing(s: seq<Entry>, z: ZSet, b: ZSet)
    requires IsListing(s, z) && SubMap(b, z)
    ensures Within(s, b) == Listing(b)
  {
    WithinMembers(s, b);
    WithinDescending(s, b);
    forall m | m in b
      ensures At(b, m) in Within(s, b)
    {
      assert At(z, m) in s;
    }
    ListingUnique(Within(s, b), Listing(b), b);
  }

  // ---------------- one page ----------------

  /** The score is above all of b or below all of b. */
  predicate Outside(b: ZSet, score: int) {
    (forall x | x in b :: b[x] < score) || (forall x | x in b :: score < b[x])
  }

  /** z holds b, and nothing of z mixes with it. */
  predicate Holds(z: ZSet, b: ZSet) {
    SubMap(b, z) && forall m | m in z && m !in b :: Outside(b, z[m])
  }

  lemma HoldsBelow(z: ZSet, cursor: int, b: ZSet, c: int)
    requires Holds(Below(z, cursor), b) && c > 0 && (cursor > 0 ==> c <= cursor)
    ensures Holds(Below(z, c), Below(b, c))
  {
    var y, d := Below(z, c), Below(b, c);
    forall m | m in y && m !in d
      ensures Outside(d, y[m])
    {
      assert Below(z, cursor)[m] == y[m];
      assert m !in b;
      assert Outside(b, y[m]);
    }
  }

  /** Every entry of a page scores at least the last one, everything behind it at most that. */
  lemma PageCut(z: ZSet, limit: nat)
    requires Take(Listing(z), limit) != []
    ensures var page := Take(Listing(z), limit);
            && (forall e | e in page :: e.id in z && z[e.id] == e.score && e.score >= LastScore(page))
            && page[|page| - 1].id in z && z[page[|page| - 1].id] == LastScore(page)
            && (forall m | m in z && At(z, m) !in page :: z[m] <= LastScore(page))
  {
    var l, page := Listing(z), Take(Listing(z), limit);
    var last := page[|page| - 1];
    assert last == l[|page| - 1];
    forall e | e in page
      ensures e in l && e.score >= last.score
    {
      var i :| 0 <= i < |page| && page[i] == e;
      assert l[i] == e;
      assert i < |page| - 1 ==> Lower(last, e);
    }
    forall m | m in z && At(z, m) !in page
      ensures z[m] <= last.score
    {
      TakeMembers(l, limit);
      var i := ListingIndex(l, z, m);
      assert i >= |page|;
      assert Lower(l[i], last);
    }
  }

  lemma PageTakesTop(z: ZSet, b: ZSet, limit: nat, m: int)
    requires Holds(z, b) && DistinctScores(b) && Take(Listing(z), limit) != [] && m in b
    requires b[m] >= LastScore(Take(Listing(z), limit))
    ensures At(b, m) in Take(Listing(z), limit)
  {
    var page := Take(Listing(z), limit);
    var last := page[|page| - 1];
    PageCut(z, limit);
    if b[m] == last.score {
      LastOnly(z, b, last, m);
    }
  }

  lemma JoinDescending(s: seq<Entry>, t: seq<Entry>, c: int)
    requires Descending(s) && Descending(t)
    requires (forall e | e in s :: e.score >= c) && (forall e | e in t :: e.score < c)
    ensures Descending(s + t)
  {
    forall i, j | 0 <= i < |s| && 0 <= j < |t|
      ensures Lower(t[j], s[i])
    {
      assert s[i] in s && t[j] in t;
    }
  }

  /** A page takes the top of b away; the rest of b lies below its last score. */
  lemma PageSplits(z: ZSet, b: ZSet, limit: nat)
    requires Holds(z, b) && DistinctScores(b) && PositiveScores(z) && Take(Listing(z), limit) != []
    ensures var page := Take(Listing(z), limit);
            Listing(b) == Within(page, b) + Listing(Below(b, LastScore(page)))
  {
    var page := Take(Listing(z), limit);
    PageCut(z, limit);
    var rest := Below(b, LastScore(page));
    var s, t := Within(page, b), Listing(rest);
    WithinMembers(page, b);
    TakeDescending(Listing(z), limit);
    WithinDescending(page, b);
    JoinDescending(s, t, LastScore(page));
    forall m | m in b
      ensures At(b, m) in s + t
    {
      if m in rest {
        assert At(rest, m) in t;
      } else {
        PageTakesTop(z, b, limit, m);
      }
    }
    ListingUnique(s + t, Listing(b), b);
  }

  lemma LastOnly(z: ZSet, b: ZSet, last: Entry, m: int)
    requires Holds(z, b) && DistinctScores(b) && m in b && last.id in z && z[last.id] == last.score == b[m]
    ensures last == At(b, m)
  {
    assert last.id !in b ==> Outside(b, last.score);
  }

  lemma TakeDescending(s: seq<Entry>, n: nat)
    requires Descending(s)
    ensures Descending(Take(s, n))
  {
  }

  // ---------------- all pages ----------------

  /** Every collected entry stems from one of the states and lies below the cursor; the pages
      together are strictly descending. */
  lemma {:induction false} PagesDescend(zs: seq<ZSet>, limits: seq<nat>, cursor: int, pages: seq<seq<Entry>>)
    requires |zs| == |limits| == |pages| && Follows(zs, limits, cursor, pages)
    requires forall k | 0 <= k < |zs| :: PositiveScores(zs[k])
    ensures Descending(Concat(pages))
    ensures forall e | e in Concat(pages) ::
              (cursor > 0 ==> e.score < cursor) && exists k :: 0 <= k < |zs| && e.id in zs[k] && zs[k][e.id] == e.score
    decreases |pages|
  {
    if pages != [] {
      var z, page := Below(zs[0], cursor), pages[0];
      TakeDescending(Listing(z), limits[0]);
      forall e | e in page
        ensures e in Listing(z)
      {
      }
      if |pages| > 1 {
        var tail := Concat(pages[1..]);
        PageCut(z, limits[0]);
        PagesDescend(zs[1..], limits[1..], LastScore(page), pages[1..]);
        forall e | e in tail
          ensures exists k :: 0 <= k < |zs| && e.id in zs[k] && zs[k][e.id] == e.score
        {
          var k :| 0 <= k < |zs| - 1 && e.id in zs[1..][k] && zs[1..][k][e.id] == e.score;
          assert zs[k + 1] == zs[1..][k];
        }
        forall i, j | 0 <= i < |page| && 0 <= j < |tail|
          ensures Lower(tail[j], page[i])
        {
          assert page[i] in page && tail[j] in tail;
        }
      } else {
        assert Concat(pages[1..]) == [];
      }
    }
  }

  lemma PageOfHeld(z: ZSet, b: ZSet, limit: nat)
    requires SubMap(b, z)
    ensures Within(Take(Listing(z), limit), b) <= Listing(b)
    ensures |Take(Listing(z), limit)| < limit ==> Within(Take(Listing(z), limit), b) == Listing(b)
  {
    var l, page := Listing(z), Take(Listing(z), limit);
    WithinListing(l, z, b);
    assert l == page + l[|page|..];
    WithinAppend(page, l[|page|..], b);
  }

  lemma HoldsTail(zs: seq<ZSet>, cursor: int, b: ZSet, c: int)
    requires |zs| > 0 && c > 0 && (cursor > 0 ==> c <= cursor)
    requires forall k | 0 <= k < |zs| :: PositiveScores(zs[k]) && Holds(Below(zs[k], cursor), b)
    ensures forall k | 0 <= k < |zs| - 1 :: PositiveScores(zs[1..][k]) && Holds(Below(zs[1..][k], c), Below(b, c))
  {
    forall k | 0 <= k < |zs| - 1
      ensures PositiveScores(zs[1..][k]) && Holds(Below(zs[1..][k], c), Below(b, c))
    {
      HoldsBelow(zs[k + 1], cursor, b, c);
    }
  }

  lemma JoinPrefix(all: seq<Entry>, listing: seq<Entry>, page: seq<Entry>, tail: seq<Entry>, rest: seq<Entry>)
    requires all == page + tail && listing == page + rest && tail <= rest
    ensures all <= listing
    ensures tail == rest ==> all == listing
  {
  }

  /** Behind the first page, b and what is left of it select the same entries. */
  lemma TailWithin(zs: seq<ZSet>, limits: seq<nat>, cursor: int, pages: seq<seq<Entry>>, b: ZSet)
    requires |zs| == |limits| == |pages| > 1 && Follows(zs, limits, cursor, pages)
    requires forall k | 0 <= k < |zs| :: PositiveScores(zs[k]) && Holds(Below(zs[k], cursor), b)
    requires LastScore(pages[0]) > 0
    ensures Within(Concat(pages[1..]), b) == Within(Concat(pages[1..]), Below(b, LastScore(pages[0])))
  {
    var tail, c := Concat(pages[1..]), LastScore(pages[0]);
    PagesDescend(zs[1..], limits[1..], c, pages[1..]);
    forall i | 0 <= i < |tail|
      ensures tail[i].id in b <==> tail[i].id in Below(b, c)
    {
      assert tail[i] in tail;
      var k :| 0 <= k < |zs| - 1 && tail[i].id in zs[1..][k] && zs[1..][k][tail[i].id] == tail[i].score;
      assert Holds(Below(zs[k + 1], cursor), b);
    }
    WithinSame(tail, b, Below(b, c));
  }

  /** The first page and what the others list of the rest make up what they list of b. */
  lemma FirstAndRest(zs: seq<ZSet>, limits: seq<nat>, cursor: int, pages: seq<seq<Entry>>, b: ZSet)
    requires |zs| == |limits| == |pages| > 1 && Follows(zs, limits, cursor, pages) && DistinctScores(b)
    requires forall k | 0 <= k < |zs| :: PositiveScores(zs[k]) && Holds(Below(zs[k], cursor), b)
    ensures LastScore(pages[0]) > 0 && (cursor > 0 ==> LastScore(pages[0]) <= cursor)
    ensures var rest := Below(b, LastScore(pages[0]));
            && Listing(b) == Within(pages[0], b) + Listing(rest)
            && Within(Concat(pages), b) == Within(pages[0], b) + Within(Concat(pages[1..]), rest)
  {
    PageSplits(Below(zs[0], cursor), b, limits[0]);
    PageCut(Below(zs[0], cursor), limits[0]);
    TailWithin(zs, limits, cursor, pages, b);
    WithinAppend(pages[0], Concat(pages[1..]), b);
  }

  lemma FinishedTail(pages: seq<seq<Entry>>, limits: seq<nat>)
    requires |pages| == |limits| > 1
    ensures Finished(pages, limits) <==> Finished(pages[1..], limits[1..])
  {
  }

  /** What the later pages list of the rest completes what the first one lists of b. */
  lemma HoldsTogether(zs: seq<ZSet>, limits: seq<nat>, cursor: int, pages: seq<seq<Entry>>, b: ZSet)
    requires |zs| == |limits| == |pages| > 1 && Follows(zs, limits, cursor, pages) && DistinctScores(b)
    requires forall k | 0 <= k < |zs| :: PositiveScores(zs[k]) && Holds(Below(zs[k], cursor), b)
    requires var rest := Below(b, LastScore(pages[0])); Within(Concat(pages[1..]), rest) <= Listing(rest)
    ensures Within(Concat(pages), b) <= Listing(b)
    ensures var rest := Below(b, LastScore(pages[0]));
            Within(Concat(pages[1..]), rest) == Listing(rest) ==> Within(Concat(pages), b) == Listing(b)
  {
    var rest := Below(b, LastScore(pages[0]));
    FirstAndRest(zs, limits, cursor, pages, b);
    JoinPrefix(Within(Concat(pages), b), Listing(b), Within(pages[0], b),
               Within(Concat(pages[1..]), rest), Listing(rest));
  }

  lemma FirstScorePositive(zs: seq<ZSet>, limits: seq<nat>, cursor: int, pages: seq<seq<Entry>>)
    requires |zs| == |limits| == |pages| > 1 && Follows(zs, limits, cursor, pages) && PositiveScores(zs[0])
    ensures LastScore(pages[0]) > 0 && (cursor > 0 ==> LastScore(pages[0]) <= cursor)
  {
    PageCut(Below(zs[0], cursor), limits[0]);
  }

  /** If every state behind the cursor holds b, the pages list b without gap or repetition: in
      order as far as they go, and all of it once a page is short. */
  lemma {:induction false} PagesHold(zs: seq<ZSet>, limits: seq<nat>, cursor: int, pages: seq<seq<Entry>>, b: ZSet)
    requires |zs| == |limits| == |pages| && Follows(zs, limits, cursor, pages) && DistinctScores(b)
    requires forall k | 0 <= k < |zs| :: PositiveScores(zs[k]) && Holds(Below(zs[k], cursor), b)
    ensures Within(Concat(pages), b) <= Listing(b)
    ensures Finished(pages, limits) ==> Within(Concat(pages), b) == Listing(b)
    decreases |pages|
  {
    if |pages| == 1 {
      assert Concat(pages) == pages[0] + [] == pages[0];
      PageOfHeld(Below(zs[0], cursor), b, limits[0]);
    } else if |pages| > 1 {
      var c := LastScore(pages[0]);
      FirstScorePositive(zs, limits, cursor, pages);
      HoldsTail(zs, cursor, b, c);
      DistinctBelow(b, c);
      PagesHold(zs[1..], limits[1..], c, pages[1..], Below(b, c));
      FinishedTail(pages, limits);
      HoldsTogether(zs, limits, cursor, pages, b);
    }
  }

  /** Strictly descending entries of z are no more than z has members. */
  lemma DescendingSize(s: seq<Entry>, z: ZSet)
    requires Descending(s) && forall e | e in s :: e.id in z && z[e.id] == e.score
    ensures |s| <= |z.Keys|
  {
    forall i, j | 0 <= i < j < |s|
      ensures s[i].id != s[j].id
    {
      assert s[i] in s && s[j] in s;
      LowerTotal(s[i], s[j]);
    }
    IdsSize(s);
    SubsetSize(Ids(s), z.Keys);
  }

  // ---------------- growth on top ----------------

  /** New members only ever arrive with a score above all that was there. */
  predicate GrowsAbove(z0: ZSet, z: ZSet) {
    && SubMap(z0, z)
    && (forall m, x | m in z && m !in z0 && x in z0 :: z0[x] < z[m])
  }

  /** When the first page saw nothing but b, later pages show nothing newer. */
  lemma NothingNewer(zs: seq<ZSet>, limits: seq<nat>, pages: seq<seq<Entry>>, b: ZSet)
    requires |zs| == |limits| == |pages| > 0 && Follows(zs, limits, 0, pages) && SubMap(zs[0], b)
    requires forall k | 0 <= k < |zs| :: PositiveScores(zs[k]) && GrowsAbove(b, zs[k])
    ensures Within(Concat(pages), b) == Concat(pages)
  {
    var all := Concat(pages);
    if pages[0] == [] {
      assert |pages| == 1 && Concat(pages[1..]) == [];
    } else {
      PageCut(zs[0], limits[0]);
      var tail, c := Concat(pages[1..]), LastScore(pages[0]);
      if |pages| > 1 {
        PagesDescend(zs[1..], limits[1..], c, pages[1..]);
        forall i | 0 <= i < |tail|
          ensures tail[i].id in b
        {
          assert tail[i] in tail;
          var k :| 0 <= k < |zs| - 1 && tail[i].id in zs[1..][k] && zs[1..][k][tail[i].id] == tail[i].score;
          assert GrowsAbove(b, zs[k + 1]) && zs[k + 1] == zs[1..][k];
        }
      }
      forall i | 0 <= i < |pages[0]|
        ensures pages[0][i].id in b
      {
        assert pages[0][i] in pages[0];
      }
      assert all == pages[0] + tail;
    }
    WithinAll(all, b);
  }

  /** Paging from the newest while members arrive on top returns what was there at the first
      read: in order, without gap or repetition, whatever the page sizes. */
  lemma PagesAreListing(zs: seq<ZSet>, limits: seq<nat>, pages: seq<seq<Entry>>, b: ZSet)
    requires |zs| == |limits| == |pages| > 0 && Follows(zs, limits, 0, pages) && SubMap(zs[0], b)
    requires DistinctScores(b)
    requires forall k | 0 <= k < |zs| :: PositiveScores(zs[k]) && GrowsAbove(b, zs[k])
    ensures Concat(pages) <= Listing(b) && |pages| <= |Listing(b)| + 1
    ensures Finished(pages, limits) ==> Concat(pages) == Listing(b)
  {
    FewPages(zs, limits, 0, pages);
    PagesHold(zs, limits, 0, pages, b);
    NothingNewer(zs, limits, pages, b);
  }
}
