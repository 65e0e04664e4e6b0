/** Redis sorted sets: rank order, top-n, descending listings. */
module RankedSet {
  import opened Collections
  import opened Decimal

  datatype Entry = Entry(id: int, score: int)

  /** Member -> score. */
  type ZSet = map<int, int>

  predicate TextLess(a: string, b: string) {
    |b| > 0 && (|a| == 0 || a[0] < b[0] || (a[0] == b[0] && TextLess(a[1..], b[1..])))
  }

  /** Redis orders members by score, and bytewise on the member text when scores are equal. */
  predicate Lower(a: Entry, b: Entry) {
    a.score < b.score || (a.score == b.score && TextLess(IntText(a.id), IntText(b.id)))
  }

  /** a is a proper beginning of b, or smaller at the first character that differs. */
  predicate SmallerAt(a: string, b: string, i: int) {
    0 <= i <= |a| && i < |b| && a[..i] == b[..i] && (i == |a| || a[i] < b[i])
  }

  lemma {:induction false} TextLessIff(a: string, b: string)
    ensures TextLess(a, b) <==> exists i :: SmallerAt(a, b, i)
  {
    if |a| > 0 && |b| > 0 && a[0] == b[0] {
      TextLessIff(a[1..], b[1..]);
      forall i | 0 <= i
        ensures SmallerAt(a[1..], b[1..], i) <==> SmallerAt(a, b, i + 1)
      {
        if i < |a| && i + 1 < |b| {
          assert a[..i + 1] == [a[0]] + a[1..][..i] && b[..i + 1] == [b[0]] + b[1..][..i];
          assert a[1..][..i] == a[..i + 1][1..] && b[1..][..i] == b[..i + 1][1..];
        }
      }
      if i :| SmallerAt(a, b, i) {
        assert SmallerAt(a[1..], b[1..], i - 1);
      }
    } else if TextLess(a, b) {
      assert SmallerAt(a, b, 0);
    } else {
      forall i | 0 <= i <= |a| && i < |b|
        ensures !SmallerAt(a, b, i)
      {
        assert i > 0 ==> a[..i][0] == a[0] && b[..i][0] == b[0];
      }
    }
  }

  lemma {:induction false} TextLessTrans(a: string, b: string, c: string)
    requires TextLess(a, b) && TextLess(b, c)
    ensures TextLess(a, c)
  {
    if |a| > 0 && a[0] == b[0] == c[0] {
      TextLessTrans(a[1..], b[1..], c[1..]);
    }
  }

  lemma {:induction false} TextLessTotal(a: string, b: string)
    ensures a == b || TextLess(a, b) || TextLess(b, a)
    ensures !(TextLess(a, b) && TextLess(b, a))
  {
    if |a| > 0 && |b| > 0 && a[0] == b[0] {
      TextLessTotal(a[1..], b[1..]);
      assert a == [a[0]] + a[1..] && b == [b[0]] + b[1..];
    }
  }

  lemma LowerTrans(a: Entry, b: Entry, c: Entry)
    requires Lower(a, b) && Lower(b, c)
    ensures Lower(a, c)
  {
    if a.score == b.score == c.score {
      TextLessTrans(IntText(a.id), IntText(b.id), IntText(c.id));
    }
  }

  lemma LowerTotal(a: Entry, b: Entry)
    ensures a == b || Lower(a, b) || Lower(b, a)
    ensures !(Lower(a, b) && Lower(b, a))
  {
    TextLessTotal(IntText(a.id), IntText(b.id));
    if a.score == b.score && IntText(a.id) == IntText(b.id) {
      IntTextInjective(a.id, b.id);
    }
  }

  // ---------------- top-n ----------------

  predicate SubMap(a: ZSet, b: ZSet) {
    forall m | m in a :: m in b && a[m] == b[m]
  }

  function At(z: ZSet, m: int): Entry
    requires m in z
  {
    Entry(m, z[m])
  }

  function Above(z: ZSet, m: int): set<int>
    requires m in z
  {
    set x | x in z && Lower(At(z, m), At(z, x))
  }

  /** The n highest-ranked members: those with fewer than n members above them. */
  function Top(z: ZSet, n: nat): ZSet {
    map m | m in z && |Above(z, m)| < n :: z[m]
  }

  lemma AboveNested(z: ZSet, lo: int, hi: int)
    requires lo in z && hi in z && Lower(At(z, lo), At(z, hi))
    ensures Above(z, hi) <= Above(z, lo) && hi in Above(z, lo) && hi !in Above(z, hi)
    ensures |Above(z, hi)| < |Above(z, lo)|
  {
    forall x | x in Above(z, hi)
      ensures x in Above(z, lo)
    {
      LowerTrans(At(z, lo), At(z, hi), At(z, x));
    }
    LowerTotal(At(z, hi), At(z, hi));
    SubsetSize(Above(z, hi), Above(z, lo));
  }

  ghost predicate IsLowest(z: ZSet, m: int) {
    m in z && forall x | x in z && x != m :: Lower(At(z, m), At(z, x))
  }

  lemma {:induction false} LowestExists(z: ZSet) returns (m: int)
    requires z.Keys != {}
    ensures IsLowest(z, m)
    decreases |z.Keys|
  {
    m := AnyElement(z.Keys);
    var rest := z - {m};
    assert rest.Keys == z.Keys - {m};
    if rest.Keys != {} {
      var k := LowestExists(rest);
      LowerTotal(At(z, m), At(z, k));
      forall x | x in rest && x != k
        ensures Lower(At(z, k), At(z, x))
        ensures Lower(At(z, m), At(z, k)) ==> Lower(At(z, m), At(z, x))
      {
        assert At(rest, x) == At(z, x) && At(rest, k) == At(z, k);
        if Lower(At(z, m), At(z, k)) {
          LowerTrans(At(z, m), At(z, k), At(z, x));
        }
      }
      if Lower(At(z, k), At(z, m)) {
        m := k;
      }
    }
  }

  /** Dropping the lowest member changes nothing about the top n < |z| members. */
  lemma DropLowest(z: ZSet, lo: int, n: nat)
    requires IsLowest(z, lo) && n < |z.Keys|
    ensures Top(z - {lo}, n) == Top(z, n)
  {
    var rest := z - {lo};
    forall m | m in rest
      ensures Above(rest, m) == Above(z, m)
    {
      LowerTotal(At(z, lo), At(z, m));
      assert At(rest, m) == At(z, m);
      assert forall x | x in rest :: At(rest, x) == At(z, x);
    }
    LowerTotal(At(z, lo), At(z, lo));
    assert Above(z, lo) == z.Keys - {lo};
    assert |z.Keys - {lo}| == |z.Keys| - 1;
  }

  lemma TopOfSmall(z: ZSet, n: nat)
    requires |z.Keys| <= n
    ensures Top(z, n) == z
  {
    forall m | m in z
      ensures |Above(z, m)| < n
    {
      LowerTotal(At(z, m), At(z, m));
      SubsetSize(Above(z, m), z.Keys - {m});
      assert |z.Keys - {m}| == |z.Keys| - 1;
    }
  }

  lemma {:induction false} TopSize(z: ZSet, n: nat)
    ensures |Top(z, n).Keys| == if |z.Keys| < n then |z.Keys| else n
    decreases |z.Keys|
  {
    if |z.Keys| <= n {
      TopOfSmall(z, n);
    } else {
      var lo := LowestExists(z);
      DropLowest(z, lo, n);
      assert (z - {lo}).Keys == z.Keys - {lo};
      TopSize(z - {lo}, n);
    }
  }

  lemma TopIsAboveRest(z: ZSet, n: nat, m: int)
    requires m in z && m !in Top(z, n)
    ensures Top(z, n).Keys <= Above(z, m)
  {
    forall x | x in Top(z, n)
      ensures x in Above(z, m)
    {
      LowerTotal(At(z, m), At(z, x));
      if Lower(At(z, x), At(z, m)) {
        AboveNested(z, x, m);
      }
    }
  }

  /** The top n of d survive in any z between Top(d, n) and d, and are the top n of z. */
  lemma Sandwich(d: ZSet, z: ZSet, n: nat)
    requires SubMap(Top(d, n), z) && SubMap(z, d)
    ensures Top(z, n) == Top(d, n)
  {
    forall m | m in z
      ensures m in Top(z, n) <==> m in Top(d, n)
    {
      assert forall x | x in z :: At(z, x) == At(d, x);
      assert Above(z, m) <= Above(d, m);
      SubsetSize(Above(z, m), Above(d, m));
      if m !in Top(d, n) {
        TopIsAboveRest(d, n, m);
        assert Top(d, n).Keys <= Above(z, m);
        TopSize(d, n);
        SubsetSize(Above(d, m), d.Keys);
        SubsetSize(Top(d, n).Keys, Above(z, m));
      }
    }
  }

  // ---------------- descending listings ----------------

  predicate Descending(s: seq<Entry>) {
    forall i, j | 0 <= i < j < |s| :: Lower(s[j], s[i])
  }

  /** s lists exactly the members of z, highest first. */
  predicate IsListing(s: seq<Entry>, z: ZSet) {
    && Descending(s)
    && (forall e | e in s :: e.id in z && z[e.id] == e.score)
    && (forall m | m in z :: At(z, m) in s)
  }

  lemma EmptyListing(s: seq<Entry>, z: ZSet)
    requires IsListing(s, z)
    ensures |s| == 0 <==> z.Keys == {}
  {
    if |s| > 0 {
      assert s[0] in s;
    }
    if z.Keys != {} {
      var m := AnyElement(z.Keys);
      assert At(z, m) in s;
    }
  }

  lemma LowestIsLast(s: seq<Entry>, z: ZSet, lo: int)
    requires IsListing(s, z) && IsLowest(z, lo)
    ensures |s| > 0 && s[|s| - 1] == At(z, lo) && IsListing(s[..|s| - 1], z - {lo})
  {
    var k :| 0 <= k < |s| && s[k] == At(z, lo);
    var last := s[|s| - 1];
    LowerTotal(At(z, lo), last);
    assert last in s;
    var init := s[..|s| - 1];
    forall e | e in init
      ensures e.id in z - {lo} && (z - {lo})[e.id] == e.score
    {
      var i :| 0 <= i < |init| && init[i] == e;
      assert s[i] == e && Lower(last, e);
      LowerTotal(e, last);
    }
  }

  lemma {:induction false} ListingUnique(s: seq<Entry>, t: seq<Entry>, z: ZSet)
    requires IsListing(s, z) && IsListing(t, z)
    ensures s == t
    decreases |s|
  {
    EmptyListing(s, z);
    EmptyListing(t, z);
    if z.Keys != {} {
      var lo := LowestExists(z);
      LowestIsLast(s, z, lo);
      LowestIsLast(t, z, lo);
      ListingUnique(s[..|s| - 1], t[..|t| - 1], z - {lo});
      assert s == s[..|s| - 1] + [s[|s| - 1]] && t == t[..|t| - 1] + [t[|t| - 1]];
    }
  }

  lemma {:induction false} ListingExists(z: ZSet) returns (s: seq<Entry>)
    ensures IsListing(s, z)
    decreases |z.Keys|
  {
    s := [];
    if z.Keys != {} {
      var lo := LowestExists(z);
      var rest := z - {lo};
      assert rest.Keys == z.Keys - {lo};
      var t := ListingExists(rest);
      s := t + [At(z, lo)];
      forall m | m in z
        ensures At(z, m) in s
      {
        assert m != lo ==> At(rest, m) in t;
      }
      forall i, j | 0 <= i < j < |s|
        ensures Lower(s[j], s[i])
      {
        if j == |t| {
          assert t[i] in t && t[i] == At(z, t[i].id);
        }
      }
    }
  }

  lemma ListingDefined(z: ZSet)
    ensures exists s :: IsListing(s, z)
  {
    var s := ListingExists(z);
  }

  /** The members of z, highest rank first. */
  ghost function Listing(z: ZSet): (s: seq<Entry>)
    ensures IsListing(s, z)
  {
    ListingDefined(z);
    var s :| IsListing(s, z); s
  }

  function Ids(s: seq<Entry>): set<int> {
    set e | e in s :: e.id
  }

  lemma {:induction false} IdsSize(s: seq<Entry>)
    requires forall i, j | 0 <= i < j < |s| :: s[i].id != s[j].id
    ensures |Ids(s)| == |s|
  {
    if |s| > 0 {
      var n := |s| - 1;
      IdsSize(s[..n]);
      assert s == s[..n] + [s[n]];
      assert Ids(s) == Ids(s[..n]) + {s[n].id};
    }
  }

  lemma ListingAt(s: seq<Entry>, z: ZSet, i: nat)
    requires IsListing(s, z) && i < |s|
    ensures s[i].id in z && At(z, s[i].id) == s[i]
    ensures forall j | 0 <= j < |s| && j != i :: s[j].id != s[i].id
  {
    assert s[i] in s;
    forall j | 0 <= j < |s| && j != i
      ensures s[j].id != s[i].id
    {
      assert s[j] in s;
      LowerTotal(s[i], s[j]);
    }
  }

  lemma ListingIndex(s: seq<Entry>, z: ZSet, m: int) returns (i: nat)
    requires IsListing(s, z) && m in z
    ensures i < |s| && s[i] == At(z, m)
  {
    assert At(z, m) in s;
    i :| 0 <= i < |s| && s[i] == At(z, m);
  }

  lemma AboveIsPrefix(s: seq<Entry>, z: ZSet, i: nat)
    requires IsListing(s, z) && i < |s|
    ensures s[i].id in z && At(z, s[i].id) == s[i]
    ensures |Above(z, s[i].id)| == i
  {
    ListingAt(s, z, i);
    var p := s[..i];
    forall x | x in z
      ensures Lower(s[i], At(z, x)) <==> x in Ids(p)
    {
      var j := ListingIndex(s, z, x);
      ListingAt(s, z, j);
      LowerTotal(s[i], s[j]);
      assert j < i ==> p[j] == s[j];
    }
    forall x | x in Ids(p)
      ensures x in z
    {
      var k :| 0 <= k < i && s[k].id == x;
      ListingAt(s, z, k);
    }
    assert Above(z, s[i].id) == Ids(p);
    forall j, k | 0 <= j < k < |p|
      ensures p[j].id != p[k].id
    {
      ListingAt(s, z, j);
    }
    IdsSize(p);
  }

  /** Cutting a listing after n entries lists exactly the top n. */
  lemma TakeIsTop(s: seq<Entry>, z: ZSet, n: nat)
    requires IsListing(s, z)
    ensures IsListing(Take(s, n), Top(z, n))
  {
    var p := Take(s, n);
    forall e | e in p
      ensures e.id in Top(z, n) && Top(z, n)[e.id] == e.score
    {
      var i :| 0 <= i < |p| && p[i] == e;
      AboveIsPrefix(s, z, i);
    }
    forall m | m in Top(z, n)
      ensures At(Top(z, n), m) in p
    {
      var i :| 0 <= i < |s| && s[i] == At(z, m);
      AboveIsPrefix(s, z, i);
      assert p[i] == s[i];
    }
  }

  // ---------------- cursor reads ----------------

  /** The members a cursor read may return: all for cursor 0, else those scored strictly below it. */
  function Below(z: ZSet, cursor: int): ZSet {
    if cursor > 0 then map m | m in z && z[m] < cursor :: z[m] else z
  }

  /** One descending page: the first `limit` entries below the cursor. */
  ghost function Page(z: ZSet, cursor: int, limit: nat): seq<Entry> {
    Take(Listing(Below(z, cursor)), limit)
  }

  /** A page holds members scored below the cursor, highest score first, the bytewise greater member
      text first when scores are equal; what it leaves out scores no higher and did not fit. */
  lemma PageIs(z: ZSet, cursor: int, limit: nat)
    ensures var p := Page(z, cursor, limit);
            && |p| <= limit
            && (forall e | e in p :: e.id in z && z[e.id] == e.score && (cursor > 0 ==> e.score < cursor))
            && (forall i, j | 0 <= i < j < |p| ::
                  || p[i].score > p[j].score
                  || (p[i].score == p[j].score && TextLess(IntText(p[j].id), IntText(p[i].id))))
            && (forall m | m in z && (cursor > 0 ==> z[m] < cursor) ::
                  Entry(m, z[m]) in p || (|p| == limit && forall e | e in p :: z[m] <= e.score))
  {
    var range, p := Below(z, cursor), Page(z, cursor, limit);
    var all := Listing(range);
    forall e | e in p
      ensures e in all
    {
    }
    forall i, j | 0 <= i < j < |p|
      ensures Lower(p[j], p[i])
    {
      assert p[i] == all[i] && p[j] == all[j];
    }
    forall m | m in range
      ensures Entry(m, z[m]) in p || (|p| == limit && forall e | e in p :: z[m] <= e.score)
    {
      var k := ListingIndex(all, range, m);
      if k < |p| {
        assert p[k] == all[k];
      } else {
        forall e | e in p
          ensures z[m] <= e.score
        {
          var i :| 0 <= i < |p| && p[i] == e;
          assert all[i] == e && Lower(all[k], all[i]);
        }
      }
    }
  }

  predicate DistinctScores(z: ZSet) {
    forall a, b | a in z && b in z && a != b :: z[a] != z[b]
  }

  predicate PositiveScores(z: ZSet) {
    forall m | m in z :: z[m] > 0
  }

  lemma DistinctBelow(z: ZSet, cursor: int)
    requires DistinctScores(z)
    ensures DistinctScores(Below(z, cursor))
  {
  }

  /** Without an equal score behind it, the k-th score is above all later ones, and only those. */
  lemma ScoreCuts(s: seq<Entry>, k: nat, i: nat)
    requires Descending(s) && 0 < k <= |s| && i < |s|
    requires k < |s| ==> s[k].score < s[k - 1].score
    ensures s[i].score < s[k - 1].score <==> k <= i
  {
    assert i < k - 1 ==> Lower(s[k - 1], s[i]);
    assert k < i ==> Lower(s[i], s[k]);
  }

  /** Then the score cuts the listing right after k entries. */
  lemma SuffixBelow(s: seq<Entry>, b: ZSet, k: nat)
    requires IsListing(s, b) && 0 < k <= |s| && s[k - 1].score > 0
    requires k < |s| ==> s[k].score < s[k - 1].score
    ensures IsListing(s[k..], Below(b, s[k - 1].score))
  {
    var rest, t := Below(b, s[k - 1].score), s[k..];
    forall e | e in t
      ensures e.id in rest && rest[e.id] == e.score
    {
      var i :| 0 <= i < |t| && t[i] == e;
      ListingAt(s, b, k + i);
      ScoreCuts(s, k, k + i);
    }
    forall m | m in rest
      ensures At(rest, m) in t
    {
      var i := ListingIndex(s, b, m);
      ScoreCuts(s, k, i);
      assert t[i - k] == s[i];
    }
  }

  lemma BelowBelow(z: ZSet, cursor: int, c: int)
    requires 0 < c && (cursor > 0 ==> c <= cursor)
    ensures Below(Below(z, cursor), c) == Below(z, c)
  {
  }

  /** After k entries, the cursor read resumes exactly behind them if and only if no equal score follows. */
  lemma ResumeExact(z: ZSet, cursor: int, k: nat)
    requires PositiveScores(z)
    requires 0 < k <= |Listing(Below(z, cursor))|
    ensures var s := Listing(Below(z, cursor));
            Listing(Below(z, s[k - 1].score)) == s[k..] <==> (k < |s| ==> s[k].score < s[k - 1].score)
  {
    var b := Below(z, cursor);
    var s := Listing(b);
    ListingAt(s, b, k - 1);
    var c := s[k - 1].score;
    BelowBelow(z, cursor, c);
    if k < |s| ==> s[k].score < c {
      SuffixBelow(s, b, k);
      ListingUnique(s[k..], Listing(Below(z, c)), Below(z, c));
    } else {
      assert s[k] == s[k..][0];
      if Listing(Below(z, c)) == s[k..] {
        ListingAt(s[k..], Below(z, c), 0);
      }
    }
  }

  // ---------------- sorting ----------------

  function Insert(s: seq<Entry>, e: Entry): (r: seq<Entry>)
    ensures multiset(r) == multiset(s) + multiset{e}
  {
    if |s| == 0 then [e]
    else if Lower(s[0], e) then [e] + s
    else
      assert s == [s[0]] + s[1..];
      [s[0]] + Insert(s[1..], e)
  }

  lemma {:induction false} InsertDescending(s: seq<Entry>, e: Entry)
    requires Descending(s) && e !in s
    ensures Descending(Insert(s, e))
  {
    if |s| > 0 {
      LowerTotal(s[0], e);
      if Lower(s[0], e) {
        forall j | 1 <= j < |s|
          ensures Lower(s[j], e)
        {
          LowerTrans(s[j], s[0], e);
        }
      } else {
        var t := Insert(s[1..], e);
        InsertDescending(s[1..], e);
        forall j | 0 <= j < |t|
          ensures Lower(t[j], s[0])
        {
          assert t[j] in multiset(t);
          assert t[j] == e || t[j] in s[1..];
        }
      }
    }
  }

  lemma InsertListing(s: seq<Entry>, z: ZSet, e: Entry)
    requires IsListing(s, z) && e.id !in z
    ensures IsListing(Insert(s, e), z[e.id := e.score])
  {
    InsertDescending(s, e);
    var t := Insert(s, e);
    forall x
      ensures x in t <==> x == e || x in s
    {
      assert x in t <==> x in multiset(t);
    }
    var z' := z[e.id := e.score];
    forall m | m in z'
      ensures At(z', m) in t
    {
      assert m != e.id ==> At(z, m) in s;
    }
  }
}
