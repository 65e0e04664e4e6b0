/** Distributed fixed-window limiter (pkg/ratelimit/limiter.go). */
module RateLimit {
  import opened Collections
  import opened Decimal

  // ---------------- integer text ----------------

  /** Negating the least int64 overflows to itself, so its digit loop never runs. */
  function FormatText(n: int): string {
    if n == MIN_INT64 then "-" else IntText(n)
  }

  function Pow10(k: nat): nat {
    if k == 0 then 1 else 10 * Pow10(k - 1)
  }

  function Digits(m: nat): string {
    if m == 0 then "" else NatText(m)
  }

  lemma LastDigit(m: nat, tail: string)
    requires m > 0
    ensures Digits(m) + tail == Digits(m / 10) + ([DigitChar(m % 10)] + tail)
  {
    if m < 10 {
      assert NatText(m) == [DigitChar(m % 10)];
      assert "" + ([DigitChar(m % 10)] + tail) == [DigitChar(m % 10)] + tail;
    } else {
      assert NatText(m) == NatText(m / 10) + [DigitChar(m % 10)];
    }
  }

  lemma {:induction false} TextLength(m: nat, k: nat)
    requires k > 0 && m < Pow10(k)
    ensures |NatText(m)| <= k
  {
    if m >= 10 {
      TextLength(m / 10, k - 1);
    }
  }

  /** Writes the digits of m in front of the end of the buffer. */
  method FillDigits(buf: array<char>, m: nat) returns (i: nat)
    requires buf.Length == 20 && m > 0 && |NatText(m)| <= 19
    modifies buf
    ensures 1 <= i <= 20 && buf[i..] == NatText(m)
  {
    i := 20;
    var rest: nat := m;
    assert Digits(m) + buf[20..] == NatText(m);
    while rest > 0
      invariant 1 <= i <= 20 && Digits(rest) + buf[i..] == NatText(m)
    {
      ghost var tail := buf[i..];
      LastDigit(rest, tail);
      i := i - 1;
      buf[i] := DigitChar(rest % 10);
      assert buf[i..] == [DigitChar(rest % 10)] + tail;
      rest := rest / 10;
    }
    assert "" + buf[i..] == buf[i..];
  }

  /** Fills a 20-character buffer from the back; it is always large enough. */
  method FormatInt(n: int) returns (text: string)
    requires IsInt64(n)
    ensures text == FormatText(n)
  {
    if n == 0 { return "0"; }
    var neg := n < 0;
    var m := if neg && n != MIN_INT64 then -n else n;
    var buf := new char[20](_ => ' ');
    var i: nat := 20;
    if m > 0 {
      Pow10Nineteen();
      TextLength(m, 19);
      i := FillDigits(buf, m);
    }
    if neg {
      ghost var tail := buf[i..];
      i := i - 1;
      buf[i] := '-';
      assert buf[i..] == "-" + tail;
    }
    text := buf[i..];
  }

  lemma Pow10Nineteen()
    ensures Pow10(19) == 10_000_000_000_000_000_000
  {
    assert Pow10(5) == 100_000;
    assert Pow10(10) == 10_000_000_000;
    assert Pow10(15) == 1_000_000_000_000_000;
  }

  lemma NotJustASign(n: int)
    ensures IntText(n) != "-"
  {
    if n < 0 {
      assert |IntText(n)| == 1 + |NatText(-n)|;
    } else {
      assert IsDigit(IntText(n)[0]);
    }
  }

  lemma FormatTextDistinct(a: int, b: int)
    requires FormatText(a) == FormatText(b)
    ensures a == b
  {
    NotJustASign(a);
    NotJustASign(b);
    if a != MIN_INT64 && b != MIN_INT64 {
      IntTextInjective(a, b);
    }
  }

  // ---------------- bucket keys ----------------

  function RouteKey(route: string, key: string): string {
    route + ":" + key
  }

  function Bucket(route: string, key: string, second: int): string {
    "ratelimit:" + RouteKey(route, key) + ":" + FormatText(second)
  }

  lemma LastColon(a: string, b: string, x: string, y: string)
    requires ':' !in x && ':' !in y && a + ":" + x == b + ":" + y
    ensures a == b && x == y
  {
    var l, r := a + ":" + x, b + ":" + y;
    assert forall i | |a| < i < |l| :: l[i] == x[i - |a| - 1] != ':';
    assert forall i | |b| < i < |r| :: r[i] == y[i - |b| - 1] != ':';
    assert l[|a|] == ':' && r[|b|] == ':';
    assert a == l[..|a|] && b == r[..|b|] && x == l[|a| + 1..] && y == r[|b| + 1..];
  }

  lemma SamePrefix(p: string, a: string, b: string)
    requires p + a == p + b
    ensures a == b
  {
    assert a == (p + a)[|p|..] && b == (p + b)[|p|..];
  }

  /** Equal buckets always agree on the second, and on the route followed by the key. */
  lemma BucketParts(r: string, k: string, t: int, s: string, l: string, u: int)
    requires Bucket(r, k, t) == Bucket(s, l, u)
    ensures t == u && RouteKey(r, k) == RouteKey(s, l)
  {
    LastColon("ratelimit:" + RouteKey(r, k), "ratelimit:" + RouteKey(s, l), FormatText(t), FormatText(u));
    FormatTextDistinct(t, u);
    SamePrefix("ratelimit:", RouteKey(r, k), RouteKey(s, l));
  }

  // ---------------- rule choice ----------------

  /** qps and burst of a rule. */
  type Rule = (int, int)

  /** What a path is limited by: the rule with this prefix, or the fallback. */
  datatype Choice = ByRule(prefix: string) | Fallback

  predicate Matches(rules: map<string, Rule>, path: string, prefix: string) {
    prefix in rules && prefix <= path
  }

  /** c is a possible outcome of visiting the rules in the map's unspecified order. */
  predicate Chooses(rules: map<string, Rule>, path: string, c: Choice) {
    match c
    case ByRule(prefix) => Matches(rules, path, prefix)
    case Fallback => forall p | p in rules :: !Matches(rules, path, p)
  }

  /** The text under which the choice is counted. */
  function RouteOf(c: Choice): string {
    match c
    case ByRule(prefix) => prefix
    case Fallback => "fallback"
  }

  /** Map iteration order does not influence the choice on any path exactly when no rule prefix
      extends another. */
  lemma ChoiceUniqueIff(rules: map<string, Rule>)
    ensures (forall path, c, d | Chooses(rules, path, c) && Chooses(rules, path, d) :: c == d)
            <==> (forall p, q | p in rules && q in rules && p <= q :: p == q)
  {
    if forall p, q | p in rules && q in rules && p <= q :: p == q {
      forall path, c, d | Chooses(rules, path, c) && Chooses(rules, path, d)
        ensures c == d
      {
        if c.ByRule? && d.ByRule? {
          var p, q := c.prefix, d.prefix;
          assert p == path[..|p|] && q == path[..|q|];
          assert |p| <= |q| ==> p <= q;
          assert |q| <= |p| ==> q <= p;
        }
      }
    } else {
      var p, q :| p in rules && q in rules && p <= q && p != q;
      assert Chooses(rules, q, ByRule(p)) && Chooses(rules, q, ByRule(q));
    }
  }

  // ---------------- buckets are told apart ----------------

  /** The choice can be made for some path. */
  ghost predicate Reachable(rules: map<string, Rule>, c: Choice) {
    exists path :: Chooses(rules, path, c)
  }

  /** No two requests share a bucket unless rule (or fallback), key and second are the same. */
  ghost predicate BucketsDistinct(rules: map<string, Rule>) {
    forall c, k, t, d, l, u |
      Reachable(rules, c) && Reachable(rules, d) && Bucket(RouteOf(c), k, t) == Bucket(RouteOf(d), l, u) ::
      c == d && k == l && t == u
  }

  /** No rule prefix continues another one with a colon, and, unless a rule matches every path,
      none is "fallback" or begins with "fallback:". */
  predicate RulesKeepApart(rules: map<string, Rule>) {
    && (forall r, s | r in rules && s in rules :: !(r + ":" <= s))
    && ("" !in rules ==> "fallback" !in rules && forall s | s in rules :: !("fallback:" <= s))
  }

  /** The empty path is left to the fallback unless the empty prefix is a rule. */
  lemma ReachableChoices(rules: map<string, Rule>, c: Choice)
    ensures Reachable(rules, c) <==> (if c.ByRule? then c.prefix in rules else "" !in rules)
  {
    if c.ByRule? {
      if c.prefix in rules {
        assert Chooses(rules, c.prefix, c);
      }
    } else if "" in rules {
      forall path
        ensures !Chooses(rules, path, c)
      {
        assert Matches(rules, path, "");
      }
    } else {
      assert Chooses(rules, "", c);
    }
  }

  lemma RoutesSplit(r: string, k: string, s: string, l: string)
    requires RouteKey(r, k) == RouteKey(s, l)
    ensures |r| == |s| ==> r == s && k == l
    ensures |r| < |s| ==> r + ":" <= s
  {
    var a, b := RouteKey(r, k), RouteKey(s, l);
    assert a[..|r|] == r && b[..|s|] == s && a[|r|] == ':';
    assert a[|r| + 1..] == k && b[|s| + 1..] == l;
    if |r| < |s| {
      assert a[..|r| + 1] == r + ":";
      assert s[..|r| + 1] == b[..|r| + 1];
    }
  }

  /** Two routes, one continuing the other with a colon, share a bucket. */
  lemma SharedBucket(r: string, s: string)
    requires r + ":" <= s
    ensures Bucket(r, s[|r| + 1..] + ":", 0) == Bucket(s, "", 0)
  {
    var rest := s[|r| + 1..];
    assert s == r + ":" + rest;
    assert RouteKey(r, rest + ":") == RouteKey(s, "");
  }

  lemma ColonAfter(s: string, w: string)
    requires s + ":" <= w
    ensures ':' in w
  {
    assert w[|s|] == (s + ":")[|s|];
  }

  lemma NoColonInFallback(s: string)
    ensures !(s + ":" <= "fallback")
  {
    if s + ":" <= "fallback" {
      ColonAfter(s, "fallback");
    }
  }

  lemma ApartDistinct(rules: map<string, Rule>, c: Choice, k: string, t: int, d: Choice, l: string, u: int)
    requires RulesKeepApart(rules) && Reachable(rules, c) && Reachable(rules, d)
    requires Bucket(RouteOf(c), k, t) == Bucket(RouteOf(d), l, u)
    ensures c == d && k == l && t == u
  {
    ReachableChoices(rules, c);
    ReachableChoices(rules, d);
    BucketParts(RouteOf(c), k, t, RouteOf(d), l, u);
    RoutesSplit(RouteOf(c), k, RouteOf(d), l);
    RoutesSplit(RouteOf(d), l, RouteOf(c), k);
    NoColonInFallback(RouteOf(c));
    NoColonInFallback(RouteOf(d));
    assert "fallback" + ":" == "fallback:";
  }

  lemma CollisionFound(rules: map<string, Rule>, c: Choice, k: string, d: Choice, l: string)
    requires Reachable(rules, c) && Reachable(rules, d) && c != d
    requires Bucket(RouteOf(c), k, 0) == Bucket(RouteOf(d), l, 0)
    ensures !BucketsDistinct(rules)
  {
  }

  /** Bucket keys tell rule, key and second apart exactly when the rule prefixes keep apart from
      each other and from the word that stands for the fallback. */
  lemma BucketsDistinctIff(rules: map<string, Rule>)
    ensures BucketsDistinct(rules) <==> RulesKeepApart(rules)
  {
    if RulesKeepApart(rules) {
      forall c, k, t, d, l, u |
        Reachable(rules, c) && Reachable(rules, d) && Bucket(RouteOf(c), k, t) == Bucket(RouteOf(d), l, u)
        ensures c == d && k == l && t == u
      {
        ApartDistinct(rules, c, k, t, d, l, u);
      }
    } else if r, s :| r in rules && s in rules && r + ":" <= s {
      ReachableChoices(rules, ByRule(r));
      ReachableChoices(rules, ByRule(s));
      SharedBucket(r, s);
      CollisionFound(rules, ByRule(r), s[|r| + 1..] + ":", ByRule(s), "");
    } else {
      ReachableChoices(rules, Fallback);
      if "fallback" in rules {
        ReachableChoices(rules, ByRule("fallback"));
        CollisionFound(rules, ByRule("fallback"), "", Fallback, "");
      } else {
        var s :| s in rules && "fallback:" <= s;
        assert "fallback" + ":" == "fallback:";
        ReachableChoices(rules, ByRule(s));
        SharedBucket("fallback", s);
        CollisionFound(rules, Fallback, s[|"fallback"| + 1..] + ":", ByRule(s), "");
      }
    }
  }

  // ---------------- admission ----------------

  const SECOND: int := 1_000_000_000

  function ClockSecond(nanos: int): int { nanos / SECOND }

  datatype Limits = Limits(rules: map<string, Rule>, fallback: Rule)

  /** qps plus burst of what the choice stands for. */
  function LimitOf(l: Limits, c: Choice): int {
    var cfg := if c.ByRule? && c.prefix in l.rules then l.rules[c.prefix] else l.fallback;
    cfg.0 + cfg.1
  }

  /** A call of Allow: path, choice made for it, key, clock reading in nanoseconds, whether its
      INCR fails, and what the call returned. */
  datatype Call = Call(path: string, choice: Choice, key: string, nanos: int, incrFails: bool, ok: bool)

  function BucketOf(q: Call): string {
    Bucket(RouteOf(q.choice), q.key, ClockSecond(q.nanos))
  }

  predicate Counted(l: Limits, q: Call) {
    LimitOf(l, q.choice) > 0 && !q.incrFails
  }

  /** The counters after the calls, in the order in which their INCRs reached Redis. */
  function Counters(l: Limits, qs: seq<Call>): map<string, int> {
    if qs == [] then map[]
    else
      var before, q := Counters(l, qs[..|qs| - 1]), qs[|qs| - 1];
      if Counted(l, q) then Bump(before, BucketOf(q), 1) else before
  }

  /** What the next call returns on these counters. */
  predicate Passes(l: Limits, counters: map<string, int>, q: Call) {
    LimitOf(l, q.choice) > 0 && (q.incrFails || Get(counters, BucketOf(q)) < LimitOf(l, q.choice))
  }

  /** The calls are ones that Allow can have answered, one after the other, from empty counters. */
  predicate IsLog(l: Limits, qs: seq<Call>) {
    qs != [] ==>
      var earlier, q := qs[..|qs| - 1], qs[|qs| - 1];
      && IsLog(l, earlier) && Chooses(l.rules, q.path, q.choice)
      && (q.ok <==> Passes(l, Counters(l, earlier), q))
  }

  lemma LogMore(l: Limits, counters: map<string, int>, qs: seq<Call>, q: Call)
    requires counters == Counters(l, qs) && IsLog(l, qs)
    requires Chooses(l.rules, q.path, q.choice) && (q.ok <==> Passes(l, counters, q))
    ensures IsLog(l, qs + [q])
    ensures Counters(l, qs + [q]) == if Counted(l, q) then Bump(counters, BucketOf(q), 1) else counters
  {
    assert (qs + [q])[..|qs|] == qs;
  }

  lemma BucketText(route: string, key: string, second: int)
    ensures "ratelimit:" + route + ":" + key + ":" + FormatText(second) == Bucket(route, key, second)
  {
    assert "ratelimit:" + route + ":" + key == "ratelimit:" + RouteKey(route, key);
  }

  /** The counters live in Redis, so `log` holds the calls of all pods. */
  class RedisPathLimiter {
    const rules: map<string, Rule>
    const fallback: Rule
    var counters: map<string, int>
    ghost var log: seq<Call>

    ghost predicate Valid()
      reads this
    {
      counters == Counters(Limits(rules, fallback), log) && IsLog(Limits(rules, fallback), log)
    }

    constructor (rules: map<string, Rule>, fallback: Rule)
      ensures this.rules == rules && this.fallback == fallback
      ensures Valid() && log == [] && counters == map[]
    {
      this.rules, this.fallback := rules, fallback;
      counters, log := map[], [];
    }

    /** Visits the rules in the map's unspecified order. */
    method RuleFor(path: string) returns (route: string, cfg: Rule, ghost choice: Choice)
      ensures Chooses(rules, path, choice)
      ensures route == RouteOf(choice)
      ensures if exists p :: p in rules && p <= path
              then choice.ByRule? && route in rules && route <= path && cfg == rules[route]
              else choice == Fallback && route == "fallback" && cfg == fallback
    {
      var todo := rules.Keys;
      while todo != {}
        invariant todo <= rules.Keys
        invariant forall p | p in rules && p !in todo :: !(p <= path)
        decreases todo
      {
        ghost var some := AnyElement(todo);
        var prefix :| prefix in todo;
        if prefix <= path {
          return prefix, rules[prefix], ByRule(prefix);
        }
        todo := todo - {prefix};
      }
      return "fallback", fallback, Fallback;
    }

    /** A failing INCR lets the request pass and counts nothing. */
    method Allow(path: string, key: string, nanos: int, incrFails: bool) returns (ok: bool, ghost choice: Choice)
      requires Valid() && IsInt64(ClockSecond(nanos))
      modifies this
      ensures Valid() && log == old(log) + [Call(path, choice, key, nanos, incrFails, ok)]
      ensures Chooses(rules, path, choice)
      ensures var limit := match choice
                           case ByRule(prefix) => rules[prefix].0 + rules[prefix].1
                           case Fallback => fallback.0 + fallback.1;
              var bucket := Bucket(RouteOf(choice), key, nanos / 1_000_000_000);
              if limit <= 0 then !ok && counters == old(counters)
              else if incrFails then ok && counters == old(counters)
              else counters == Bump(old(counters), bucket, 1) && (ok <==> counters[bucket] <= limit)
    {
      var route, cfg;
      route, cfg, choice := RuleFor(path);
      var limit := cfg.0 + cfg.1;
      if limit <= 0 {
        ok := false;
      } else {
        var text := FormatInt(ClockSecond(nanos));
        var redisKey := "ratelimit:" + route + ":" + key + ":" + text;
        BucketText(route, key, ClockSecond(nanos));
        if incrFails {
          ok := true;
        } else {
          counters := Bump(counters, redisKey, 1);
          ok := counters[redisKey] <= limit;
        }
      }
      ghost var call := Call(path, choice, key, nanos, incrFails, ok);
      LogMore(Limits(rules, fallback), old(counters), log, call);
      log := log + [call];
    }
  }

  // ---------------- any interleaving of requests ----------------

  /** A call of this choice and key in this clock second whose INCR succeeds. */
  predicate Concerns(q: Call, c: Choice, key: string, second: int) {
    q.choice == c && q.key == key && ClockSecond(q.nanos) == second && !q.incrFails
  }

  function Arrived(qs: seq<Call>, c: Choice, key: string, second: int): nat {
    if qs == [] then 0
    else
      Arrived(qs[..|qs| - 1], c, key, second) + (if Concerns(qs[|qs| - 1], c, key, second) then 1 else 0)
  }

  function AdmittedIn(qs: seq<Call>, c: Choice, key: string, second: int): nat {
    if qs == [] then 0
    else
      var q := qs[|qs| - 1];
      AdmittedIn(qs[..|qs| - 1], c, key, second) + (if Concerns(q, c, key, second) && q.ok then 1 else 0)
  }

  /** Of the calls whose INCR succeeds, at most qps plus burst of a rule and key are let through in
      one clock second, whatever arrives and in whatever order, even if buckets were shared. */
  lemma {:induction false} AtMostLimitPerSecond(l: Limits, qs: seq<Call>, c: Choice, key: string, second: int)
    requires IsLog(l, qs) && (c.ByRule? ==> c.prefix in l.rules)
    ensures LimitOf(l, c) > 0 ==>
              AdmittedIn(qs, c, key, second) <= Get(Counters(l, qs), Bucket(RouteOf(c), key, second))
    ensures var limit := match c
                         case ByRule(prefix) => l.rules[prefix].0 + l.rules[prefix].1
                         case Fallback => l.fallback.0 + l.fallback.1;
            AdmittedIn(qs, c, key, second) <= if limit < 0 then 0 else limit
    decreases |qs|
  {
    if qs != [] {
      AtMostLimitPerSecond(l, qs[..|qs| - 1], c, key, second);
    }
  }

  /** Under rules that keep apart, a rule and key get exactly the smaller of what arrives and of qps
      plus burst; nothing when that is not positive. */
  lemma {:induction false} ExactlyLimitPerSecond(l: Limits, qs: seq<Call>, c: Choice, key: string, second: int)
    requires IsLog(l, qs) && RulesKeepApart(l.rules) && Reachable(l.rules, c)
    ensures c.ByRule? ==> c.prefix in l.rules
    ensures Get(Counters(l, qs), Bucket(RouteOf(c), key, second)) ==
              if LimitOf(l, c) > 0 then Arrived(qs, c, key, second) else 0
    ensures var limit := match c
                         case ByRule(prefix) => l.rules[prefix].0 + l.rules[prefix].1
                         case Fallback => l.fallback.0 + l.fallback.1;
            var n := Arrived(qs, c, key, second);
            AdmittedIn(qs, c, key, second) == if limit <= 0 then 0 else if n < limit then n else limit
    decreases |qs|
  {
    ReachableChoices(l.rules, c);
    if qs != [] {
      var q := qs[|qs| - 1];
      ExactlyLimitPerSecond(l, qs[..|qs| - 1], c, key, second);
      assert Reachable(l.rules, q.choice);
      if BucketOf(q) == Bucket(RouteOf(c), key, second) {
        ApartDistinct(l.rules, q.choice, q.key, ClockSecond(q.nanos), c, key, second);
      }
    }
  }

  /** Admissions with clock readings in [from, from + 1s). */
  function AdmittedWithin(qs: seq<Call>, c: Choice, key: string, from: int): nat {
    if qs == [] then 0
    else
      var q := qs[|qs| - 1];
      AdmittedWithin(qs[..|qs| - 1], c, key, from)
      + (if Concerns(q, c, key, ClockSecond(q.nanos)) && from <= q.nanos < from + SECOND && q.ok then 1 else 0)
  }

  lemma {:induction false} WindowMeetsTwoSeconds(qs: seq<Call>, c: Choice, key: string, from: int)
    ensures AdmittedWithin(qs, c, key, from)
            <= AdmittedIn(qs, c, key, ClockSecond(from)) + AdmittedIn(qs, c, key, ClockSecond(from) + 1)
    decreases |qs|
  {
    if qs != [] {
      WindowMeetsTwoSeconds(qs[..|qs| - 1], c, key, from);
    }
  }

  /** Any half-open second lets at most twice qps plus burst through. */
  lemma AtMostTwicePerWindow(l: Limits, qs: seq<Call>, c: Choice, key: string, from: int)
    requires IsLog(l, qs) && (c.ByRule? ==> c.prefix in l.rules)
    ensures var limit := match c
                         case ByRule(prefix) => l.rules[prefix].0 + l.rules[prefix].1
                         case Fallback => l.fallback.0 + l.fallback.1;
            AdmittedWithin(qs, c, key, from) <= 2 * if limit < 0 then 0 else limit
  {
    WindowMeetsTwoSeconds(qs, c, key, from);
    AtMostLimitPerSecond(l, qs, c, key, ClockSecond(from));
    AtMostLimitPerSecond(l, qs, c, key, ClockSecond(from) + 1);
  }
}
