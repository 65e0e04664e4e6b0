/** Sharded counter keys: "likecnt:{vid}:{shard}" (internal/like/service.go, reconcile.go). */
module LikeKeys {
  import opened Decimal

  const COUNTER_SHARDS := 16
  const PREFIX := "likecnt:"
  const TWO_64 := 0x1_0000_0000_0000_0000

  /** Two's-complement wrap-around of int64 arithmetic. */
  function Wrap64(n: int): int { (n - MIN_INT64) % TWO_64 + MIN_INT64 }

  function Abs(n: int): nat { if n < 0 then -n else n }

  /** Go's remainder truncates toward zero. */
  function GoMod(n: int, m: int): int
    requires m > 0
  {
    if n < 0 then -((-n) % m) else n % m
  }

  datatype ShardKey = ShardKey(vid: int, shard: int)

  function CountShardKey(vid: int, shard: int): string {
    PREFIX + IntText(vid) + ":" + IntText(shard)
  }

  /** The only shard of a video that is ever written. */
  function HomeShard(vid: int): int { GoMod(vid, COUNTER_SHARDS) }

  function HomeKey(vid: int): ShardKey { ShardKey(vid, HomeShard(vid)) }

  /** Count reads shards 0..15, so it sees the home shard of every non-negative video, and of a
      negative one only when it is a multiple of 16. */
  lemma HomeShardIsRead(vid: int)
    ensures 0 <= HomeShard(vid) < COUNTER_SHARDS <==> (vid >= 0 || vid % COUNTER_SHARDS == 0)
    ensures vid >= 0 ==> HomeShard(vid) == vid % 16
    ensures vid < 0 ==> -16 < HomeShard(vid) <= 0 && (vid - HomeShard(vid)) % 16 == 0
  {
    if vid < 0 {
      assert (-vid) % 16 == 0 <==> vid % 16 == 0;
    }
  }

  /** Different counters never share a Redis key. */
  lemma KeysDistinct(v: int, s: int, w: int, t: int)
    requires CountShardKey(v, s) == CountShardKey(w, t)
    ensures v == w && s == t
  {
    assert CountShardKey(v, s)[|PREFIX|..] == IntText(v) + ":" + IntText(s);
    assert CountShardKey(w, t)[|PREFIX|..] == IntText(w) + ":" + IntText(t);
    FirstColon(IntText(v), IntText(w), IntText(s), IntText(t));
    IntTextInjective(v, w);
    IntTextInjective(s, t);
  }

  // ---------------- parsing ----------------

  /** Accumulates digits up to the first colon, skipping anything else. */
  function ParseDigits(vid: int, s: string): int
    decreases |s|
  {
    if s == "" || s[0] == ':' then vid
    else ParseDigits(if IsDigit(s[0]) then Wrap64(vid * 10 + DigitOf(s[0])) else vid, s[1..])
  }

  function VidOfKey(key: string): int {
    if |key| <= |PREFIX| then 0 else ParseDigits(0, key[|PREFIX|..])
  }

  method ParseVidFromKey(key: string) returns (vid: int)
    ensures vid == VidOfKey(key)
  {
    if |key| <= |PREFIX| { return 0; }
    var s := key[|PREFIX|..];
    vid := 0;
    for i := 0 to |s|
      invariant ParseDigits(vid, s[i..]) == ParseDigits(0, s)
    {
      var c := s[i];
      assert s[i..][1..] == s[i + 1..];
      if c == ':' { break; }
      if IsDigit(c) {
        vid := Wrap64(vid * 10 + DigitOf(c));
      }
    }
  }

  lemma {:induction false} ParseAppend(vid: int, s: string, t: string)
    requires ':' !in s
    ensures ParseDigits(vid, s + t) == ParseDigits(ParseDigits(vid, s), t)
    decreases |s|
  {
    if s == "" {
      assert s + t == t;
    } else {
      assert (s + t)[1..] == s[1..] + t;
      ParseAppend(if IsDigit(s[0]) then Wrap64(vid * 10 + DigitOf(s[0])) else vid, s[1..], t);
    }
  }

  lemma {:induction false} ParseNat(n: nat)
    requires n <= -MIN_INT64
    ensures ParseDigits(0, NatText(n)) == Wrap64(n)
  {
    if n < 10 {
      assert NatText(n)[1..] == "";
    } else {
      ParseNat(n / 10);
      ParseAppend(0, NatText(n / 10), [DigitChar(n % 10)]);
      assert Wrap64(n / 10) == n / 10;
      assert [DigitChar(n % 10)][1..] == "";
    }
  }

  /** Parsing a counter key yields the absolute video ID, in 64 bits. */
  lemma ParseKey(vid: int, shard: int)
    requires IsInt64(vid)
    ensures VidOfKey(CountShardKey(vid, shard)) == Wrap64(Abs(vid))
  {
    var key, tail := CountShardKey(vid, shard), ":" + IntText(shard);
    assert key[|PREFIX|..] == IntText(vid) + tail;
    ParseAppend(0, IntText(vid), tail);
    ParseNat(Abs(vid));
    if vid < 0 {
      assert IntText(vid)[1..] == NatText(-vid);
    }
  }

  /** The key layout, and what is read back from it. */
  lemma KeyLayout()
    ensures CountShardKey(123, 5) == "likecnt:123:5" && VidOfKey("likecnt:123:5") == 123
  {
    assert NatText(123) == NatText(12) + "3" && NatText(12) == "1" + "2";
    ParseRoundTrip(123, 5);
  }

  lemma WrapIsModular(n: int)
    ensures IsInt64(Wrap64(n)) && (n - Wrap64(n)) % 0x1_0000_0000_0000_0000 == 0
  {
    var q := (n - MIN_INT64) / TWO_64;
    assert n - Wrap64(n) == q * TWO_64;
  }

  lemma WrapAbs(vid: int)
    requires IsInt64(vid)
    ensures Wrap64(Abs(vid)) == vid <==> (vid >= 0 || vid == MIN_INT64)
  {
  }

  /** A scanned key repairs the video it counts exactly for non-negative IDs (and, by overflow,
      for the least int64). */
  lemma ParseRoundTrip(vid: int, shard: int)
    requires IsInt64(vid)
    ensures VidOfKey(CountShardKey(vid, shard)) == vid <==> (vid >= 0 || vid == MIN_INT64)
  {
    WrapAbs(vid);
    ParseKey(vid, shard);
  }
}
