/** The expiring cache with scored eviction (scripts/cached_intelligence.py, TTLCache). */
module TtlCache {
  import opened Common

  datatype Entry<K, V> = Entry(key: K, value: V, stamp: real, hits: nat, boost: real, ttl: int)

  datatype Stats = Stats(hits: nat, misses: nat, evictions: nat, expirations: nat)

  /** The cache dict in insertion order, and its counters. */
  datatype State<K, V> = State(cache: seq<Entry<K, V>>, stats: Stats)

  datatype Config = Config(maxsize: int, defaultTtl: int)

  // Ordered-dict primitives

  function KeyOf<K, V>(e: Entry<K, V>): K {
    e.key
  }

  predicate Has<K(==), V>(c: seq<Entry<K, V>>, key: K) {
    Find(c, KeyOf, key) < |c|
  }

  /** `cache[e.key] = e`: an existing key keeps its place. */
  function Put<K(==), V>(c: seq<Entry<K, V>>, e: Entry<K, V>): seq<Entry<K, V>> {
    if Has(c, e.key) then c[Find(c, KeyOf, e.key) := e] else c + [e]
  }

  /** The entries whose key is not among keys, in order. */
  function Without<K(==), V>(c: seq<Entry<K, V>>, keys: set<K>): (r: seq<Entry<K, V>>)
    ensures |r| <= |c|
  {
    if c == [] then []
    else Without(Front(c), keys) + (if Last(c).key in keys then [] else [Last(c)])
  }

  ghost predicate DistinctKeys<K(!new), V>(c: seq<Entry<K, V>>) {
    forall i, j :: 0 <= i < j < |c| ==> c[i].key != c[j].key
  }

  lemma {:induction false} WithoutTwice<K, V>(c: seq<Entry<K, V>>, a: set<K>, b: set<K>)
    ensures Without(Without(c, a), b) == Without(c, a + b)
  {
    if c == [] {
    } else {
      WithoutTwice(Front(c), a, b);
      var w := Without(Front(c), a);
      assert Last(c).key !in a ==> Front(w + [Last(c)]) == w;
      assert w + [] == w;
    }
  }

  lemma {:induction false} WithoutNone<K, V>(c: seq<Entry<K, V>>, keys: set<K>)
    requires forall k :: 0 <= k < |c| ==> c[k].key !in keys
    ensures Without(c, keys) == c
  {
    if c == [] {
    } else {
      WithoutNone(Front(c), keys);
      assert Last(c) == c[|c| - 1] && c == Front(c) + [Last(c)];
    }
  }

  /** Deleting one present key drops exactly its entry. */
  lemma {:induction false} WithoutOne<K(!new), V>(c: seq<Entry<K, V>>, i: nat)
    requires DistinctKeys(c) && i < |c|
    ensures Without(c, {c[i].key}) == c[..i] + c[i + 1..]
  {
    if i == |c| - 1 {
      WithoutNone(Front(c), {c[i].key});
    } else {
      WithoutOne(Front(c), i);
      assert c[..i] + c[i + 1..] == Front(c)[..i] + Front(c)[i + 1..] + [Last(c)];
    }
  }

  lemma {:induction false} WithoutSource<K, V>(c: seq<Entry<K, V>>, keys: set<K>, k: nat) returns (i: nat)
    requires k < |Without(c, keys)|
    ensures i < |c| && c[i] == Without(c, keys)[k] && c[i].key !in keys
  {
    if k < |Without(Front(c), keys)| {
      i := WithoutSource(Front(c), keys, k);
    } else {
      i := |c| - 1;
    }
  }

  lemma {:induction false} WithoutKeepsDistinct<K(!new), V>(c: seq<Entry<K, V>>, keys: set<K>)
    requires DistinctKeys(c)
    ensures DistinctKeys(Without(c, keys))
  {
    if c == [] {
    } else {
      WithoutKeepsDistinct(Front(c), keys);
      var r := Without(Front(c), keys);
      forall i | 0 <= i < |r| ensures r[i].key != Last(c).key {
        var j := WithoutSource(Front(c), keys, i);
        assert c[j].key != c[|c| - 1].key;
      }
    }
  }

  // ------------------------------------------------------------------------------------------
  // The eviction score
  // ------------------------------------------------------------------------------------------

  function MinReal(a: real, b: real): real {
    if a <= b then a else b
  }

  /** The boost an entry carries after h hits: five per cent a hit, capped at two. */
  function BoostAfter(h: nat): (b: real)
    ensures 1.0 <= b <= 2.0
  {
    if h == 0 then 1.0 else MinReal(BoostAfter(h - 1) * 1.05, 2.0)
  }

  function Pow105(h: nat): (p: real)
    ensures p >= 1.0
  {
    if h == 0 then 1.0 else Pow105(h - 1) * 1.05
  }

  lemma {:induction false} BoostIsCappedPower(h: nat)
    ensures BoostAfter(h) == MinReal(Pow105(h), 2.0)
  {
    if h > 0 {
      BoostIsCappedPower(h - 1);
    }
  }

  /** `confidence_boost * (1.0 / (hit_count + 1))`. */
  function Score<K, V>(e: Entry<K, V>): real {
    e.boost * (1.0 / ((e.hits + 1) as real))
  }

  lemma {:induction false} BoostStaysSaturated(h: nat)
    requires h >= 15
    ensures BoostAfter(h) == 2.0
  {
    if h == 15 {
    } else {
      BoostStaysSaturated(h - 1);
    }
  }

  lemma {:induction false} CrossDivide(c: real, m: real, b: real, n: real)
    requires m > 0.0 && n > 0.0 && c * n < b * m
    ensures c / m < b / n
  {
  }

  lemma {:induction false} UncappedStep(b: real, c: real, n: real)
    requires b > 0.0 && 0.0 < n <= 15.0 && c <= b * 1.05
    ensures c * n < b * (n + 1.0)
  {
    var p := n * b;
    assert (b * 1.05) * n == 1.05 * p;
    assert c * n <= 1.05 * p;
    assert 1.05 * p < p + b;
    assert p + b == b * (n + 1.0);
  }

  lemma {:induction false} BoostStep(h: nat)
    ensures BoostAfter(h + 1) <= BoostAfter(h) * 1.05
    ensures h >= 15 ==> BoostAfter(h) == 2.0 && BoostAfter(h + 1) == 2.0
  {
    if h >= 15 {
      BoostStaysSaturated(h);
      BoostStaysSaturated(h + 1);
    }
  }

  /** Given what one hit does to the boost, it lowers boost / (hits + 1), cross-multiplied. */
  lemma {:induction false} CrossFalls(b: real, c: real, h: nat, n: real)
    requires b > 0.0 && n == (h + 1) as real && c <= b * 1.05
    requires h >= 15 ==> b == 2.0 && c == 2.0
    ensures c * n < b * (n + 1.0)
  {
    if h >= 15 {
    } else {
      UncappedStep(b, c, n);
    }
  }

  lemma {:induction false} QuotientFalls(b: real, c: real, h: nat)
    requires b > 0.0 && c <= b * 1.05
    requires h >= 15 ==> b == 2.0 && c == 2.0
    ensures c / ((h + 2) as real) < b / ((h + 1) as real)
  {
    var n, m := (h + 1) as real, (h + 2) as real;
    CrossFalls(b, c, h, n);
    assert m == n + 1.0;
    CrossDivide(c, m, b, n);
  }

  /** One more hit always lowers the score, before and after the cap is reached. */
  lemma {:induction false} ScoreFallsWithAHit(h: nat)
    ensures BoostAfter(h + 1) / ((h + 2) as real) < BoostAfter(h) / ((h + 1) as real)
  {
    BoostStep(h);
    QuotientFalls(BoostAfter(h), BoostAfter(h + 1), h);
  }

  lemma {:induction false} ScoreFallsWithHits(g: nat, h: nat)
    requires g < h
    ensures BoostAfter(h) / ((h + 1) as real) < BoostAfter(g) / ((g + 1) as real)
  {
    ScoreFallsWithAHit(h - 1);
    if g < h - 1 {
      ScoreFallsWithHits(g, h - 1);
    }
  }

  /** So the lower score belongs to the entry with more hits, and equal hits give equal scores. */
  lemma {:induction false} ScoreOrder<K, V>(d: Entry<K, V>, e: Entry<K, V>)
    requires d.boost == BoostAfter(d.hits) && e.boost == BoostAfter(e.hits)
    ensures Score(d) < Score(e) <==> d.hits > e.hits
  {
    ScoreIsQuotient(d);
    ScoreIsQuotient(e);
    if d.hits > e.hits {
      ScoreFallsWithHits(e.hits, d.hits);
    } else if d.hits < e.hits {
      ScoreFallsWithHits(d.hits, e.hits);
    }
  }

  lemma {:induction false} ScoreIsQuotient<K, V>(e: Entry<K, V>)
    ensures Score(e) == e.boost / ((e.hits + 1) as real)
  {
  }

  // ------------------------------------------------------------------------------------------
  // What each operation does
  // ------------------------------------------------------------------------------------------

  predicate Expired<K, V>(e: Entry<K, V>, now: real) {
    now - e.stamp > e.ttl as real
  }

  function Live<K, V>(c: seq<Entry<K, V>>, now: real): (r: seq<Entry<K, V>>)
    ensures |r| <= |c|
  {
    if c == [] then []
    else Live(Front(c), now) + (if Expired(Last(c), now) then [] else [Last(c)])
  }

  /** The first entry, in insertion order, among those with the most hits. */
  function MostHit<K, V>(c: seq<Entry<K, V>>): (i: nat)
    requires c != []
    ensures i < |c|
    ensures forall j :: 0 <= j < |c| ==> c[j].hits <= c[i].hits
    ensures forall j :: 0 <= j < i ==> c[j].hits < c[i].hits
  {
    if |c| == 1 then 0
    else
      var i := MostHit(Front(c));
      assert forall j :: 0 <= j < |c| - 1 ==> Front(c)[j] == c[j];
      if Last(c).hits > c[i].hits then |c| - 1 else i
  }

  function EffectiveTtl(cfg: Config, ttl: Option<int>): int {
    if ttl.None? || ttl.value == 0 then cfg.defaultTtl else ttl.value
  }

  function DoGet<K(==), V>(s: State<K, V>, key: K, now: real): (State<K, V>, Option<V>) {
    var i := Find(s.cache, KeyOf, key);
    if i == |s.cache| then
      (s.(stats := s.stats.(misses := s.stats.misses + 1)), None)
    else if Expired(s.cache[i], now) then
      (State(s.cache[..i] + s.cache[i + 1..],
             s.stats.(expirations := s.stats.expirations + 1, misses := s.stats.misses + 1)), None)
    else
      var e := s.cache[i];
      (State(s.cache[i := e.(hits := e.hits + 1, boost := BoostAfter(e.hits + 1))],
             s.stats.(hits := s.stats.hits + 1)), Some(e.value))
  }

  /** Despite its name the eviction removes the entry with the most hits. */
  function DoEvict<K, V>(s: State<K, V>): State<K, V> {
    if s.cache == [] then s
    else
      var i := MostHit(s.cache);
      State(s.cache[..i] + s.cache[i + 1..], s.stats.(evictions := s.stats.evictions + 1))
  }

  function Room<K, V>(cfg: Config, s: State<K, V>): State<K, V> {
    if |s.cache| >= cfg.maxsize then DoEvict(s) else s
  }

  function DoSet<K(==), V>(cfg: Config, s: State<K, V>, key: K, value: V, now: real, ttl: Option<int>): State<K, V> {
    var r := Room(cfg, s);
    r.(cache := Put(r.cache, Entry(key, value, now, 0, 1.0, EffectiveTtl(cfg, ttl))))
  }

  function DoClear<K, V>(s: State<K, V>, now: real): State<K, V> {
    State(Live(s.cache, now), s.stats.(expirations := s.stats.expirations + |s.cache| - |Live(s.cache, now)|))
  }

  ghost predicate Inv<K(!new), V>(s: State<K, V>) {
    && DistinctKeys(s.cache)
    && forall i :: 0 <= i < |s.cache| ==> s.cache[i].boost == BoostAfter(s.cache[i].hits)
  }

  // ------------------------------------------------------------------------------------------
  // The class
  // ------------------------------------------------------------------------------------------

  function ExpiredKeys<K, V>(c: seq<Entry<K, V>>, now: real): seq<K> {
    if c == [] then []
    else ExpiredKeys(Front(c), now) + (if Expired(Last(c), now) then [Last(c).key] else [])
  }

  lemma {:induction false} ExpiredKeyPresent<K, V>(c: seq<Entry<K, V>>, now: real, k: nat) returns (i: nat)
    requires k < |ExpiredKeys(c, now)|
    ensures i < |c| && c[i].key == ExpiredKeys(c, now)[k] && Expired(c[i], now)
  {
    if k < |ExpiredKeys(Front(c), now)| {
      i := ExpiredKeyPresent(Front(c), now, k);
    } else {
      i := |c| - 1;
    }
  }

  function KeySet<K(==)>(keys: seq<K>): set<K> {
    set k | k in keys
  }

  /** Deleting the collected keys leaves the unexpired entries, one expiration each. */
  lemma {:induction false} DeletingExpired<K(!new), V>(c: seq<Entry<K, V>>, now: real)
    requires DistinctKeys(c)
    ensures Without(c, KeySet(ExpiredKeys(c, now))) == Live(c, now)
    ensures |ExpiredKeys(c, now)| == |c| - |Live(c, now)|
  {
    if c == [] {
    } else {
      var rest, e := Front(c), Last(c);
      var keys, all := ExpiredKeys(rest, now), ExpiredKeys(c, now);
      DeletingExpired(rest, now);
      forall k | 0 <= k < |keys| ensures keys[k] != e.key {
        var i := ExpiredKeyPresent(rest, now, k);
        assert c[i].key != c[|c| - 1].key;
      }
      if Expired(e, now) {
        assert KeySet(all) == KeySet(keys) + {e.key};
        WithoutTwice(rest, KeySet(keys), {e.key});
        var w := Without(rest, KeySet(keys));
        forall k | 0 <= k < |w| ensures w[k].key != e.key {
          var i := WithoutSource(rest, KeySet(keys), k);
          assert c[i].key != c[|c| - 1].key;
        }
        WithoutNone(w, {e.key});
      } else {
        assert all == keys;
      }
    }
  }

  lemma {:induction false} KeySetStep<K(!new)>(keys: seq<K>, k: nat)
    requires k < |keys|
    ensures KeySet(keys[..k + 1]) == KeySet(keys[..k]) + {keys[k]}
  {
    assert keys[..k + 1] == keys[..k] + [keys[k]];
  }

  /** The collected keys are keys of the cache, each once. */
  lemma {:induction false} ExpiredAreKeys<K(!new), V>(c: seq<Entry<K, V>>, now: real)
    requires DistinctKeys(c)
    ensures Distinct(ExpiredKeys(c, now))
    ensures forall k :: 0 <= k < |ExpiredKeys(c, now)| ==> Has(c, ExpiredKeys(c, now)[k])
  {
    forall k | 0 <= k < |ExpiredKeys(c, now)| ensures Has(c, ExpiredKeys(c, now)[k]) {
      var i := ExpiredKeyPresent(c, now, k);
    }
    if c == [] {
    } else {
      ExpiredAreKeys(Front(c), now);
      var keys := ExpiredKeys(Front(c), now);
      forall k | 0 <= k < |keys| ensures keys[k] != Last(c).key {
        var i := ExpiredKeyPresent(Front(c), now, k);
        assert c[i].key != c[|c| - 1].key;
      }
    }
  }

  /** One `del`: it drops the entry of the key, and the other keys stay. */
  lemma {:induction false} DeleteOne<K(!new), V>(c: seq<Entry<K, V>>, i: nat)
    requires DistinctKeys(c) && i < |c|
    ensures c[..i] + c[i + 1..] == Without(c, {c[i].key}) && DistinctKeys(c[..i] + c[i + 1..])
    ensures forall key :: key != c[i].key && Has(c, key) ==> Has(c[..i] + c[i + 1..], key)
  {
    WithoutOne(c, i);
    var d := c[..i] + c[i + 1..];
    forall key | key != c[i].key && Has(c, key) ensures Has(d, key) {
      var j := Find(c, KeyOf, key);
      assert d[if j < i then j else j - 1] == c[j];
    }
  }

  class TTLCache<K(!new, ==), V> {
    const cfg: Config
    var cache: seq<Entry<K, V>>
    var stats: Stats

    function View(): State<K, V>
      reads this
    {
      State(cache, stats)
    }

    constructor (cfg: Config)
      ensures this.cfg == cfg && View() == State([], Stats(0, 0, 0, 0)) && Inv(View())
    {
      this.cfg, cache, stats := cfg, [], Stats(0, 0, 0, 0);
    }

    method Get(key: K, now: real) returns (r: Option<V>)
      requires Inv(View())
      modifies this
      ensures (View(), r) == DoGet(old(View()), key, now) && Inv(View())
    {
      GetKeepsInv(View(), key, now);
      var i := Find(cache, KeyOf, key);
      if i == |cache| {
        stats := stats.(misses := stats.misses + 1);
        return None;
      }
      var entry := cache[i];
      if now - entry.stamp > entry.ttl as real {
        cache := cache[..i] + cache[i + 1..];
        stats := stats.(expirations := stats.expirations + 1);
        stats := stats.(misses := stats.misses + 1);
        return None;
      }
      entry := entry.(hits := entry.hits + 1);
      entry := entry.(boost := MinReal(entry.boost * 1.05, 2.0));
      cache := cache[i := entry];
      stats := stats.(hits := stats.hits + 1);
      return Some(entry.value);
    }

    method Set(key: K, value: V, now: real, ttl: Option<int>)
      requires Inv(View())
      modifies this
      ensures View() == DoSet(cfg, old(View()), key, value, now, ttl) && Inv(View())
    {
      SetKeepsInv(cfg, View(), key, value, now, ttl);
      if |cache| >= cfg.maxsize {
        EvictLru();
      }
      var effective := if ttl.Some? && ttl.value != 0 then ttl.value else cfg.defaultTtl;
      cache := Put(cache, Entry(key, value, now, 0, 1.0, effective));
    }

    /** `_evict_lru`: the loop keeps the first key with the lowest score, as min() does. */
    method EvictLru()
      requires Inv(View())
      modifies this
      ensures View() == DoEvict(old(View())) && Inv(View())
    {
      EvictKeepsInv(View());
      if cache == [] {
        return;
      }
      ghost var was := View();
      var lru, k := 0, 1;
      while k < |cache|
        invariant View() == was
        invariant lru < k <= |cache|
        invariant forall j :: 0 <= j < k ==> cache[j].hits <= cache[lru].hits
        invariant forall j :: 0 <= j < lru ==> cache[j].hits < cache[lru].hits
      {
        ScoreOrder(cache[k], cache[lru]);
        if Score(cache[k]) < Score(cache[lru]) {
          lru := k;
        }
        k := k + 1;
      }
      assert lru == MostHit(cache);
      cache := cache[..lru] + cache[lru + 1..];
      stats := stats.(evictions := stats.evictions + 1);
    }

    /** `clear_expired`: collect the expired keys, then delete them one by one. */
    method ClearExpired(now: real)
      requires Inv(View())
      modifies this
      ensures View() == DoClear(old(View()), now) && Inv(View())
    {
      ClearKeepsInv(View(), now);
      DeletingExpired(cache, now);
      ExpiredAreKeys(cache, now);
      var expiredKeys := ListExpired(now);
      DeleteKeys(expiredKeys);
    }

    method ListExpired(now: real) returns (expiredKeys: seq<K>)
      ensures expiredKeys == ExpiredKeys(cache, now)
    {
      expiredKeys := [];
      var k := 0;
      while k < |cache|
        invariant k <= |cache|
        invariant expiredKeys == ExpiredKeys(cache[..k], now)
      {
        PrefixStep(cache, k);
        if now - cache[k].stamp > cache[k].ttl as real {
          expiredKeys := expiredKeys + [cache[k].key];
        }
        k := k + 1;
      }
      assert cache[..k] == cache;
    }

    method DeleteKeys(expiredKeys: seq<K>)
      requires DistinctKeys(cache) && Distinct(expiredKeys)
      requires forall k :: 0 <= k < |expiredKeys| ==> Has(cache, expiredKeys[k])
      modifies this
      ensures cache == Without(old(cache), KeySet(expiredKeys))
      ensures stats == old(stats).(expirations := old(stats).expirations + |expiredKeys|)
    {
      ghost var was, done := cache, {};
      WithoutNone(cache, done);
      var k := 0;
      while k < |expiredKeys|
        invariant k <= |expiredKeys| && done == KeySet(expiredKeys[..k])
        invariant cache == Without(was, done) && DistinctKeys(cache)
        invariant forall j :: k <= j < |expiredKeys| ==> Has(cache, expiredKeys[j])
        invariant stats == old(stats).(expirations := old(stats).expirations + k)
      {
        var i := Find(cache, KeyOf, expiredKeys[k]);
        DeleteOne(cache, i);
        KeySetStep(expiredKeys, k);
        WithoutTwice(was, done, {expiredKeys[k]});
        done := done + {expiredKeys[k]};
        cache := cache[..i] + cache[i + 1..];
        stats := stats.(expirations := stats.expirations + 1);
        k := k + 1;
      }
      assert expiredKeys[..k] == expiredKeys;
    }
  }

  lemma {:induction false} GetKeepsInv<K(!new), V>(s: State<K, V>, key: K, now: real)
    requires Inv(s)
    ensures Inv(DoGet(s, key, now).0)
  {
  }

  lemma {:induction false} EvictKeepsInv<K(!new), V>(s: State<K, V>)
    requires Inv(s)
    ensures Inv(DoEvict(s))
  {
  }

  lemma {:induction false} SetKeepsInv<K(!new), V>(cfg: Config, s: State<K, V>, key: K, value: V, now: real,
                                         ttl: Option<int>)
    requires Inv(s)
    ensures Inv(Room(cfg, s)) && Inv(DoSet(cfg, s, key, value, now, ttl))
  {
    EvictKeepsInv(s);
  }

  lemma {:induction false} LiveSource<K, V>(c: seq<Entry<K, V>>, now: real, k: nat) returns (i: nat)
    requires k < |Live(c, now)|
    ensures i < |c| && c[i] == Live(c, now)[k] && !Expired(c[i], now)
  {
    if k < |Live(Front(c), now)| {
      i := LiveSource(Front(c), now, k);
    } else {
      i := |c| - 1;
    }
  }

  lemma {:induction false} ClearKeepsInv<K(!new), V>(s: State<K, V>, now: real)
    requires Inv(s)
    ensures Inv(DoClear(s, now))
  {
    DeletingExpired(s.cache, now);
    WithoutKeepsDistinct(s.cache, KeySet(ExpiredKeys(s.cache, now)));
    forall k | 0 <= k < |Live(s.cache, now)|
      ensures Live(s.cache, now)[k].boost == BoostAfter(Live(s.cache, now)[k].hits)
    {
      var i := LiveSource(s.cache, now, k);
    }
  }

  // ------------------------------------------------------------------------------------------
  // Every run
  // ------------------------------------------------------------------------------------------

  datatype Op<K, V> =
    | Get(key: K, now: real)
    | Set(key: K, value: V, now: real, ttl: Option<int>)
    | Evict
    | Clear(now: real)

  function Step<K(==), V>(cfg: Config, s: State<K, V>, op: Op<K, V>): State<K, V> {
    match op
    case Get(key, now) => DoGet(s, key, now).0
    case Set(key, value, now, ttl) => DoSet(cfg, s, key, value, now, ttl)
    case Evict => DoEvict(s)
    case Clear(now) => DoClear(s, now)
  }

  function Run<K(==), V>(cfg: Config, ops: seq<Op<K, V>>): State<K, V> {
    if ops == [] then State([], Stats(0, 0, 0, 0)) else Step(cfg, Run(cfg, Front(ops)), Last(ops))
  }

  lemma {:induction false} RunInv<K(!new), V>(cfg: Config, ops: seq<Op<K, V>>)
    ensures Inv(Run(cfg, ops))
  {
    if ops == [] {
    } else {
      RunInv(cfg, Front(ops));
      StepKeepsInv(cfg, Run(cfg, Front(ops)), Last(ops));
    }
  }

  lemma {:induction false} StepKeepsInv<K(!new), V>(cfg: Config, s: State<K, V>, op: Op<K, V>)
    requires Inv(s)
    ensures Inv(Step(cfg, s, op))
  {
    match op
    case Get(key, now) => GetKeepsInv(s, key, now);
    case Set(key, value, now, ttl) => SetKeepsInv(cfg, s, key, value, now, ttl);
    case Evict => EvictKeepsInv(s);
    case Clear(now) => ClearKeepsInv(s, now);
  }

  /** The size never exceeds maxsize, or one when maxsize is not positive: with no entry to evict,
      `set` still stores. */
  lemma {:induction false} SizeIsBounded<K, V>(cfg: Config, ops: seq<Op<K, V>>)
    ensures |Run(cfg, ops).cache| <= Max(cfg.maxsize, 1)
  {
    if ops == [] {
    } else {
      SizeIsBounded(cfg, Front(ops));
    }
  }

  /** The limit is kept by every run if and only if it is at least one: with no entry to evict, one set
      already exceeds a smaller one. */
  lemma {:induction false} MaxsizeIsKeptIff<K(!new), V(!new)>(cfg: Config, key: K, value: V)
    ensures (forall ops: seq<Op<K, V>> :: |Run(cfg, ops).cache| <= cfg.maxsize) <==> cfg.maxsize >= 1
  {
    if cfg.maxsize >= 1 {
      forall ops: seq<Op<K, V>> ensures |Run(cfg, ops).cache| <= cfg.maxsize {
        SizeIsBounded(cfg, ops);
      }
    } else {
      OneSetStores(cfg, key, value);
    }
  }

  lemma {:induction false} OneSetStores<K, V>(cfg: Config, key: K, value: V)
    ensures |Run(cfg, [Set(key, value, 0.0, None)]).cache| == 1
  {
    var ops := [Set(key, value, 0.0, None)];
    assert Front(ops) == [];
  }

  /** A write that is still the last one of its key. */
  datatype Written<V> = Written(value: V, at: real, ttl: int)

  function LastSet<K(==), V>(cfg: Config, ops: seq<Op<K, V>>, key: K): Option<Written<V>> {
    if ops == [] then None
    else if Last(ops).Set? && Last(ops).key == key then
      Some(Written(Last(ops).value, Last(ops).now, EffectiveTtl(cfg, Last(ops).ttl)))
    else LastSet(cfg, Front(ops), key)
  }

  /** Every live entry is what the last set of its key stored, with that set's clock and ttl. */
  ghost predicate Traced<K, V>(cfg: Config, ops: seq<Op<K, V>>, c: seq<Entry<K, V>>) {
    forall i :: 0 <= i < |c| ==> LastSet(cfg, ops, c[i].key) == Some(Written(c[i].value, c[i].stamp, c[i].ttl))
  }

  lemma {:induction false} RunIsTraced<K(!new), V>(cfg: Config, ops: seq<Op<K, V>>)
    ensures Traced(cfg, ops, Run(cfg, ops).cache)
  {
    if ops == [] {
    } else {
      RunInv(cfg, Front(ops));
      RunIsTraced(cfg, Front(ops));
      if Last(ops).Set? {
        SetIsTraced(cfg, ops);
      } else {
        OtherIsTraced(cfg, ops);
      }
    }
  }

  /** No other operation stores: what survives is an old entry with its value, clock and ttl. */
  lemma {:induction false} Survivor<K, V>(cfg: Config, s: State<K, V>, op: Op<K, V>, k: nat) returns (i: nat)
    requires !op.Set? && k < |Step(cfg, s, op).cache|
    ensures i < |s.cache|
    ensures var e, f := s.cache[i], Step(cfg, s, op).cache[k];
      e.key == f.key && e.value == f.value && e.stamp == f.stamp && e.ttl == f.ttl
  {
    var t := Step(cfg, s, op);
    if op.Clear? {
      i := LiveSource(s.cache, op.now, k);
    } else if |t.cache| == |s.cache| {
      i := k;
    } else {
      var cut := if op.Get? then Find(s.cache, KeyOf, op.key) else MostHit(s.cache);
      i := if k < cut then k else k + 1;
    }
  }

  lemma {:induction false} OtherIsTraced<K, V>(cfg: Config, ops: seq<Op<K, V>>)
    requires ops != [] && !Last(ops).Set?
    requires Traced(cfg, Front(ops), Run(cfg, Front(ops)).cache)
    ensures Traced(cfg, ops, Run(cfg, ops).cache)
  {
    var c := Run(cfg, ops).cache;
    forall k | 0 <= k < |c|
      ensures LastSet(cfg, ops, c[k].key) == Some(Written(c[k].value, c[k].stamp, c[k].ttl))
    {
      var i := Survivor(cfg, Run(cfg, Front(ops)), Last(ops), k);
    }
  }

  /** A stored entry replaces the one of its key; the others stay. */
  lemma {:induction false} PutSource<K(!new), V>(c: seq<Entry<K, V>>, e: Entry<K, V>, i: nat)
    requires DistinctKeys(c) && i < |Put(c, e)|
    ensures Put(c, e)[i] == e || (Put(c, e)[i] in c && Put(c, e)[i].key != e.key)
  {
  }

  lemma {:induction false} RoomSource<K(!new), V>(cfg: Config, s: State<K, V>)
    requires DistinctKeys(s.cache)
    ensures DistinctKeys(Room(cfg, s).cache) && forall e :: e in Room(cfg, s).cache ==> e in s.cache
  {
  }

  lemma {:induction false} SetIsTraced<K(!new), V>(cfg: Config, ops: seq<Op<K, V>>)
    requires ops != [] && Last(ops).Set?
    requires var s := Run(cfg, Front(ops)); Inv(s) && Traced(cfg, Front(ops), s.cache)
    ensures Traced(cfg, ops, Run(cfg, ops).cache)
  {
    var s, op := Run(cfg, Front(ops)), Last(ops);
    var e := Entry(op.key, op.value, op.now, 0, 1.0, EffectiveTtl(cfg, op.ttl));
    RoomSource(cfg, s);
    var c := Run(cfg, ops).cache;
    assert c == Put(Room(cfg, s).cache, e);
    forall i | 0 <= i < |c|
      ensures LastSet(cfg, ops, c[i].key) == Some(Written(c[i].value, c[i].stamp, c[i].ttl))
    {
      PutSource(Room(cfg, s).cache, e, i);
    }
  }

  /** Cache safety: after any run, a get returns nothing or exactly the value of the last set of
      that key, and that only while the value is no older than the ttl it was stored with. */
  lemma {:induction false} GetIsSafe<K(!new), V>(cfg: Config, ops: seq<Op<K, V>>, key: K, now: real)
    ensures var r := DoGet(Run(cfg, ops), key, now).1;
      r.Some? ==> && LastSet(cfg, ops, key).Some?
                  && r.value == LastSet(cfg, ops, key).value.value
                  && now - LastSet(cfg, ops, key).value.at <= LastSet(cfg, ops, key).value.ttl as real
  {
    RunIsTraced(cfg, ops);
  }

  /** A value just stored is found until its ttl has passed. */
  lemma {:induction false} SetThenGet<K, V>(cfg: Config, s: State<K, V>, key: K, value: V, at: real, ttl: Option<int>,
                                            now: real)
    ensures DoGet(DoSet(cfg, s, key, value, at, ttl), key, now).1 ==
            var seconds := if ttl == None || ttl == Some(0) then cfg.defaultTtl else ttl.value;
            if now - at > seconds as real then None else Some(value)
  {
    var r := Room(cfg, s).cache;
    var e := Entry(key, value, at, 0, 1.0, EffectiveTtl(cfg, ttl));
    PutIsFound(r, e);
  }

  lemma {:induction false} PutIsFound<K, V>(c: seq<Entry<K, V>>, e: Entry<K, V>)
    ensures Find(Put(c, e), KeyOf, e.key) < |Put(c, e)| && Put(c, e)[Find(Put(c, e), KeyOf, e.key)] == e
  {
    var p, i := Put(c, e), Find(c, KeyOf, e.key);
    assert p[i] == e;
    assert forall j :: 0 <= j < i ==> p[j] == c[j];
  }

  // Conservation

  function Gets<K, V>(ops: seq<Op<K, V>>): nat {
    if ops == [] then 0 else Gets(Front(ops)) + (if Last(ops).Get? then 1 else 0)
  }

  function Sets<K, V>(ops: seq<Op<K, V>>): nat {
    if ops == [] then 0 else Sets(Front(ops)) + (if Last(ops).Set? then 1 else 0)
  }

  /** The sets that replaced a live entry of their own key. */
  function Overwrites<K(==), V>(cfg: Config, ops: seq<Op<K, V>>): nat {
    if ops == [] then 0
    else Overwrites(cfg, Front(ops)) +
         (if Last(ops).Set? && Has(Room(cfg, Run(cfg, Front(ops))).cache, Last(ops).key) then 1 else 0)
  }

  /** The gets that returned a value. */
  function Found<K(==), V>(cfg: Config, ops: seq<Op<K, V>>): nat {
    if ops == [] then 0
    else Found(cfg, Front(ops)) +
         (if Last(ops).Get? && DoGet(Run(cfg, Front(ops)), Last(ops).key, Last(ops).now).1.Some? then 1 else 0)
  }

  /** An eviction takes place: one is asked for, or a set finds the cache full, and there is an entry. */
  predicate Evicts<K, V>(cfg: Config, s: State<K, V>, op: Op<K, V>) {
    s.cache != [] && (op.Evict? || (op.Set? && |s.cache| >= cfg.maxsize))
  }

  function Evictions<K(==), V>(cfg: Config, ops: seq<Op<K, V>>): nat {
    if ops == [] then 0
    else Evictions(cfg, Front(ops)) + (if Evicts(cfg, Run(cfg, Front(ops)), Last(ops)) then 1 else 0)
  }

  /** Over every run the hits are the gets that found a value and the misses all others, the evictions
      are counted, and each stored value is live, evicted, expired or overwritten. */
  lemma {:induction false} CountersConserve<K(!new), V>(cfg: Config, ops: seq<Op<K, V>>)
    ensures var s := Run(cfg, ops);
      && s.stats.hits == Found(cfg, ops) && s.stats.hits + s.stats.misses == Gets(ops)
      && s.stats.evictions == Evictions(cfg, ops)
      && Sets(ops) == |s.cache| + s.stats.evictions + s.stats.expirations + Overwrites(cfg, ops)
  {
    if ops == [] {
    } else {
      CountersConserve(cfg, Front(ops));
      StepConserves(cfg, Run(cfg, Front(ops)), Last(ops));
    }
  }

  lemma {:induction false} StepConserves<K, V>(cfg: Config, s: State<K, V>, op: Op<K, V>)
    ensures var t := Step(cfg, s, op);
      var stored := if op.Set? then 1 else 0;
      var overwrote := if op.Set? && Has(Room(cfg, s).cache, op.key) then 1 else 0;
      && t.stats.hits == s.stats.hits + (if op.Get? && DoGet(s, op.key, op.now).1.Some? then 1 else 0)
      && t.stats.hits + t.stats.misses == s.stats.hits + s.stats.misses + (if op.Get? then 1 else 0)
      && t.stats.evictions == s.stats.evictions + (if Evicts(cfg, s, op) then 1 else 0)
      && |t.cache| + t.stats.evictions + t.stats.expirations + overwrote ==
         |s.cache| + s.stats.evictions + s.stats.expirations + stored
  {
    match op
    case Get(key, now) =>
    case Set(key, value, now, ttl) =>
    case Evict =>
    case Clear(now) =>
  }

  // What the eviction decides

  /** In every run the entry with the lowest score, the one `_evict_lru` picks, is the one with the
      most hits, the oldest key among equals: the most used entry goes first. */
  lemma {:induction false} EvictsTheMostUsed<K(!new), V>(cfg: Config, ops: seq<Op<K, V>>, victim: nat)
    requires victim < |Run(cfg, ops).cache|
    requires var c := Run(cfg, ops).cache;
      && (forall j :: 0 <= j < |c| ==> Score(c[victim]) <= Score(c[j]))
      && (forall j :: 0 <= j < victim ==> Score(c[victim]) < Score(c[j]))
    ensures var s := Run(cfg, ops);
      && victim == MostHit(s.cache)
      && DoEvict(s).cache == s.cache[..victim] + s.cache[victim + 1..]
      && forall j :: 0 <= j < |s.cache| ==> s.cache[j].hits <= s.cache[victim].hits
  {
    RunInv(cfg, ops);
    var c := Run(cfg, ops).cache;
    forall j | 0 <= j < |c|
      ensures c[j].hits <= c[victim].hits && (j < victim ==> c[j].hits < c[victim].hits)
    {
      ScoreOrder(c[victim], c[j]);
      ScoreOrder(c[j], c[victim]);
    }
  }

  // What the method's name and comment say

  lemma {:induction false} BoostRises(g: nat, h: nat)
    requires g <= h
    ensures BoostAfter(g) <= BoostAfter(h)
  {
    if g < h {
      BoostRises(g, h - 1);
    }
  }

  /** In every run the victim carries the lowest boost, as the method's comment has it, if and only if all
      entries carry the same. */
  lemma {:induction false} EvictsLowestBoostIff<K(!new), V>(cfg: Config, ops: seq<Op<K, V>>)
    requires Run(cfg, ops).cache != []
    ensures var c := Run(cfg, ops).cache;
      var victim := c[MostHit(c)];
      (forall j :: 0 <= j < |c| ==> victim.boost <= c[j].boost) <==>
          forall j :: 0 <= j < |c| ==> c[j].boost == victim.boost
  {
    RunInv(cfg, ops);
    var c := Run(cfg, ops).cache;
    forall j | 0 <= j < |c| ensures c[j].boost <= c[MostHit(c)].boost {
      BoostRises(c[j].hits, c[MostHit(c)].hits);
    }
  }

  /** A use of a key: it is set, or a get finds it. */
  predicate Uses<K(==), V>(s: State<K, V>, op: Op<K, V>, key: K) {
    (op.Set? && op.key == key) || (op.Get? && op.key == key && DoGet(s, key, op.now).1.Some?)
  }

  /** How many operations the run had seen when the key was last used, 0 if it never was. */
  function LastUse<K(==), V>(cfg: Config, ops: seq<Op<K, V>>, key: K): (n: nat)
    ensures n <= |ops|
  {
    if ops == [] then 0
    else if Uses(Run(cfg, Front(ops)), Last(ops), key) then |ops|
    else LastUse(cfg, Front(ops), key)
  }

  /** The gets that found the key since it was last set. */
  function HitsSinceSet<K(==), V>(cfg: Config, ops: seq<Op<K, V>>, key: K): nat {
    if ops == [] then 0
    else if Last(ops).Set? && Last(ops).key == key then 0
    else HitsSinceSet(cfg, Front(ops), key) + (if Uses(Run(cfg, Front(ops)), Last(ops), key) then 1 else 0)
  }

  ghost predicate UsesCounted<K, V>(cfg: Config, ops: seq<Op<K, V>>, c: seq<Entry<K, V>>) {
    forall i :: 0 <= i < |c| ==> LastUse(cfg, ops, c[i].key) > 0 && c[i].hits == HitsSinceSet(cfg, ops, c[i].key)
  }

  lemma {:induction false} SetCountsUses<K(!new), V>(cfg: Config, ops: seq<Op<K, V>>)
    requires ops != [] && Last(ops).Set?
    requires var s := Run(cfg, Front(ops)); Inv(s) && UsesCounted(cfg, Front(ops), s.cache)
    ensures UsesCounted(cfg, ops, Run(cfg, ops).cache)
  {
    var s, op := Run(cfg, Front(ops)), Last(ops);
    var e := Entry(op.key, op.value, op.now, 0, 1.0, EffectiveTtl(cfg, op.ttl));
    RoomSource(cfg, s);
    var c := Run(cfg, ops).cache;
    assert c == Put(Room(cfg, s).cache, e);
    forall i | 0 <= i < |c|
      ensures LastUse(cfg, ops, c[i].key) > 0 && c[i].hits == HitsSinceSet(cfg, ops, c[i].key)
    {
      PutSource(Room(cfg, s).cache, e, i);
    }
  }

  /** A get that finds its key counts a hit on that entry; the entries that stay keep theirs. */
  lemma {:induction false} GetHits<K(!new), V>(s: State<K, V>, key: K, now: real, k: nat) returns (i: nat)
    requires DistinctKeys(s.cache) && k < |DoGet(s, key, now).0.cache|
    ensures i < |s.cache|
    ensures var e, f := s.cache[i], DoGet(s, key, now).0.cache[k];
      e.key == f.key && f.hits == e.hits + if e.key == key && DoGet(s, key, now).1.Some? then 1 else 0
  {
    var at := Find(s.cache, KeyOf, key);
    i := if |DoGet(s, key, now).0.cache| < |s.cache| && k >= at then k + 1 else k;
  }

  lemma {:induction false} SurvivorHits<K(!new), V>(cfg: Config, s: State<K, V>, op: Op<K, V>, k: nat) returns (i: nat)
    requires DistinctKeys(s.cache) && !op.Set? && k < |Step(cfg, s, op).cache|
    ensures i < |s.cache|
    ensures var e, f := s.cache[i], Step(cfg, s, op).cache[k];
      e.key == f.key && f.hits == e.hits + if Uses(s, op, e.key) then 1 else 0
  {
    match op
    case Get(key, now) => i := GetHits(s, key, now, k);
    case Clear(now) => i := LiveSource(s.cache, now, k);
    case Evict => i := if k < MostHit(s.cache) then k else k + 1;
  }

  /** In every run each live entry has been used, and its hits are the gets that found it since it was
      last set. */
  lemma {:induction false} HitsAreUses<K(!new), V>(cfg: Config, ops: seq<Op<K, V>>)
    ensures UsesCounted(cfg, ops, Run(cfg, ops).cache)
  {
    if ops == [] {
    } else {
      RunInv(cfg, Front(ops));
      HitsAreUses(cfg, Front(ops));
      if Last(ops).Set? {
        SetCountsUses(cfg, ops);
      } else {
        var c := Run(cfg, ops).cache;
        forall k | 0 <= k < |c|
          ensures LastUse(cfg, ops, c[k].key) > 0 && c[k].hits == HitsSinceSet(cfg, ops, c[k].key)
        {
          var i := SurvivorHits(cfg, Run(cfg, Front(ops)), Last(ops), k);
        }
      }
    }
  }

  lemma {:induction false} UsesDiffer<K, V>(cfg: Config, ops: seq<Op<K, V>>, a: K, b: K)
    requires a != b && LastUse(cfg, ops, a) > 0
    ensures LastUse(cfg, ops, a) != LastUse(cfg, ops, b)
  {
    if ops == [] {
    } else if !Uses(Run(cfg, Front(ops)), Last(ops), a) && !Uses(Run(cfg, Front(ops)), Last(ops), b) {
      UsesDiffer(cfg, Front(ops), a, b);
    }
  }

  function LastUses<K(==), V>(cfg: Config, ops: seq<Op<K, V>>, c: seq<Entry<K, V>>): (r: seq<nat>)
    ensures |r| == |c| && forall i :: 0 <= i < |c| ==> r[i] == LastUse(cfg, ops, c[i].key)
  {
    seq(|c|, i requires 0 <= i < |c| => LastUse(cfg, ops, c[i].key))
  }

  /** Entry u was last used before every other. */
  ghost predicate LeastRecentlyUsed<K, V>(cfg: Config, ops: seq<Op<K, V>>, u: nat) {
    var uses := LastUses(cfg, ops, Run(cfg, ops).cache);
    u < |uses| && forall j :: 0 <= j < |uses| && j != u ==> uses[u] < uses[j]
  }

  lemma {:induction false} UsesAreDistinct<K(!new), V>(cfg: Config, ops: seq<Op<K, V>>, c: seq<Entry<K, V>>)
    requires DistinctKeys(c) && UsesCounted(cfg, ops, c)
    ensures Distinct(LastUses(cfg, ops, c))
  {
    forall i, j | 0 <= i < j < |c| ensures LastUse(cfg, ops, c[i].key) != LastUse(cfg, ops, c[j].key) {
      UsesDiffer(cfg, ops, c[i].key, c[j].key);
    }
  }

  lemma {:induction false} LeastOf(uses: seq<nat>) returns (u: nat)
    requires uses != [] && Distinct(uses)
    ensures u < |uses| && forall j :: 0 <= j < |uses| && j != u ==> uses[u] < uses[j]
  {
    u := 0;
    var n := 1;
    while n < |uses|
      invariant u < n <= |uses|
      invariant forall j :: 0 <= j < n && j != u ==> uses[u] < uses[j]
    {
      if uses[n] < uses[u] {
        u := n;
      }
      n := n + 1;
    }
  }

  lemma {:induction false} SomeLeastRecentlyUsed<K(!new), V>(cfg: Config, ops: seq<Op<K, V>>) returns (u: nat)
    requires Run(cfg, ops).cache != []
    ensures LeastRecentlyUsed(cfg, ops, u)
  {
    RunInv(cfg, ops);
    HitsAreUses(cfg, ops);
    UsesAreDistinct(cfg, ops, Run(cfg, ops).cache);
    u := LeastOf(LastUses(cfg, ops, Run(cfg, ops).cache));
  }

  lemma {:induction false} MostHitIff<K, V>(c: seq<Entry<K, V>>, u: nat)
    requires u < |c|
    ensures MostHit(c) == u <==>
            (forall j :: 0 <= j < u ==> c[j].hits < c[u].hits) && (forall j :: u < j < |c| ==> c[j].hits <= c[u].hits)
  {
  }

  lemma {:induction false} WithoutLacks<K, V>(c: seq<Entry<K, V>>, key: K)
    ensures !Has(Without(c, {key}), key)
  {
    forall k | 0 <= k < |Without(c, {key})| ensures Without(c, {key})[k].key != key {
      var i := WithoutSource(c, {key}, k);
    }
  }

  /** Which entry is gone tells which was removed. */
  lemma {:induction false} CutsDiffer<K(!new), V>(c: seq<Entry<K, V>>, i: nat, u: nat)
    requires DistinctKeys(c) && i < |c| && u < |c|
    ensures c[..i] + c[i + 1..] == Without(c, {c[u].key}) <==> i == u
  {
    DeleteOne(c, i);
    WithoutLacks(c, c[u].key);
    assert Has(c, c[u].key);
  }

  lemma {:induction false} EvictsIff<K(!new), V>(s: State<K, V>, u: nat)
    requires DistinctKeys(s.cache) && u < |s.cache|
    ensures DoEvict(s).cache == Without(s.cache, {s.cache[u].key}) <==> MostHit(s.cache) == u
  {
    CutsDiffer(s.cache, MostHit(s.cache), u);
  }

  /** In every run there is a least recently used entry, and it is the one an eviction removes, as the
      method's name says, if and only if every entry before it in the dict was found by fewer gets since
      it was set, and none after it by more. */
  lemma {:induction false} EvictsLeastRecentIff<K(!new), V>(cfg: Config, ops: seq<Op<K, V>>) returns (u: nat)
    requires Run(cfg, ops).cache != []
    ensures LeastRecentlyUsed(cfg, ops, u)
    ensures var c := Run(cfg, ops).cache;
      DoEvict(Run(cfg, ops)).cache == Without(c, {c[u].key}) <==>
      && (forall j :: 0 <= j < u ==> HitsSinceSet(cfg, ops, c[j].key) < HitsSinceSet(cfg, ops, c[u].key))
      && (forall j :: u < j < |c| ==> HitsSinceSet(cfg, ops, c[j].key) <= HitsSinceSet(cfg, ops, c[u].key))
  {
    var s := Run(cfg, ops);
    u := SomeLeastRecentlyUsed(cfg, ops);
    RunInv(cfg, ops);
    HitsAreUses(cfg, ops);
    EvictsIff(s, u);
    MostHitIff(s.cache, u);
  }

  /** The method's name and comment both fail in the smallest case: of two keys, the one just found again is
      evicted, with the higher boost, and the one untouched since stays. */
  lemma {:induction false} EvictsTheRecentlyUsed(cfg: Config)
    requires cfg.maxsize >= 3 && cfg.defaultTtl > 0
    ensures var ops := [Set("a", 1, 0.0, None), Set("b", 2, 0.0, None), Get("b", 0.0)];
      var c := Run(cfg, ops).cache;
      && |c| == 2 && c[0].key == "a" && c[1].key == "b" && c[0].boost < c[1].boost
      && LeastRecentlyUsed(cfg, ops, 0) && DoEvict(Run(cfg, ops)).cache == [c[0]]
  {
    var a, b := Entry("a", 1, 0.0, 0, 1.0, cfg.defaultTtl), Entry("b", 2, 0.0, 0, 1.0, cfg.defaultTtl);
    var ops := [Set("a", 1, 0.0, None), Set("b", 2, 0.0, None), Get("b", 0.0)];
    var two := [Set("a", 1, 0.0, None), Set("b", 2, 0.0, None)];
    assert Front(ops) == two && Front(two) == [Set("a", 1, 0.0, None)] && Front(Front(two)) == [];
    assert Run(cfg, Front(two)).cache == [a];
    assert "a"[0] != "b"[0];
    assert Run(cfg, two).cache == [a, b];
    assert Run(cfg, ops).cache == [a, b.(hits := 1, boost := 1.05)];
    assert LastUse(cfg, Front(two), "a") == 1 && LastUse(cfg, two, "a") == 1;
    assert LastUse(cfg, ops, "a") == 1 && LastUse(cfg, ops, "b") == 3;
  }

  /** A boost is always min(1.05 ^ hits, 2). */
  lemma {:induction false} BoostOfEntry<K(!new), V>(cfg: Config, ops: seq<Op<K, V>>, i: nat)
    requires i < |Run(cfg, ops).cache|
    ensures var e := Run(cfg, ops).cache[i]; e.boost == MinReal(Pow105(e.hits), 2.0)
  {
    RunInv(cfg, ops);
    BoostIsCappedPower(Run(cfg, ops).cache[i].hits);
  }
}
