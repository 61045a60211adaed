/** The two users of the cache (scripts/cached_intelligence.py): the cached_query wrapper and the
    memoised keyword extraction. A cache key is the call it stands for: the md5 of the arguments is
    taken to be injective. */
module QueryCache {
  import opened Common
  import opened TtlCache

  datatype Call = Call(func: string, args: string)

  /** One wrapped call: when it asks the cache, what the function returns and how many milliseconds
      it takes if it has to run, and the clock when its result is stored. */
  datatype Query<V> = Query(call: Call, askedAt: real, result: Option<V>, millis: real, storedAt: real)

  function AdaptiveTtl(millis: real): (ttl: int)
    ensures 300 <= ttl <= 900
  {
    if millis < 100.0 then 900 else if millis < 200.0 then 600 else 300
  }

  predicate Cacheable<V>(q: Query<V>) {
    q.result.Some? && q.millis < 500.0
  }

  /** The cache operations one wrapped call performs. */
  function QueryOps<V>(s: State<Call, V>, q: Query<V>): seq<Op<Call, V>> {
    var get := Get(q.call, q.askedAt);
    if DoGet(s, q.call, q.askedAt).1.None? && Cacheable(q) then
      [get, Set(q.call, q.result.value, q.storedAt, Some(AdaptiveTtl(q.millis)))]
    else [get]
  }

  /** A hit is returned as stored; a miss returns what the function computes now. */
  function Answer<V>(s: State<Call, V>, q: Query<V>): Option<V> {
    var hit := DoGet(s, q.call, q.askedAt).1;
    if hit.Some? then hit else q.result
  }

  datatype Event<V> = Asked(query: Query<V>) | Swept(now: real) | Evicted

  function History<V>(cfg: Config, events: seq<Event<V>>): seq<Op<Call, V>> {
    if events == [] then []
    else
      var before := History(cfg, Front(events));
      before + match Last(events)
               case Asked(q) => QueryOps(Run(cfg, before), q)
               case Swept(now) => [Clear(now)]
               case Evicted => [Evict]
  }

  lemma {:induction false} RunAppend<K, V>(cfg: Config, ops: seq<Op<K, V>>, op: Op<K, V>)
    ensures Run(cfg, ops + [op]) == Step(cfg, Run(cfg, ops), op)
  {
  }

  class CachedIntelligence<V> {
    const cache: TTLCache<Call, V>

    constructor (cfg: Config)
      ensures fresh(cache) && cache.cfg == cfg && cache.View() == State([], Stats(0, 0, 0, 0)) && Inv(cache.View())
    {
      cache := new TTLCache(cfg);
    }

    /** The wrapper of `cached_query`. The function's result is looked at only on a miss. */
    method CachedQuery(q: Query<V>) returns (r: Option<V>)
      requires Inv(cache.View())
      modifies cache
      ensures r == Answer(old(cache.View()), q)
      ensures cache.View() == (var s := old(cache.View());
                               var got := DoGet(s, q.call, q.askedAt);
                               if got.1.None? && Cacheable(q)
                               then DoSet(cache.cfg, got.0, q.call, q.result.value, q.storedAt,
                                   Some(AdaptiveTtl(q.millis)))
                               else got.0)
      ensures Inv(cache.View())
    {
      r := cache.Get(q.call, q.askedAt);
      if r.Some? {
        return;
      }
      r := q.result;
      if r.Some? && q.millis < 500.0 {
        var ttl := if q.millis < 100.0 then 900 else if q.millis < 200.0 then 600 else 300;
        cache.Set(q.call, r.value, q.storedAt, Some(ttl));
      }
    }
  }

  /** A key just missed is missed again, at any later time. */
  lemma {:induction false} MissedAgain<K(!new), V>(s: State<K, V>, key: K, at: real, later: real)
    requires Inv(s) && DoGet(s, key, at).1.None?
    ensures DoGet(DoGet(s, key, at).0, key, later).1.None?
  {
    var i := Find(s.cache, KeyOf, key);
    var c := DoGet(s, key, at).0.cache;
    if i < |s.cache| {
      assert c == s.cache[..i] + s.cache[i + 1..];
      forall j | 0 <= j < |c| ensures c[j].key != key {
        assert c[j] == if j < i then s.cache[j] else s.cache[j + 1];
      }
    }
  }

  /** A result is served for 900 seconds if it took less than 100 milliseconds, for 600 if less than 200,
      for 300 if less than 500, and a slower or missing one not at all. */
  ghost predicate Serves<V>(q: Query<V>, now: real) {
    var age := now - q.storedAt;
    q.result.Some? && q.millis < 500.0 &&
    if q.millis < 100.0 then age <= 900.0 else if q.millis < 200.0 then age <= 600.0 else age <= 300.0
  }

  /** Asked again right after a miss, the call is answered with the stored result exactly as long as it
      serves, and is computed anew otherwise. */
  lemma {:induction false} AskedAgain<V(!new)>(cfg: Config, events: seq<Event<V>>, q: Query<V>, again: Query<V>)
    requires again.call == q.call && DoGet(Run(cfg, History(cfg, events)), q.call, q.askedAt).1.None?
    ensures Answer(Run(cfg, History(cfg, events + [Asked(q)])), again) ==
            if Serves(q, again.askedAt) then q.result else again.result
  {
    var s := Run(cfg, History(cfg, events));
    RunInv(cfg, History(cfg, events));
    HistoryStep(cfg, events, q);
    MissedAgain(s, q.call, q.askedAt, again.askedAt);
    if Cacheable(q) {
      SetThenGet(cfg, DoGet(s, q.call, q.askedAt).0, q.call, q.result.value, q.storedAt, Some(AdaptiveTtl(q.millis)),
        again.askedAt);
    }
  }

  /** The last set of a key in a history was made by a wrapped call of that key. */
  lemma {:induction false} SetSource<V>(cfg: Config, events: seq<Event<V>>, key: Call) returns (i: nat)
    requires LastSet(cfg, History(cfg, events), key).Some?
    ensures i < |events| && events[i].Asked?
    ensures var q, w := events[i].query, LastSet(cfg, History(cfg, events), key).value;
      && q.call == key && Cacheable(q) && q.result == Some(w.value)
      && w.at == q.storedAt && w.ttl == AdaptiveTtl(q.millis)
  {
    var before := History(cfg, Front(events));
    var ops := History(cfg, events);
    var added := ops[|before|..];
    assert ops == before + added && Last(ops) == Last(added);
    if |added| == 2 && added[1].key == key {
      i := |events| - 1;
    } else {
      if |added| == 2 {
        assert Front(Front(ops)) == before;
      } else {
        assert Front(ops) == before;
      }
      i := SetSource(cfg, Front(events), key);
    }
  }

  /** Whatever came before, a value the wrapper returns was computed just now, or was computed by an
      earlier call of the same function on the same arguments, whose result still serves. */
  lemma {:induction false} AnswerHasSource<V(!new)>(cfg: Config, events: seq<Event<V>>, q: Query<V>)
    ensures var r := Answer(Run(cfg, History(cfg, events)), q);
      r.Some? ==>
        || r == q.result
        || exists i :: && 0 <= i < |events| && events[i].Asked? && events[i].query.call == q.call
                       && events[i].query.result == r && Serves(events[i].query, q.askedAt)
  {
    var ops := History(cfg, events);
    GetIsSafe(cfg, ops, q.call, q.askedAt);
    if DoGet(Run(cfg, ops), q.call, q.askedAt).1.Some? {
      var i := SetSource(cfg, events, q.call);
    }
  }

  /** The history is what the wrapper does: running it is running the calls one after the other. */
  lemma {:induction false} HistoryStep<V>(cfg: Config, events: seq<Event<V>>, q: Query<V>)
    ensures var s := Run(cfg, History(cfg, events));
      var got := DoGet(s, q.call, q.askedAt);
      Run(cfg, History(cfg, events + [Asked(q)])) ==
        if got.1.None? && Cacheable(q)
        then DoSet(cfg, got.0, q.call, q.result.value, q.storedAt, Some(AdaptiveTtl(q.millis))) else got.0
  {
    var before := History(cfg, events);
    assert Front(events + [Asked(q)]) == events;
    RunAppend(cfg, before, Get(q.call, q.askedAt));
    if Cacheable(q) {
      var store := Set(q.call, q.result.value, q.storedAt, Some(AdaptiveTtl(q.millis)));
      RunAppend(cfg, before + [Get(q.call, q.askedAt)], store);
      assert before + [Get(q.call, q.askedAt)] + [store] == before + [Get(q.call, q.askedAt), store];
    }
  }

  // ------------------------------------------------------------------------------------------
  // Keyword memoisation
  // ------------------------------------------------------------------------------------------

  const STOPWORDS: set<string> := {"the", "a", "an", "is", "are", "was", "were", "be", "been", "being"}

  function Kept(words: seq<string>): seq<string> {
    if words == [] then []
    else Kept(Front(words)) + (if Last(words) !in STOPWORDS && |Last(words)| > 2 then [Last(words)] else [])
  }

  /** The uncached computation on the words the tokenizer finds. */
  function Keywords(words: seq<string>): seq<string> {
    if |Kept(words)| <= 20 then Kept(words) else Kept(words)[..20]
  }

  ghost function IsKeyword(): string -> bool {
    (w: string) => w !in STOPWORDS && |w| > 2
  }

  /** The first twenty words of more than two letters that are no stop words, in order and as often as
      they occur. */
  ghost predicate FirstTwenty(keywords: seq<string>, words: seq<string>) {
    var all := Filter(words, IsKeyword(), Itself);
    if |all| <= 20 then keywords == all else keywords == all[..20]
  }

  lemma {:induction false} KeptIs(words: seq<string>)
    ensures Kept(words) == Filter(words, IsKeyword(), Itself)
  {
    if words == [] {
    } else {
      KeptIs(Front(words));
    }
  }

  lemma {:induction false} KeywordsAre(words: seq<string>)
    ensures FirstTwenty(Keywords(words), words)
  {
    KeptIs(words);
  }

  /** Every entry holds the uncached keywords of its text. */
  ghost predicate Memo(c: seq<Entry<string, seq<string>>>, tokens: string -> seq<string>) {
    forall i :: 0 <= i < |c| ==> c[i].value == Keywords(tokens(c[i].key))
  }

  class KeywordExtractor {
    const cache: TTLCache<string, seq<string>>
    const tokens: string -> seq<string>

    constructor (cfg: Config, tokens: string -> seq<string>)
      ensures fresh(cache) && cache.cfg == cfg && this.tokens == tokens
      ensures cache.View() == State([], Stats(0, 0, 0, 0)) && Inv(cache.View())
    {
      this.tokens := tokens;
      cache := new TTLCache(cfg);
    }

    /** `extract_keywords`: an empty cached list is recomputed, since it is falsy. */
    method ExtractKeywords(text: string, askedAt: real, storedAt: real) returns (keywords: seq<string>)
      requires Inv(cache.View()) && Memo(cache.cache, tokens)
      modifies cache
      ensures keywords == Keywords(tokens(text)) && FirstTwenty(keywords, tokens(text))
      ensures cache.View() == Extracted(cache.cfg, old(cache.View()), text, askedAt, keywords, storedAt)
      ensures Inv(cache.View()) && Memo(cache.cache, tokens)
    {
      ghost var s := cache.View();
      KeywordsAre(tokens(text));
      MemoSurvives(cache.cfg, s, Get(text, askedAt), tokens);
      var cached := cache.Get(text, askedAt);
      if cached.Some? && cached.value != [] {
        return cached.value;
      }
      keywords := FindKeywords(text);
      MemoSurvives(cache.cfg, cache.View(), Set(text, keywords, storedAt, None), tokens);
      cache.Set(text, keywords, storedAt, None);
    }

    method FindKeywords(text: string) returns (keywords: seq<string>)
      ensures keywords == Keywords(tokens(text)) && FirstTwenty(keywords, tokens(text))
    {
      KeywordsAre(tokens(text));
      var words := tokens(text);
      keywords := [];
      var k := 0;
      while k < |words|
        invariant k <= |words|
        invariant keywords == Kept(words[..k])
      {
        PrefixStep(words, k);
        if words[k] !in STOPWORDS && |words[k]| > 2 {
          keywords := keywords + [words[k]];
        }
        k := k + 1;
      }
      assert words[..k] == words;
      keywords := if |keywords| <= 20 then keywords else keywords[..20];
    }
  }

  function Extracted(cfg: Config, s: State<string, seq<string>>, text: string, askedAt: real,
                     keywords: seq<string>, storedAt: real): State<string, seq<string>> {
    var got := DoGet(s, text, askedAt);
    if got.1.Some? && got.1.value != [] then got.0 else DoSet(cfg, got.0, text, keywords, storedAt, None)
  }

  /** No cache operation spoils the memo, as long as what is set is what would be computed. */
  lemma {:induction false} MemoSurvives(cfg: Config, s: State<string, seq<string>>, op: Op<string, seq<string>>,
                                        tokens: string -> seq<string>)
    requires Inv(s) && Memo(s.cache, tokens)
    requires op.Set? ==> op.value == Keywords(tokens(op.key))
    ensures Memo(Step(cfg, s, op).cache, tokens)
  {
    var c := Step(cfg, s, op).cache;
    forall k | 0 <= k < |c| ensures c[k].value == Keywords(tokens(c[k].key)) {
      if op.Set? {
        RoomSource(cfg, s);
        PutSource(Room(cfg, s).cache, Entry(op.key, op.value, op.now, 0, 1.0, EffectiveTtl(cfg, op.ttl)), k);
      } else {
        var i := Survivor(cfg, s, op, k);
      }
    }
  }

  datatype KeywordEvent =
    | Extracting(text: string, askedAt: real, storedAt: real)
    | Maintaining(op: Op<string, seq<string>>)

  /** What extract_keywords answers from a cache state. */
  function Extract(s: State<string, seq<string>>, text: string, askedAt: real,
                   tokens: string -> seq<string>): seq<string> {
    var hit := DoGet(s, text, askedAt).1;
    if hit.Some? && hit.value != [] then hit.value else Keywords(tokens(text))
  }

  function KeywordRun(cfg: Config, events: seq<KeywordEvent>, tokens: string -> seq<string>): State<string,
                      seq<string>> {
    if events == [] then State([], Stats(0, 0, 0, 0))
    else
      var s := KeywordRun(cfg, Front(events), tokens);
      match Last(events)
      case Extracting(text, askedAt, storedAt) =>
        Extracted(cfg, s, text, askedAt, Extract(s, text, askedAt, tokens), storedAt)
      case Maintaining(op) => if op.Set? then s else Step(cfg, s, op)
  }

  lemma {:induction false} KeywordRunIsMemo(cfg: Config, events: seq<KeywordEvent>, tokens: string -> seq<string>)
    ensures Inv(KeywordRun(cfg, events, tokens)) && Memo(KeywordRun(cfg, events, tokens).cache, tokens)
  {
    if events == [] {
    } else {
      KeywordRunIsMemo(cfg, Front(events), tokens);
      var s := KeywordRun(cfg, Front(events), tokens);
      match Last(events)
      case Extracting(text, askedAt, storedAt) =>
        MemoSurvives(cfg, s, Get(text, askedAt), tokens);
        StepKeepsInv(cfg, s, Get(text, askedAt));
        StepKeepsInv(cfg, DoGet(s, text, askedAt).0, Set(text, Keywords(tokens(text)), storedAt, None));
        MemoSurvives(cfg, DoGet(s, text, askedAt).0, Set(text, Keywords(tokens(text)), storedAt, None), tokens);
      case Maintaining(op) =>
        if !op.Set? {
          MemoSurvives(cfg, s, op, tokens);
          StepKeepsInv(cfg, s, op);
        }
    }
  }

  /** In every run, whatever was evicted or expired and however the clock moved, extract_keywords
      answers what the uncached computation answers. */
  lemma {:induction false} MemoisationIsTransparent(cfg: Config, events: seq<KeywordEvent>,
                                                    tokens: string -> seq<string>, text: string, askedAt: real)
    ensures Extract(KeywordRun(cfg, events, tokens), text, askedAt, tokens) == Keywords(tokens(text))
    ensures FirstTwenty(Keywords(tokens(text)), tokens(text))
  {
    KeywordRunIsMemo(cfg, events, tokens);
    KeywordsAre(tokens(text));
  }
}
