/**
 The idempotency plugin: a response cache with a time to live and a set of keys in flight,
 driven by three hooks. `Plugin` performs the hooks step by step; `Memory` and the functions
 on it say what each hook does.
 */
module Idempotency {
  import opened Outcomes
  import Text

  datatype CachedResponse = CachedResponse(status: int, payload: string, contentType: Option<string>, expiresAt: int)

  datatype Memory = Memory(cache: map<string, CachedResponse>, inFlight: set<string>)

  const NO_MEMORY: Memory := Memory(map[], {})

  /** A request header as the server hands it over. */
  datatype Header = Missing | One(text: string) | Many(texts: seq<string>)

  /** What a header can carry as a key: trimmed and not empty. */
  predicate ProperKey(k: string) {
    |k| > 0 && Text.Trimmed(k)
  }

  function HeaderText(header: Header): string {
    match header
    case Missing => ""
    case One(text) => text
    case Many(texts) => if |texts| > 0 then texts[0] else ""
  }

  function ReadKey(header: Header): (key: Option<string>)
    ensures key.None? <==> Text.Blank(HeaderText(header))
    ensures key.Some? ==> ProperKey(key.value) && exists i :: Text.StandsAt(key.value, HeaderText(header), i)
  {
    var raw := HeaderText(header);
    Text.TrimTrims(raw);
    KeyStands(raw);
    if |Text.Trim(raw)| > 0 then Some(Text.Trim(raw)) else None
  }

  lemma KeyStands(raw: string)
    ensures (Text.Trim(raw) == "" <==> Text.Blank(raw)) && exists i :: Text.StandsAt(Text.Trim(raw), raw, i)
  {
    var i := Text.TrimStands(raw);
  }

  predicate Cacheable(method_: string) {
    method_ == "POST" || method_ == "PUT" || method_ == "DELETE"
  }

  function CacheKey(method_: string, path: string, key: string): string {
    method_ + ":" + path + ":" + key
  }

  /** The key under which a request is tracked, if it is. */
  function RequestKey(rawMethod: string, url: string, header: Header): Option<string> {
    var method_ := Text.ToUpper(rawMethod);
    if !Cacheable(method_) then None
    else match ReadKey(header)
      case None => None
      case Some(key) => Some(CacheKey(method_, Text.Before(url, '?'), key))
  }

  /** The methods whose answers are kept. */
  ghost predicate Writing(rawMethod: string) { Text.ToUpper(rawMethod) in {"POST", "PUT", "DELETE"} }

  /** The header's text: of several only the first counts. */
  ghost predicate Carries(header: Header, text: string) {
    header == One(text) || (header.Many? && |header.texts| > 0 && header.texts[0] == text)
  }

  /**
   A request is tracked exactly if its method is one of the three, in any case, and its header
   carries more than white space: under method, path without the query, and the trimmed header.
   */
  lemma TrackedExactly(
      rawMethod: string, path: string, query: string, header: Header, before: string, k: string, behind: string)
    requires '?' !in path && (query == "" || query[0] == '?')
    requires Carries(header, before + k + behind) && Text.Blank(before) && Text.Blank(behind) && Text.Trimmed(k)
    ensures RequestKey(rawMethod, path + query, header)
         == if Writing(rawMethod) && k != "" then Some(Text.ToUpper(rawMethod) + ":" + path + ":" + k) else None
  {
    KeyInHeader(header, before, k, behind);
    Text.BeforeQuery(path, query);
  }

  lemma KeyInHeader(header: Header, before: string, k: string, behind: string)
    requires Carries(header, before + k + behind) && Text.Blank(before) && Text.Blank(behind) && Text.Trimmed(k)
    ensures ReadKey(header) == if k == "" then None else Some(k)
  {
    if k == "" {
      assert before + k == before;
      Text.BlankJoin(before, behind);
    } else {
      Text.TrimOfPadded(before, k, behind);
    }
    TextInHeader(header, before + k + behind);
  }

  lemma TextInHeader(header: Header, text: string)
    requires Carries(header, text)
    ensures ReadKey(header) == if Text.Blank(text) then None else Some(Text.Trim(text))
  {
  }

  /** Without such a header no request is tracked. */
  lemma UntrackedWithoutHeader(rawMethod: string, url: string, header: Header)
    requires forall text :: !Carries(header, text)
    ensures RequestKey(rawMethod, url, header) == None
  {
    assert !Carries(header, HeaderText(header));
  }

  // ---------------------------------------------------------------- hooks as functions

  function Unexpired(cache: map<string, CachedResponse>, now: int): map<string, CachedResponse> {
    map k | k in cache && now < cache[k].expiresAt :: cache[k]
  }

  datatype Admission = Bypass | Started | Conflict | Replay(response: CachedResponse)

  /** What `onRequest` does for a tracked key; the clock is read for the purge and again for the look-up. */
  function Receive(m: Memory, key: string, purgeAt: int, checkAt: int): (r: (Memory, Admission))
    ensures r.1.Replay? ==> checkAt < r.1.response.expiresAt && key in m.cache && r.1.response == m.cache[key]
  {
    var cache := Unexpired(m.cache, purgeAt);
    if key in cache && checkAt < cache[key].expiresAt then (Memory(cache, m.inFlight), Replay(cache[key]))
    else if key in m.inFlight then (Memory(cache - {key}, m.inFlight), Conflict)
    else (Memory(cache - {key}, m.inFlight + {key}), Started)
  }

  /** What `onSend` does for a tracked key that is not a replay. */
  function Sent(
      m: Memory, ttl: int, key: string, status: int, payload: string, contentType: Option<string>, now: int): Memory {
    if status >= 500 then Memory(m.cache, m.inFlight - {key})
    else Memory(m.cache[key := CachedResponse(status, payload, contentType, now + ttl)], m.inFlight - {key})
  }

  /** What `onError` does. */
  function Failed(m: Memory, key: string): Memory {
    Memory(m.cache, m.inFlight - {key})
  }

  /** The 409 answer to a duplicate. */
  const CONFLICT_STATUS := 409
  const CONFLICT_PAYLOAD := "IDEMPOTENCY_CONFLICT"
  const JSON_TYPE: Option<string> := Some("application/json; charset=utf-8")

  // ---------------------------------------------------------------- the plugin

  /** What the hooks keep on a request. */
  datatype Tracked = Tracked(key: Option<string>, replay: bool)

  class Plugin {
    const ttlMs: int
    var cache: map<string, CachedResponse>
    var inFlight: set<string>

    function State(): Memory
      reads this
    {
      Memory(cache, inFlight)
    }

    constructor (ttl: Option<int>)
      ensures State() == NO_MEMORY && ttlMs == ttl.Or(5 * 60 * 1000)
    {
      ttlMs := ttl.Or(5 * 60 * 1000);
      cache, inFlight := map[], {};
    }

    method PurgeExpired(now: int)
      modifies this`cache
      ensures cache == Unexpired(old(cache), now)
    {
      var pending := cache.Keys;
      while pending != {}
        invariant pending <= old(cache).Keys
        invariant cache == map k | k in old(cache) && (k in pending || now < old(cache)[k].expiresAt) :: old(cache)[k]
        decreases |pending|
      {
        var key :| key in pending;
        if cache[key].expiresAt <= now {
          cache := cache - {key};
        }
        pending := pending - {key};
      }
    }

    method OnRequest(rawMethod: string, url: string, header: Header, purgeAt: int, checkAt: int)
      returns (tracked: Tracked, admission: Admission)
      modifies this
      ensures tracked.key == RequestKey(rawMethod, url, header) && tracked.replay == admission.Replay?
      ensures tracked.key.None? ==> State() == old(State()) && admission == Bypass
      ensures tracked.key.Some? ==> (State(), admission) == Receive(old(State()), tracked.key.value, purgeAt, checkAt)
    {
      var method_ := Text.ToUpper(rawMethod);
      if !Cacheable(method_) {
        return Tracked(None, false), Bypass;
      }
      var idempotencyKey := ReadKey(header);
      if idempotencyKey.None? {
        return Tracked(None, false), Bypass;
      }
      PurgeExpired(purgeAt);
      var cacheKey := CacheKey(method_, Text.Before(url, '?'), idempotencyKey.value);
      tracked := Tracked(Some(cacheKey), false);
      if cacheKey !in cache || cache[cacheKey].expiresAt <= checkAt {
        if cacheKey in cache {
          cache := cache - {cacheKey};
        }
        assert cache == Unexpired(old(cache), purgeAt) - {cacheKey};
        if cacheKey in inFlight {
          return tracked, Conflict;
        }
        inFlight := inFlight + {cacheKey};
        return tracked, Started;
      }
      return Tracked(Some(cacheKey), true), Replay(cache[cacheKey]);
    }

    method OnSend(tracked: Tracked, status: int, payload: string, contentType: Option<string>, now: int)
      modifies this
      ensures State() == if tracked.key.None? || tracked.replay then old(State())
                         else Sent(old(State()), ttlMs, tracked.key.value, status, payload, contentType, now)
      ensures status >= 500 ==> cache == old(cache)
    {
      if tracked.key.None? || tracked.replay {
        return;
      }
      inFlight := inFlight - {tracked.key.value};
      if status >= 500 {
        return;
      }
      cache := cache[tracked.key.value := CachedResponse(status, payload, contentType, now + ttlMs)];
    }

    method OnError(tracked: Tracked)
      modifies this
      ensures State() == if tracked.key.None? then old(State()) else Failed(old(State()), tracked.key.value)
    {
      if tracked.key.Some? {
        inFlight := inFlight - {tracked.key.value};
      }
    }

    /** A handler's exception: `onError`, and then the error reply passes `onSend`. */
    method Fail(tracked: Tracked, status: int, payload: string, contentType: Option<string>, now: int)
      requires !tracked.replay
      modifies this
      ensures State() == if tracked.key.None? then old(State())
                         else Sent(Failed(old(State()), tracked.key.value), ttlMs, tracked.key.value, status,
                             payload, contentType, now)
      ensures status >= 500 ==> cache == old(cache)
    {
      OnError(tracked);
      OnSend(tracked, status, payload, contentType, now);
    }

    /** A request up to its handler: a duplicate's 409 is sent from within `onRequest` and so passes `onSend`. */
    method Arrive(rawMethod: string, url: string, header: Header, purgeAt: int, checkAt: int, sentAt: int)
      returns (tracked: Tracked, admission: Admission)
      modifies this
      ensures tracked.key == RequestKey(rawMethod, url, header)
      ensures tracked.key.None? ==> State() == old(State()) && admission == Bypass
      ensures tracked.key.Some? ==>
          (State(), admission) == Arrived(old(State()), ttlMs, tracked.key.value, purgeAt, checkAt, sentAt)
    {
      tracked, admission := OnRequest(rawMethod, url, header, purgeAt, checkAt);
      if admission.Conflict? {
        OnSend(tracked, CONFLICT_STATUS, CONFLICT_PAYLOAD, JSON_TYPE, sentAt);
      } else if admission.Replay? {
        OnSend(tracked, admission.response.status, admission.response.payload, admission.response.contentType, sentAt);
      }
    }
  }

  /** The whole hook chain of an arriving request. */
  function Arrived(m: Memory, ttl: int, key: string, purgeAt: int, checkAt: int, sentAt: int): (Memory, Admission) {
    var (received, admission) := Receive(m, key, purgeAt, checkAt);
    if admission.Conflict?
    then (Sent(received, ttl, key, CONFLICT_STATUS, CONFLICT_PAYLOAD, JSON_TYPE, sentAt), admission)
    else (received, admission)
  }

  // ---------------------------------------------------------------- keys

  /** Requests are told apart by method, path and key whenever paths have no colon. */
  lemma CacheKeyInjective(m1: string, p1: string, k1: string, m2: string, p2: string, k2: string)
    requires Cacheable(m1) && Cacheable(m2) && ':' !in p1 && ':' !in p2
    requires CacheKey(m1, p1, k1) == CacheKey(m2, p2, k2)
    ensures m1 == m2 && p1 == p2 && k1 == k2
  {
    assert CacheKey(m1, p1, k1) == m1 + [':'] + (p1 + [':'] + k1);
    assert CacheKey(m2, p2, k2) == m2 + [':'] + (p2 + [':'] + k2);
    Text.SplitUnique(m1, m2, ':', p1 + [':'] + k1, p2 + [':'] + k2);
    Text.SplitUnique(p1, p2, ':', k1, k2);
  }

  lemma ShorterPathShowsColon(m: string, p: string, k: string, p': string, k': string)
    requires |p'| < |p| && CacheKey(m, p', k') == CacheKey(m, p, k)
    ensures ':' in p
  {
    var whole := CacheKey(m, p, k);
    assert whole == CacheKey(m, p', k');
    assert whole[|m| + 1 + |p'|] == ':';
    assert whole[|m| + 1 + |p'|] == p[|p'|];
  }

  lemma ShorterPath(m: string, p: string, k: string)
    requires ':' in p
    ensures var p' := Text.Before(p, ':');
            |p'| < |p| && CacheKey(m, p', p[|p'| + 1..] + ([':'] + k)) == CacheKey(m, p, k)
  {
  }

  /** A colon in the path is exactly what makes another request share the key with a shorter path. */
  lemma ColonsCollide(m: string, p: string, k: string)
    requires Cacheable(m) && ProperKey(k) && forall i :: 0 <= i < |p| ==> !Text.IsSpace(p[i])
    ensures ':' in p <==> exists p', k' :: |p'| < |p| && ProperKey(k') && CacheKey(m, p', k') == CacheKey(m, p, k)
  {
    if ':' in p {
      ShorterPath(m, p, k);
      var p' := Text.Before(p, ':');
      var rest := p[|p'| + 1..];
      var k' := rest + ([':'] + k);
      assert k'[0] == (if |rest| > 0 then p[|p'| + 1] else ':') && k'[|k'| - 1] == k[|k| - 1];
      assert ProperKey(k') && CacheKey(m, p', k') == CacheKey(m, p, k);
    } else {
      forall p', k' | CacheKey(m, p', k') == CacheKey(m, p, k) ensures |p'| >= |p| {
        if |p'| < |p| {
          ShorterPathShowsColon(m, p, k, p', k');
        }
      }
    }
  }

  /** An instance: two requests to different paths with one cache key. */
  lemma ColonCollision()
    ensures CacheKey("POST", "/a:b", "k") == CacheKey("POST", "/a", "b:k")
  {
  }
}
