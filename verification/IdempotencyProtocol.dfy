/**
 The plugin under concurrent requests: arrivals, answers and failures interleave freely, and
 time passes between them. While every handler answers within the time to live, no two
 handlers of one key overlap, and a settled answer is replayed until it expires.
 */
module IdempotencyProtocol {
  import opened Outcomes
  import opened Idempotency

  datatype Handler = Handler(key: string, start: int)

  /** The plugin's memory, the handlers at work by request number, and the clock. */
  datatype Server = Server(memory: Memory, running: map<nat, Handler>, now: int)

  datatype Event =
    | Arrival(id: nat, key: string, purgeAt: int, checkAt: int, sentAt: int)
    | Answer(id: nat, status: int, payload: string, contentType: Option<string>, at: int)
    | Failure(id: nat, status: int, payload: string, contentType: Option<string>, at: int)

  predicate Enabled(s: Server, e: Event) {
    match e
    case Arrival(id, _, purgeAt, checkAt, sentAt) => id !in s.running && s.now <= purgeAt <= checkAt <= sentAt
    case Answer(id, _, _, _, at) => id in s.running && s.now <= at
    case Failure(id, _, _, _, at) => id in s.running && s.now <= at
  }

  function Admitted(s: Server, ttl: int, e: Event): Admission
    requires e.Arrival?
  {
    Arrived(s.memory, ttl, e.key, e.purgeAt, e.checkAt, e.sentAt).1
  }

  function Step(s: Server, ttl: int, e: Event): Server
    requires Enabled(s, e)
  {
    match e
    case Arrival(id, key, purgeAt, checkAt, sentAt) =>
      var (memory, admission) := Arrived(s.memory, ttl, key, purgeAt, checkAt, sentAt);
      Server(memory, if admission.Started? then s.running[id := Handler(key, checkAt)] else s.running, sentAt)
    case Answer(id, status, payload, contentType, at) =>
      Server(Sent(s.memory, ttl, s.running[id].key, status, payload, contentType, at), s.running - {id}, at)
    case Failure(id, status, payload, contentType, at) =>
      var key := s.running[id].key;
      Server(Sent(Failed(s.memory, key), ttl, key, status, payload, contentType, at), s.running - {id}, at)
  }

  /** Each event is possible in the state the ones before it lead to. */
  ghost predicate Legal(s: Server, ttl: int, events: seq<Event>)
    decreases |events|, 0
  {
    |events| > 0 ==>
      Legal(s, ttl, events[..|events| - 1]) && Enabled(Run(s, ttl, events[..|events| - 1]), events[|events| - 1])
  }

  ghost function Run(s: Server, ttl: int, events: seq<Event>): Server
    requires Legal(s, ttl, events)
    decreases |events|, 1
  {
    if |events| == 0 then s
    else Step(Run(s, ttl, events[..|events| - 1]), ttl, events[|events| - 1])
  }

  /** Every handler at work started less than `bound` ago. */
  predicate InTime(s: Server, bound: int) {
    forall id :: id in s.running ==> s.now < s.running[id].start + bound
  }

  /** No state on the way has a handler that has been at work for `bound` or longer. */
  ghost predicate AlwaysInTime(s: Server, ttl: int, bound: int, events: seq<Event>)
    requires Legal(s, ttl, events)
    decreases |events|
  {
    InTime(Run(s, ttl, events), bound) && (|events| > 0 ==> AlwaysInTime(s, ttl, bound, events[..|events| - 1]))
  }

  lemma Extend(s: Server, ttl: int, bound: int, events: seq<Event>, e: Event)
    requires Legal(s, ttl, events) && AlwaysInTime(s, ttl, bound, events)
    requires Enabled(Run(s, ttl, events), e) && InTime(Step(Run(s, ttl, events), ttl, e), bound)
    ensures Legal(s, ttl, events + [e]) && AlwaysInTime(s, ttl, bound, events + [e])
    ensures Run(s, ttl, events + [e]) == Step(Run(s, ttl, events), ttl, e)
  {
  }

  predicate NoOverlap(s: Server) {
    forall a, b | a in s.running && b in s.running :: s.running[a].key == s.running[b].key ==> a == b
  }

  /** A running key is in flight, or its cached conflict outlives the handler's allowance. */
  predicate Guarded(s: Server, ttl: int, id: nat)
    requires id in s.running
  {
    var h := s.running[id];
    || h.key in s.memory.inFlight
    || (h.key in s.memory.cache && h.start + ttl <= s.memory.cache[h.key].expiresAt)
  }

  /** Only keys of running handlers are in flight. */
  ghost predicate FlightsOwned(s: Server) {
    forall key :: key in s.memory.inFlight ==> exists id :: id in s.running && s.running[id].key == key
  }

  ghost predicate Exclusive(s: Server, ttl: int) {
    NoOverlap(s) && (forall id :: id in s.running ==> Guarded(s, ttl, id) && s.running[id].start <= s.now)
  }

  const IDLE: Server := Server(NO_MEMORY, map[], 0)

  // ---------------------------------------------------------------- exclusion

  lemma StepKeepsExclusive(s: Server, ttl: int, e: Event)
    requires Exclusive(s, ttl) && Enabled(s, e) && InTime(Step(s, ttl, e), ttl)
    ensures Exclusive(Step(s, ttl, e), ttl)
  {
  }

  lemma {:induction false} RunKeepsExclusive(s: Server, ttl: int, events: seq<Event>)
    requires Exclusive(s, ttl) && Legal(s, ttl, events) && AlwaysInTime(s, ttl, ttl, events)
    ensures Exclusive(Run(s, ttl, events), ttl)
  {
    if |events| > 0 {
      RunKeepsExclusive(s, ttl, events[..|events| - 1]);
      StepKeepsExclusive(Run(s, ttl, events[..|events| - 1]), ttl, events[|events| - 1]);
    }
  }

  /**
   If every handler answers in less than the time to live, then in no interleaving of requests
   do two handlers of one key overlap, although a duplicate's 409 clears the in-flight mark.
   */
  lemma HandlersNeverOverlap(ttl: int, events: seq<Event>)
    requires Legal(IDLE, ttl, events) && AlwaysInTime(IDLE, ttl, ttl, events)
    ensures NoOverlap(Run(IDLE, ttl, events))
  {
    RunKeepsExclusive(IDLE, ttl, events);
  }

  /** The bound cannot be relaxed: with handlers at work for exactly the time to live, two can overlap. */
  lemma BoundIsSharp(ttl: int, key: string) returns (events: seq<Event>)
    requires ttl > 0
    ensures Legal(IDLE, ttl, events) && AlwaysInTime(IDLE, ttl, ttl + 1, events)
    ensures !NoOverlap(Run(IDLE, ttl, events))
  {
    var first, duplicate, late := Arrival(0, key, 0, 0, 0), Arrival(1, key, 0, 0, 0), Arrival(2, key, ttl, ttl, ttl);
    events := [];
    Extend(IDLE, ttl, ttl + 1, events, first);
    events := events + [first];
    assert Run(IDLE, ttl, events).running == map[0 := Handler(key, 0)];
    Extend(IDLE, ttl, ttl + 1, events, duplicate);
    events := events + [duplicate];
    var s := Run(IDLE, ttl, events);
    assert s.running == map[0 := Handler(key, 0)] && key !in s.memory.inFlight && s.memory.cache[key].expiresAt == ttl;
    Extend(IDLE, ttl, ttl + 1, events, late);
    events := events + [late];
    assert 0 in Run(IDLE, ttl, events).running && 2 in Run(IDLE, ttl, events).running;
  }

  // ---------------------------------------------------------------- settled answers

  /** The cache holds `response` for `key`, and nobody works on the key. */
  ghost predicate Settled(s: Server, key: string, response: CachedResponse) {
    && key in s.memory.cache && s.memory.cache[key] == response
    && key !in s.memory.inFlight
    && forall id :: id in s.running ==> s.running[id].key != key
  }

  /** When the plugin looks the key up, or the answer is sent. */
  function EventTime(e: Event): int {
    match e
    case Arrival(_, _, _, checkAt, _) => checkAt
    case Answer(_, _, _, _, at) => at
    case Failure(_, _, _, _, at) => at
  }

  lemma StepKeepsSettled(s: Server, ttl: int, e: Event, key: string, response: CachedResponse)
    requires Settled(s, key, response) && Enabled(s, e) && EventTime(e) < response.expiresAt
    ensures Settled(Step(s, ttl, e), key, response)
    ensures e.Arrival? && e.key == key ==> Admitted(s, ttl, e) == Replay(response)
  {
  }

  lemma {:induction false} RunKeepsSettled(
      s: Server, ttl: int, events: seq<Event>, key: string, response: CachedResponse)
    requires Settled(s, key, response) && Legal(s, ttl, events)
    requires |events| > 0 ==> EventTime(events[|events| - 1]) < response.expiresAt
    ensures Settled(Run(s, ttl, events), key, response)
    ensures |events| > 0 ==> EventTime(events[|events| - 1]) <= Run(s, ttl, events).now
  {
    if |events| > 0 {
      var init := events[..|events| - 1];
      var before := Run(s, ttl, init);
      if |init| > 0 {
        LastEventTime(s, ttl, init);
      }
      RunKeepsSettled(s, ttl, init, key, response);
      StepKeepsSettled(before, ttl, events[|events| - 1], key, response);
    }
  }

  lemma LastEventTime(s: Server, ttl: int, events: seq<Event>)
    requires |events| > 0 && Legal(s, ttl, events)
    ensures EventTime(events[|events| - 1]) <= Run(s, ttl, events).now
  {
  }

  /** Once the only handler of a key has answered below 500, the key is settled. */
  lemma AnswerSettles(s: Server, ttl: int, e: Event)
    requires (e.Answer? || e.Failure?) && Enabled(s, e) && NoOverlap(s) && e.status < 500
    ensures Settled(Step(s, ttl, e), s.running[e.id].key,
        CachedResponse(e.status, e.payload, e.contentType, e.at + ttl))
  {
  }

  /**
   Under the same bound: once a handler of a key answers below 500 at time f, every request for
   the key that is looked up before f + ttl is answered with that status, payload and content
   type, whatever happened in between; so no handler for the key starts before f + ttl.
   */
  lemma SettledAnswersAreReplayed(ttl: int, history: seq<Event>, e: Event, between: seq<Event>, request: Event)
    requires Legal(IDLE, ttl, history) && AlwaysInTime(IDLE, ttl, ttl, history)
    requires (e.Answer? || e.Failure?) && Enabled(Run(IDLE, ttl, history), e) && e.status < 500
    requires var s := Step(Run(IDLE, ttl, history), ttl, e);
             && Legal(s, ttl, between) && Enabled(Run(s, ttl, between), request)
             && request.Arrival? && request.key == Run(IDLE, ttl, history).running[e.id].key
             && request.checkAt < e.at + ttl
    ensures var now := Run(Step(Run(IDLE, ttl, history), ttl, e), ttl, between);
            && Admitted(now, ttl, request) == Replay(CachedResponse(e.status, e.payload, e.contentType, e.at + ttl))
            && Step(now, ttl, request).running == now.running
            && forall id :: id in now.running ==> now.running[id].key != request.key
  {
    var before := Run(IDLE, ttl, history);
    RunKeepsExclusive(IDLE, ttl, history);
    var s := Step(before, ttl, e);
    var response := CachedResponse(e.status, e.payload, e.contentType, e.at + ttl);
    AnswerSettles(before, ttl, e);
    if |between| > 0 {
      LastEventTime(s, ttl, between);
    }
    RunKeepsSettled(s, ttl, between, request.key, response);
    StepKeepsSettled(Run(s, ttl, between), ttl, request, request.key, response);
  }

  // ---------------------------------------------------------------- no key stays blocked

  lemma StepKeepsFlightsOwned(s: Server, ttl: int, e: Event)
    requires FlightsOwned(s) && Enabled(s, e)
    ensures FlightsOwned(Step(s, ttl, e))
  {
    var after := Step(s, ttl, e);
    forall key | key in after.memory.inFlight
      ensures exists id :: id in after.running && after.running[id].key == key
    {
      if key in s.memory.inFlight {
        var id :| id in s.running && s.running[id].key == key;
        assert id in after.running;
      } else {
        assert after.running[e.id].key == key;
      }
    }
  }

  lemma {:induction false} RunKeepsFlightsOwned(s: Server, ttl: int, events: seq<Event>)
    requires FlightsOwned(s) && Legal(s, ttl, events)
    ensures FlightsOwned(Run(s, ttl, events))
  {
    if |events| > 0 {
      RunKeepsFlightsOwned(s, ttl, events[..|events| - 1]);
      StepKeepsFlightsOwned(Run(s, ttl, events[..|events| - 1]), ttl, events[|events| - 1]);
    }
  }

  /**
   No key stays blocked, bound or no bound, errors, conflicts and overlaps included: as soon as
   no handler works on a key, a request for it is either replayed from an unexpired entry or
   handled; a duplicate conflict is out of the question.
   */
  lemma NoKeyStaysBlocked(ttl: int, events: seq<Event>, request: Event)
    requires Legal(IDLE, ttl, events) && request.Arrival? && Enabled(Run(IDLE, ttl, events), request)
    requires forall id :: id in Run(IDLE, ttl, events).running ==> Run(IDLE, ttl, events).running[id].key != request.key
    ensures var s := Run(IDLE, ttl, events);
            var entry := request.key in s.memory.cache && request.checkAt < s.memory.cache[request.key].expiresAt;
            Admitted(s, ttl, request) == if entry then Replay(s.memory.cache[request.key]) else Started
  {
    RunKeepsFlightsOwned(IDLE, ttl, events);
  }

  // ---------------------------------------------------------------- where kept answers come from

  /**
   The event gave the key this answer, to be kept for the time to live: a handler of the key
   ended below 500, or the request was a duplicate, whose 409 is kept like any other answer.
   */
  ghost predicate GivenBy(s: Server, ttl: int, e: Event, key: string, response: CachedResponse) {
    match e
    case Arrival(_, k, _, checkAt, sentAt) =>
      && k == key && key in s.memory.inFlight && !(key in s.memory.cache && checkAt < s.memory.cache[key].expiresAt)
      && response == CachedResponse(409, "IDEMPOTENCY_CONFLICT", Some("application/json; charset=utf-8"), sentAt + ttl)
    case Answer(id, status, payload, contentType, at) =>
      && id in s.running && s.running[id].key == key && status < 500
      && response == CachedResponse(status, payload, contentType, at + ttl)
    case Failure(id, status, payload, contentType, at) =>
      && id in s.running && s.running[id].key == key && status < 500
      && response == CachedResponse(status, payload, contentType, at + ttl)
  }

  /** An entry is there after an event if and only if the event gave it, or it was there and still counts. */
  lemma EntryAfterStep(s: Server, ttl: int, e: Event, key: string, response: CachedResponse)
    requires Enabled(s, e)
    ensures var after := Step(s, ttl, e).memory.cache;
            var given := exists r :: GivenBy(s, ttl, e, key, r);
            key in after && after[key] == response <==>
              GivenBy(s, ttl, e, key, response)
              || (!given && key in s.memory.cache && s.memory.cache[key] == response
                  && (e.Arrival? ==> (if e.key == key then e.checkAt else e.purgeAt) < response.expiresAt))
  {
    var after := Step(s, ttl, e).memory.cache;
    if key in after {
      assert GivenBy(s, ttl, e, key, after[key]) || (key in s.memory.cache && after[key] == s.memory.cache[key]);
    }
  }

  /** The event at which the run gave the key this answer. */
  ghost predicate GivenAt(s: Server, ttl: int, events: seq<Event>, k: nat, key: string, response: CachedResponse)
    requires Legal(s, ttl, events) && k < |events|
    decreases |events|
  {
    if k == |events| - 1 then GivenBy(Run(s, ttl, events[..k]), ttl, events[k], key, response)
    else GivenAt(s, ttl, events[..|events| - 1], k, key, response)
  }

  /**
   Whatever is kept, in any interleaving, is an answer some event has given for that key and for
   no longer than the time to live: an answer below 500.
   */
  lemma {:induction false} KeptAnswersWereGiven(ttl: int, events: seq<Event>, key: string)
    requires Legal(IDLE, ttl, events) && key in Run(IDLE, ttl, events).memory.cache
    ensures Run(IDLE, ttl, events).memory.cache[key].status < 500
    ensures exists k :: 0 <= k < |events|
                        && GivenAt(IDLE, ttl, events, k, key, Run(IDLE, ttl, events).memory.cache[key])
  {
    var last := |events| - 1;
    var init, response := events[..last], Run(IDLE, ttl, events).memory.cache[key];
    EntryAfterStep(Run(IDLE, ttl, init), ttl, events[last], key, response);
    if GivenBy(Run(IDLE, ttl, init), ttl, events[last], key, response) {
      assert GivenAt(IDLE, ttl, events, last, key, response);
    } else {
      KeptAnswersWereGiven(ttl, init, key);
      var k :| 0 <= k < |init| && GivenAt(IDLE, ttl, init, k, key, response);
      assert GivenAt(IDLE, ttl, events, k, key, response);
    }
  }

  /** No request is ever answered with a kept server error. */
  lemma ReplaysAreBelow500(ttl: int, events: seq<Event>, request: Event)
    requires Legal(IDLE, ttl, events) && request.Arrival?
    ensures var admission := Admitted(Run(IDLE, ttl, events), ttl, request);
            admission.Replay? ==> admission.response.status < 500 && request.checkAt < admission.response.expiresAt
  {
    var s := Run(IDLE, ttl, events);
    if Admitted(s, ttl, request).Replay? {
      KeptAnswersWereGiven(ttl, events, request.key);
    }
  }

  // ---------------------------------------------------------------- server errors are retried

  /** No request for the key and no handler of it; what is kept for it is over by then. */
  ghost predicate Vacant(s: Server, key: string, until: int) {
    && (key in s.memory.cache ==> s.memory.cache[key].expiresAt <= until)
    && key !in s.memory.inFlight
    && forall id :: id in s.running ==> s.running[id].key != key
  }

  lemma {:induction false} StaysVacant(s: Server, ttl: int, events: seq<Event>, key: string, until: int)
    requires Vacant(s, key, until) && Legal(s, ttl, events)
    requires forall k :: 0 <= k < |events| && events[k].Arrival? ==> events[k].key != key
    ensures Vacant(Run(s, ttl, events), key, until)
  {
    if |events| > 0 {
      StaysVacant(s, ttl, events[..|events| - 1], key, until);
    }
  }

  /**
   When the only handler of a key ends with 500 or above and nothing unexpired is kept, the next
   request for the key is handled, whatever other keys see in between.
   */
  lemma ServerErrorsAreRetried(ttl: int, history: seq<Event>, e: Event, between: seq<Event>, request: Event)
    requires Legal(IDLE, ttl, history) && (e.Answer? || e.Failure?) && Enabled(Run(IDLE, ttl, history), e)
    requires e.status >= 500
    requires var before := Run(IDLE, ttl, history);
             && request.Arrival? && request.key == before.running[e.id].key
             && (forall id :: id in before.running && id != e.id ==> before.running[id].key != request.key)
             && (request.key in before.memory.cache ==>
                   before.memory.cache[request.key].expiresAt <= request.checkAt)
    requires forall k :: 0 <= k < |between| && between[k].Arrival? ==> between[k].key != request.key
    requires var s := Step(Run(IDLE, ttl, history), ttl, e);
             Legal(s, ttl, between) && Enabled(Run(s, ttl, between), request)
    ensures Admitted(Run(Step(Run(IDLE, ttl, history), ttl, e), ttl, between), ttl, request) == Started
  {
    StaysVacant(Step(Run(IDLE, ttl, history), ttl, e), ttl, between, request.key, request.checkAt);
  }

  /** A duplicate's 409 is kept for the time to live and takes the key out of flight. */
  lemma DuplicateIsRefused(s: Server, ttl: int, request: Event)
    requires request.Arrival? && Enabled(s, request) && request.key in s.memory.inFlight
    requires request.key in s.memory.cache ==> s.memory.cache[request.key].expiresAt <= request.checkAt
    ensures var after := Step(s, ttl, request);
            && Admitted(s, ttl, request) == Conflict && after.running == s.running
            && after.memory.inFlight == s.memory.inFlight - {request.key}
            && request.key in after.memory.cache
            && after.memory.cache[request.key].status == 409
            && after.memory.cache[request.key].expiresAt == request.sentAt + ttl
  {
  }
}
