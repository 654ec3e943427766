/**
 MCP sessions: each keeps a list of subscriptions without duplicates and notifies its client of
 the audit events they match. The list delivers exactly what the full log of accepted requests would.
 */
module McpSession {
  import opened Outcomes
  import opened FilterJson
  import opened ReactiveEvents
  import Text

  /** One subscribe request. */
  datatype Request = Request(topics: seq<string>, replaceExisting: bool, filters: Option<Record>)

  function NormalizedFilters(r: Request): Record {
    DropUndefinedKeepsFields(r.filters.Or([]));
    DropUndefined(r.filters.Or([]))
  }

  predicate Acceptable(p: Principal, topic: string) {
    topic in SUPPORTED_TOPICS && MaySubscribe(p, topic)
  }

  // ---------------------------------------------------------------- the list, as functions

  predicate Listed(subs: seq<Subscription>, s: Subscription) {
    exists k :: 0 <= k < |subs| && SameSubscription(subs[k], s)
  }

  function AddTopic(subs: seq<Subscription>, p: Principal, topic: string, filters: Record): seq<Subscription> {
    var s := Subscription(topic, filters);
    if Acceptable(p, topic) && !Listed(subs, s) then subs + [s] else subs
  }

  function AddTopics(subs: seq<Subscription>, p: Principal, topics: seq<string>, filters: Record): seq<Subscription> {
    if |topics| == 0 then subs
    else AddTopic(AddTopics(subs, p, topics[..|topics| - 1], filters), p, topics[|topics| - 1], filters)
  }

  function Subscribed(subs: seq<Subscription>, p: Principal, r: Request): seq<Subscription> {
    AddTopics(if r.replaceExisting then [] else subs, p, Text.Unique(r.topics), NormalizedFilters(r))
  }

  /** What the client is told about one topic. */
  datatype Outcome = Unsupported | Blocked | AlreadyListed | Added

  function Answer(subs: seq<Subscription>, p: Principal, topic: string, filters: Record): Outcome {
    if topic !in SUPPORTED_TOPICS then Unsupported
    else if !MaySubscribe(p, topic) then Blocked
    else if Listed(subs, Subscription(topic, filters)) then AlreadyListed
    else Added
  }

  function Entries(topics: seq<string>, filters: Record): seq<Subscription> {
    seq(|topics|, k requires 0 <= k < |topics| => Subscription(topics[k], filters))
  }

  lemma AddNext(subs: seq<Subscription>, p: Principal, topics: seq<string>, k: nat, filters: Record)
    requires k < |topics|
    ensures AddTopics(subs, p, topics[..k + 1], filters)
        == AddTopic(AddTopics(subs, p, topics[..k], filters), p, topics[k], filters)
    ensures topics[..k + 1] == topics[..k] + [topics[k]]
  {
  }

  /** What `publishAuditEvent` decides: the matching subscriptions of an event in the session's domain. */
  ghost predicate Notified(subs: seq<Subscription>, p: Principal, e: Event) {
    e.domain == p.domain && exists k :: 0 <= k < |subs| && Matches(e, subs[k])
  }

  // ---------------------------------------------------------------- the session

  class Session {
    const principal: Principal
    var subscriptions: seq<Subscription>

    constructor (principal: Principal)
      ensures this.principal == principal && subscriptions == []
    {
      this.principal := principal;
      subscriptions := [];
    }

    method SubscribeTopic(topic: string, filters: Record) returns (outcome: Outcome)
      modifies this
      ensures subscriptions == AddTopic(old(subscriptions), principal, topic, filters)
      ensures outcome == Answer(old(subscriptions), principal, topic, filters)
    {
      if topic !in SUPPORTED_TOPICS {
        return Unsupported;
      }
      if !MaySubscribe(principal, topic) {
        return Blocked;
      }
      var subscription := Subscription(topic, filters);
      if Listed(subscriptions, subscription) {
        return AlreadyListed;
      }
      subscriptions := subscriptions + [subscription];
      outcome := Added;
    }

    method SubscribeTopics(topics: seq<string>, filters: Record)
      returns (newlyAdded: seq<string>, blocked: seq<string>, unsupported: seq<string>)
      modifies this
      ensures subscriptions == AddTopics(old(subscriptions), principal, topics, filters)
      ensures subscriptions == old(subscriptions) + Entries(newlyAdded, filters)
      ensures forall t :: t in unsupported <==> t in topics && t !in SUPPORTED_TOPICS
      ensures forall t :: t in blocked <==> t in topics && t in SUPPORTED_TOPICS && !MaySubscribe(principal, t)
    {
      newlyAdded, blocked, unsupported := [], [], [];
      ghost var before := subscriptions;
      for k := 0 to |topics|
        invariant subscriptions == AddTopics(before, principal, topics[..k], filters)
        invariant subscriptions == before + Entries(newlyAdded, filters)
        invariant forall t :: t in unsupported <==> t in topics[..k] && t !in SUPPORTED_TOPICS
        invariant forall t :: t in blocked <==> t in topics[..k] && t in SUPPORTED_TOPICS && !MaySubscribe(principal, t)
      {
        AddNext(before, principal, topics, k, filters);
        var outcome := SubscribeTopic(topics[k], filters);
        match outcome
        case Unsupported => unsupported := unsupported + [topics[k]];
        case Blocked => blocked := blocked + [topics[k]];
        case Added => newlyAdded := newlyAdded + [topics[k]];
        case AlreadyListed =>
      }
      assert topics[..|topics|] == topics;
    }

    method Subscribe(r: Request)
      returns (newlyAdded: seq<string>, blocked: seq<string>, unsupported: seq<string>)
      modifies this
      ensures subscriptions == Subscribed(old(subscriptions), principal, r)
      ensures subscriptions
          == (if r.replaceExisting then [] else old(subscriptions)) + Entries(newlyAdded, NormalizedFilters(r))
      ensures forall t :: t in unsupported <==> t in Text.Unique(r.topics) && t !in SUPPORTED_TOPICS
      ensures forall t :: t in blocked <==>
          t in Text.Unique(r.topics) && t in SUPPORTED_TOPICS && !MaySubscribe(principal, t)
    {
      if r.replaceExisting {
        subscriptions := [];
      }
      newlyAdded, blocked, unsupported := SubscribeTopics(Text.Unique(r.topics), NormalizedFilters(r));
    }

    /** The subscriptions a notification for the event would list; none means no notification. */
    method PublishAuditEvent(e: Event) returns (matched: seq<Subscription>)
      ensures |matched| > 0 <==> Notified(subscriptions, principal, e)
      ensures forall s :: s in matched <==> s in subscriptions && e.domain == principal.domain && Matches(e, s)
    {
      matched := [];
      if |subscriptions| == 0 || e.domain != principal.domain {
        return;
      }
      var topics := DeriveTopics(e);
      for k := 0 to |subscriptions|
        invariant forall s :: s in matched <==> s in subscriptions[..k] && Matches(e, s)
      {
        var s := subscriptions[k];
        if (s.topic == "*" || s.topic in topics) && FiltersAllow(e, DropUndefined(s.filters)) {
          matched := matched + [s];
        }
        assert subscriptions[..k + 1] == subscriptions[..k] + [s];
      }
      assert subscriptions[..|subscriptions|] == subscriptions;
      if |matched| > 0 {
        assert matched[0] in matched;
      }
    }
  }

  // ---------------------------------------------------------------- deduplication loses nothing

  /** The reference: every accepted subscription since the last replacement, duplicates and all. */
  function LogTopics(log: seq<Subscription>, p: Principal, topics: seq<string>, filters: Record): seq<Subscription> {
    if |topics| == 0 then log else
    var earlier, topic := LogTopics(log, p, topics[..|topics| - 1], filters), topics[|topics| - 1];
    if Acceptable(p, topic) then earlier + [Subscription(topic, filters)] else earlier
  }

  function Log(p: Principal, requests: seq<Request>): seq<Subscription> {
    if |requests| == 0 then [] else
    var r := requests[|requests| - 1];
    LogTopics(if r.replaceExisting then [] else Log(p, requests[..|requests| - 1]),
              p, Text.Unique(r.topics), NormalizedFilters(r))
  }

  function Run(p: Principal, requests: seq<Request>): seq<Subscription> {
    if |requests| == 0 then []
    else Subscribed(Run(p, requests[..|requests| - 1]), p, requests[|requests| - 1])
  }

  /** The list represents the log: listed subscriptions are logged, and each logged one is listed up to sameness. */
  ghost predicate Represents(subs: seq<Subscription>, log: seq<Subscription>) {
    && (forall k :: 0 <= k < |subs| ==> subs[k] in log)
    && (forall k :: 0 <= k < |log| ==> Listed(subs, log[k]))
  }

  /** No two entries are the same, and only supported, permitted topics occur. */
  ghost predicate Tidy(subs: seq<Subscription>, p: Principal) {
    && (forall i, j :: 0 <= i < j < |subs| ==> !SameSubscription(subs[i], subs[j]))
    && (forall k :: 0 <= k < |subs| ==> Acceptable(p, subs[k].topic))
  }

  lemma ListedGrows(subs: seq<Subscription>, more: seq<Subscription>, s: Subscription)
    requires Listed(subs, s)
    ensures Listed(subs + more, s)
  {
    var k :| 0 <= k < |subs| && SameSubscription(subs[k], s);
    assert (subs + more)[k] == subs[k];
  }

  lemma {:induction false} AddTopicsRepresents(
      subs: seq<Subscription>, log: seq<Subscription>, p: Principal, topics: seq<string>, filters: Record)
    requires Represents(subs, log) && Tidy(subs, p)
    ensures Represents(AddTopics(subs, p, topics, filters), LogTopics(log, p, topics, filters))
    ensures Tidy(AddTopics(subs, p, topics, filters), p)
  {
    if |topics| > 0 {
      var init, topic := topics[..|topics| - 1], topics[|topics| - 1];
      AddTopicsRepresents(subs, log, p, init, filters);
      AddTopicRepresents(AddTopics(subs, p, init, filters), LogTopics(log, p, init, filters), p, topic, filters);
    }
  }

  lemma AddTopicRepresents(
      subs: seq<Subscription>, log: seq<Subscription>, p: Principal, topic: string, filters: Record)
    requires Represents(subs, log) && Tidy(subs, p)
    ensures Represents(AddTopic(subs, p, topic, filters),
                       if Acceptable(p, topic) then log + [Subscription(topic, filters)] else log)
    ensures Tidy(AddTopic(subs, p, topic, filters), p)
  {
    var s := Subscription(topic, filters);
    if Acceptable(p, topic) {
      if Listed(subs, s) {
        KnownEntryRepresents(subs, log, s);
      } else {
        NewEntryRepresents(subs, log, s);
        NewEntryTidy(subs, p, s);
      }
    }
  }

  lemma KnownEntryRepresents(subs: seq<Subscription>, log: seq<Subscription>, s: Subscription)
    requires Represents(subs, log) && Listed(subs, s)
    ensures Represents(subs, log + [s])
  {
  }

  lemma NewEntryRepresents(subs: seq<Subscription>, log: seq<Subscription>, s: Subscription)
    requires Represents(subs, log)
    ensures Represents(subs + [s], log + [s])
  {
    assert (subs + [s])[|subs|] == s && SameSubscription((subs + [s])[|subs|], s);
    forall k | 0 <= k < |log + [s]| ensures Listed(subs + [s], (log + [s])[k]) {
      if k < |log| {
        ListedGrows(subs, [s], log[k]);
      }
    }
  }

  lemma NewEntryTidy(subs: seq<Subscription>, p: Principal, s: Subscription)
    requires Tidy(subs, p) && Acceptable(p, s.topic) && !Listed(subs, s)
    ensures Tidy(subs + [s], p)
  {
  }

  lemma {:induction false} RunRepresentsLog(p: Principal, requests: seq<Request>)
    ensures Represents(Run(p, requests), Log(p, requests)) && Tidy(Run(p, requests), p)
  {
    if |requests| > 0 {
      var init, r := requests[..|requests| - 1], requests[|requests| - 1];
      RunRepresentsLog(p, init);
      var subs := if r.replaceExisting then [] else Run(p, init);
      var log := if r.replaceExisting then [] else Log(p, init);
      AddTopicsRepresents(subs, log, p, Text.Unique(r.topics), NormalizedFilters(r));
    }
  }

  /**
   After any sequence of subscribe calls, an event is notified exactly when some request accepted
   since the last replacement matches it in the session's domain.
   */
  lemma DeduplicationLosesNothing(p: Principal, requests: seq<Request>, e: Event)
    ensures Notified(Run(p, requests), p, e) <==> Notified(Log(p, requests), p, e)
  {
    RunRepresentsLog(p, requests);
    var subs, log := Run(p, requests), Log(p, requests);
    if k :| 0 <= k < |log| && Matches(e, log[k]) {
      assert Listed(subs, log[k]);
      var j :| 0 <= j < |subs| && SameSubscription(subs[j], log[k]);
      SameSubscriptionsMatchAlike(e, subs[j], log[k]);
    }
    if k :| 0 <= k < |subs| && Matches(e, subs[k]) {
      assert subs[k] in log;
    }
  }

  // ---------------------------------------------------------------- who is notified of what

  /** A request asks for an event: by a topic it goes out under and the caller may have, with filters that all agree. */
  ghost predicate AsksFor(p: Principal, r: Request, e: Event) {
    && AllAgree(e, r.filters.Or([]))
    && exists k :: 0 <= k < |r.topics| && MayHave(p, Text.Trim(r.topics[k]), e)
  }

  ghost predicate MayHave(p: Principal, topic: string, e: Event) {
    topic in SUPPORTED_TOPICS && MaySubscribe(p, topic) && (topic == "*" || GoesUnder(e, topic))
  }

  ghost predicate LogMatches(log: seq<Subscription>, e: Event) {
    exists k :: 0 <= k < |log| && Matches(e, log[k])
  }

  lemma LogMatchesGrows(log: seq<Subscription>, s: Subscription, e: Event)
    ensures LogMatches(log + [s], e) <==> LogMatches(log, e) || Matches(e, s)
  {
    var all := log + [s];
    if LogMatches(log, e) {
      var k :| 0 <= k < |log| && Matches(e, log[k]);
      assert all[k] == log[k];
    }
    assert all[|log|] == s;
  }

  ghost predicate Wanted(p: Principal, topics: seq<string>, filters: Record, e: Event) {
    exists t :: t in topics && Acceptable(p, t) && Matches(e, Subscription(t, filters))
  }

  lemma {:induction false} TopicsMatch(
      log: seq<Subscription>, p: Principal, topics: seq<string>, filters: Record, e: Event)
    ensures LogMatches(LogTopics(log, p, topics, filters), e) <==>
            LogMatches(log, e) || Wanted(p, topics, filters, e)
  {
    if |topics| > 0 {
      var init, topic := topics[..|topics| - 1], topics[|topics| - 1];
      TopicsMatch(log, p, init, filters, e);
      assert topics == init + [topic];
      assert forall t :: t in topics <==> t in init || t == topic;
      LogMatchesGrows(LogTopics(log, p, init, filters), Subscription(topic, filters), e);
    }
  }

  lemma WantedIsAskedFor(p: Principal, r: Request, e: Event)
    ensures Wanted(p, Text.Unique(r.topics), NormalizedFilters(r), e) <==> AsksFor(p, r, e)
  {
    var given, kept := r.filters.Or([]), NormalizedFilters(r);
    UndefinedDemandsNothing(e, given);
    forall t ensures Matches(e, Subscription(t, kept)) <==> (t == "*" || GoesUnder(e, t)) && AllAgree(e, given) {
      MatchesExactly(e, Subscription(t, kept));
    }
    NamedTopics(r.topics, Gettable(p, e));
    TopicsThereAre("");
    assert forall t :: Gettable(p, e)(t) <==> Acceptable(p, t) && (t == "*" || GoesUnder(e, t));
  }

  ghost function Gettable(p: Principal, e: Event): string -> bool { t => MayHave(p, t, e) }

  /** The topics of a call are the trimmed names that are not blank. */
  lemma NamedTopics(topics: seq<string>, q: string -> bool)
    requires !q("")
    ensures (exists t :: t in Text.Unique(topics) && q(t)) <==> exists k :: 0 <= k < |topics| && q(Text.Trim(topics[k]))
  {
    if k :| 0 <= k < |topics| && q(Text.Trim(topics[k])) {
      assert Text.TrimAll(topics)[k] == Text.Trim(topics[k]);
    }
  }

  /** No later request replaces what request k has asked for. */
  ghost predicate StillAsked(requests: seq<Request>, k: nat) {
    forall j :: k < j < |requests| ==> !requests[j].replaceExisting
  }

  ghost predicate Asked(requests: seq<Request>, q: Request -> bool) {
    exists k :: 0 <= k < |requests| && q(requests[k]) && StillAsked(requests, k)
  }

  ghost function Asking(p: Principal, e: Event): Request -> bool { r => AsksFor(p, r, e) }

  lemma AskedLast(requests: seq<Request>, q: Request -> bool)
    requires |requests| > 0
    ensures var last := requests[|requests| - 1];
            Asked(requests, q) <==> q(last) || (!last.replaceExisting && Asked(requests[..|requests| - 1], q))
  {
    var last := |requests| - 1;
    var init := requests[..last];
    if Asked(requests, q) {
      var k :| 0 <= k < |requests| && q(requests[k]) && StillAsked(requests, k);
      if k < last {
        assert init[k] == requests[k] && StillAsked(init, k);
      }
    }
    if q(requests[last]) {
      assert StillAsked(requests, last);
    } else if !requests[last].replaceExisting && Asked(init, q) {
      var k :| 0 <= k < |init| && q(init[k]) && StillAsked(init, k);
      assert forall j :: k < j < last ==> init[j] == requests[j];
      assert requests[k] == init[k] && StillAsked(requests, k);
    }
  }

  lemma {:induction false} LogIsWhatWasAskedFor(p: Principal, requests: seq<Request>, e: Event)
    ensures LogMatches(Log(p, requests), e) <==> Asked(requests, Asking(p, e))
  {
    if |requests| > 0 {
      var init, r := requests[..|requests| - 1], requests[|requests| - 1];
      LogIsWhatWasAskedFor(p, init, e);
      TopicsMatch(if r.replaceExisting then [] else Log(p, init), p, Text.Unique(r.topics), NormalizedFilters(r), e);
      WantedIsAskedFor(p, r, e);
      AskedLast(requests, Asking(p, e));
    }
  }

  /**
   After any sequence of subscribe calls, a client is notified of an event exactly if it happened
   in the client's domain and some call no later one has replaced asked for it.
   */
  lemma NotifiedExactly(p: Principal, requests: seq<Request>, e: Event)
    ensures Notified(Run(p, requests), p, e) <==>
      && e.domain == p.domain
      && exists k :: 0 <= k < |requests| && AsksFor(p, requests[k], e) && StillAsked(requests, k)
  {
    DeduplicationLosesNothing(p, requests, e);
    LogIsWhatWasAskedFor(p, requests, e);
    assert Notified(Log(p, requests), p, e) <==> e.domain == p.domain && LogMatches(Log(p, requests), e);
  }

  /** The list never holds two canonically equal entries nor an unsupported or forbidden topic. */
  lemma ListStaysTidy(p: Principal, requests: seq<Request>)
    ensures var subs := Run(p, requests);
            && (forall i, j :: 0 <= i < j < |subs| ==>
                subs[i].topic != subs[j].topic || !SameFields(subs[i].filters, subs[j].filters))
            && (forall k :: 0 <= k < |subs| ==> subs[k].topic in SUPPORTED_TOPICS && MaySubscribe(p, subs[k].topic))
  {
    RunRepresentsLog(p, requests);
    TidyMeansDistinct(Run(p, requests), p);
  }

  lemma TidyMeansDistinct(subs: seq<Subscription>, p: Principal)
    requires Tidy(subs, p)
    ensures forall i, j :: 0 <= i < j < |subs| ==>
        subs[i].topic != subs[j].topic || !SameFields(subs[i].filters, subs[j].filters)
    ensures forall k :: 0 <= k < |subs| ==> subs[k].topic in SUPPORTED_TOPICS && MaySubscribe(p, subs[k].topic)
  {
    forall i, j | 0 <= i < j < |subs|
      ensures subs[i].topic != subs[j].topic || !SameFields(subs[i].filters, subs[j].filters)
    {
      SamenessIsFieldEquality(subs[i], subs[j]);
    }
  }

  lemma {:induction false} AllListed(subs: seq<Subscription>, p: Principal, topics: seq<string>, filters: Record)
    requires forall t :: t in topics && Acceptable(p, t) ==> Listed(subs, Subscription(t, filters))
    ensures AddTopics(subs, p, topics, filters) == subs
  {
    if |topics| > 0 {
      AllListed(subs, p, topics[..|topics| - 1], filters);
      assert topics[|topics| - 1] in topics;
    }
  }

  lemma TopicIsListed(subs: seq<Subscription>, p: Principal, topic: string, t: string, filters: Record)
    requires Acceptable(p, t) && (t == topic || Listed(subs, Subscription(t, filters)))
    ensures Listed(AddTopic(subs, p, topic, filters), Subscription(t, filters))
  {
    var s := Subscription(topic, filters);
    if Acceptable(p, topic) && !Listed(subs, s) {
      if t == topic {
        assert SameSubscription((subs + [s])[|subs|], s);
      } else {
        ListedGrows(subs, [s], Subscription(t, filters));
      }
    }
  }

  lemma {:induction false} AddedAreListed(subs: seq<Subscription>, p: Principal, topics: seq<string>, filters: Record)
    ensures forall t :: t in topics && Acceptable(p, t) ==>
        Listed(AddTopics(subs, p, topics, filters), Subscription(t, filters))
  {
    if |topics| > 0 {
      var init, topic := topics[..|topics| - 1], topics[|topics| - 1];
      AddedAreListed(subs, p, init, filters);
      assert topics == init + [topic];
      forall t | t in topics && Acceptable(p, t)
        ensures Listed(AddTopics(subs, p, topics, filters), Subscription(t, filters))
      {
        assert t in init || t == topic;
        TopicIsListed(AddTopics(subs, p, init, filters), p, topic, t, filters);
      }
    }
  }

  /** Repeating a call changes nothing. */
  lemma RepeatedCallAddsNothing(subs: seq<Subscription>, p: Principal, r: Request)
    ensures Subscribed(Subscribed(subs, p, r), p, r.(replaceExisting := false)) == Subscribed(subs, p, r)
    ensures r.replaceExisting ==> Subscribed(Subscribed(subs, p, r), p, r) == Subscribed(subs, p, r)
  {
    var topics := Text.Unique(r.topics);
    AddedAreListed(if r.replaceExisting then [] else subs, p, topics, NormalizedFilters(r));
    AllListed(Subscribed(subs, p, r), p, topics, NormalizedFilters(r));
  }

  /**
   Whatever it subscribes to, a session without the scopes admin, tenant:admin and audit:read is
   never notified of an event on an API key, webhook, AI provider or workforce agent.
   */
  lemma IntegrationEventsStayPrivate(p: Principal, requests: seq<Request>, e: Event)
    requires "admin" !in p.scopes && "tenant:admin" !in p.scopes && "audit:read" !in p.scopes
    requires e.entityType in INTEGRATIONS
    ensures !Notified(Run(p, requests), p, e)
  {
    RunRepresentsLog(p, requests);
    var subs := Run(p, requests);
    forall k | 0 <= k < |subs| ensures !Matches(e, subs[k]) {
      IntegrationEventsNeedScope(p, e, subs[k].topic);
    }
  }

  // ---------------------------------------------------------------- the session manager

  class SessionManager {
    var sessions: map<string, Session>

    constructor ()
      ensures sessions == map[]
    {
      sessions := map[];
    }

    method Register(id: string, session: Session)
      modifies this
      ensures sessions == old(sessions)[id := session]
    {
      sessions := sessions[id := session];
    }

    /** A session that has been superseded under its id does not evict its successor. */
    method Unregister(id: string, session: Session)
      modifies this
      ensures sessions
           == if id in old(sessions) && old(sessions)[id] == session then old(sessions) - {id} else old(sessions)
    {
      if id in sessions && sessions[id] == session {
        sessions := sessions - {id};
      }
    }

    method Close() returns (closing: set<Session>)
      modifies this
      ensures sessions == map[] && closing == old(sessions).Values
    {
      closing := sessions.Values;
      sessions := map[];
    }

    /** Hands an event to every registered session; returns the ids of those that notify their client. */
    method OnAuditEvent(e: Event) returns (notified: set<string>)
      ensures forall id :: id in notified <==>
        id in sessions && Notified(sessions[id].subscriptions, sessions[id].principal, e)
    {
      notified := {};
      var pending := sessions.Keys;
      while pending != {}
        invariant pending <= sessions.Keys
        invariant forall id :: id in notified <==>
          id in sessions && id !in pending && Notified(sessions[id].subscriptions, sessions[id].principal, e)
        decreases |pending|
      {
        var id :| id in pending;
        var matched := sessions[id].PublishAuditEvent(e);
        if |matched| > 0 {
          notified := notified + {id};
        }
        pending := pending - {id};
      }
    }
  }
}
