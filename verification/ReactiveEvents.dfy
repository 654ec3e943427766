/**
 Reactive topics: which topics an audit event has, which a principal may subscribe to, and which
 subscriptions match.
 */
module ReactiveEvents {
  import opened Outcomes
  import opened FilterJson
  import Text

  datatype Detail = Number(n: int) | Words(s: string) | Other

  /** An audit event with its details already parsed; a missing or unparsable field is not in the map. */
  datatype Event = Event(
    domain: int, entityType: string, action: string, entityId: int,
    actorId: Option<string>, actorType: Option<string>, details: map<string, Detail>)

  datatype Subscription = Subscription(topic: string, filters: Record)

  datatype Principal = Principal(domain: int, scopes: set<string>)

  const SUPPORTED_TOPICS: seq<string> := [
    "*", "audit.*",
    "content_item.*", "content_item.create", "content_item.update", "content_item.delete", "content_item.rollback",
    "content_item.approved", "content_item.published",
    "workflow.review.approved", "workflow.review.rejected",
    "content_type.*", "content_type.create", "content_type.update", "content_type.delete",
    "api_key.*", "api_key.create", "api_key.update", "api_key.delete",
    "webhook.*", "webhook.create", "webhook.update", "webhook.delete",
    "ai_provider_config.*", "ai_provider_config.create", "ai_provider_config.update", "ai_provider_config.delete",
    "workforce_agent.*", "workforce_agent.create", "workforce_agent.update", "workforce_agent.delete"]

  // ---------------------------------------------------------------- sameness

  predicate SameSubscription(a: Subscription, b: Subscription) {
    a.topic == b.topic && Serialize(a.filters) == Serialize(b.filters)
  }

  /** Sameness is topic equality and equality of the defined filter fields; in particular an equivalence. */
  lemma SamenessIsFieldEquality(a: Subscription, b: Subscription)
    ensures SameSubscription(a, b) <==> a.topic == b.topic && SameFields(a.filters, b.filters)
  {
    SerializationIsCanonical(a.filters, b.filters);
  }

  // ---------------------------------------------------------------- topics of an event

  const FAMILIES: set<string> :=
    {"content_item", "content_type", "api_key", "webhook", "ai_provider_config", "workforce_agent"}

  function DetailWords(e: Event, key: string): Option<string> {
    if key in e.details && e.details[key].Words? then Some(e.details[key].s) else None
  }

  /** The topics of an event. */
  ghost predicate HasTopic(e: Event, topic: string) {
    || topic == "audit.*"
    || topic == e.entityType + "." + e.action
    || (e.entityType in FAMILIES && topic == e.entityType + ".*")
    || (e.entityType == "content_item" && StatusTopic(DetailWords(e, "status"), DetailWords(e, "decision"), topic))
  }

  /** Adding to a set that keeps insertion order. */
  function WithTopic(topics: seq<string>, topic: string): (r: seq<string>)
    ensures topics <= r && (forall t :: t in r <==> t in topics || t == topic)
    ensures Text.NoRepeats(topics) ==> Text.NoRepeats(r)
  {
    if topic in topics then topics else topics + [topic]
  }

  ghost predicate StatusTopic(status: Option<string>, decision: Option<string>, topic: string) {
    || (topic == "content_item.published" && status == Some("published"))
    || (topic == "content_item.approved" && decision == Some("approved"))
    || (topic == "workflow.review.approved" && decision == Some("approved"))
    || (topic == "workflow.review.rejected" && decision == Some("rejected"))
  }

  method AddStatusTopics(
      start: seq<string>, status: Option<string>, decision: Option<string>)
    returns (topics: seq<string>)
    requires Text.NoRepeats(start)
    ensures start <= topics && Text.NoRepeats(topics)
    ensures forall t :: t in topics <==> t in start || StatusTopic(status, decision, t)
  {
    topics := start;
    if status == Some("published") {
      topics := WithTopic(topics, "content_item.published");
    }
    if decision == Some("approved") {
      topics := WithTopic(topics, "content_item.approved");
      topics := WithTopic(topics, "workflow.review.approved");
    }
    if decision == Some("rejected") {
      topics := WithTopic(topics, "workflow.review.rejected");
    }
  }

  /** Collects an event's topics one by one. */
  method DeriveTopics(e: Event) returns (topics: seq<string>)
    ensures forall t :: t in topics <==> HasTopic(e, t)
    ensures Text.NoRepeats(topics) && |topics| > 0 && topics[0] == "audit.*"
    ensures e.entityType + "." + e.action != "audit.*" ==> |topics| > 1 && topics[1] == e.entityType + "." + e.action
  {
    topics := WithTopic(["audit.*"], e.entityType + "." + e.action);
    if e.entityType in FAMILIES {
      topics := WithTopic(topics, e.entityType + ".*");
    }
    if e.entityType == "content_item" {
      topics := AddStatusTopics(topics, DetailWords(e, "status"), DetailWords(e, "decision"));
    }
  }

  const PRIORITY: seq<string> :=
    ["workflow.review.approved", "workflow.review.rejected", "content_item.published", "content_item.approved"]

  predicate CatchAll(topic: string) { topic == "audit.*" || topic == "content_item.*" }

  /** The first topic that is not a catch-all. */
  predicate FirstSpecific(topics: seq<string>, k: nat) {
    k < |topics| && !CatchAll(topics[k]) && forall j :: 0 <= j < k ==> CatchAll(topics[j])
  }

  lemma FirstIsOne(topics: seq<string>, k: nat)
    requires FirstSpecific(topics, k)
    ensures forall other: nat | FirstSpecific(topics, other) :: other == k
  {
  }

  predicate NoPriority(topics: seq<string>) {
    forall k :: 0 <= k < |PRIORITY| ==> PRIORITY[k] !in topics
  }

  /** The topic a notification is named after: the first by priority, otherwise the first that is not a catch-all. */
  method SelectCanonicalTopic(topics: seq<string>) returns (topic: string)
    ensures topic in topics || (|topics| == 0 && topic == "audit.*")
    ensures forall k :: 0 <= k < |PRIORITY| && PRIORITY[k] in topics ==> topic in PRIORITY[..k + 1]
    ensures NoPriority(topics) ==> forall k: nat | FirstSpecific(topics, k) :: topic == topics[k]
    ensures NoPriority(topics) && (forall k :: 0 <= k < |topics| ==> CatchAll(topics[k])) ==>
      topic == if |topics| > 0 then topics[0] else "audit.*"
  {
    for k := 0 to |PRIORITY|
      invariant forall j :: 0 <= j < k ==> PRIORITY[j] !in topics
    {
      if PRIORITY[k] in topics {
        return PRIORITY[k];
      }
    }
    for k := 0 to |topics|
      invariant forall j :: 0 <= j < k ==> CatchAll(topics[j])
    {
      if !CatchAll(topics[k]) {
        FirstIsOne(topics, k);
        return topics[k];
      }
    }
    topic := if |topics| > 0 then topics[0] else "audit.*";
  }

  // ---------------------------------------------------------------- matching

  predicate Falsy(v: Value) { v == Str("") || v == Num(0) }

  /** A text filter applies if it is truthy. */
  predicate TextAllows(filter: Option<Value>, actual: Option<string>) {
    filter.None? || Falsy(filter.value) || (actual.Some? && filter.value == Str(actual.value))
  }

  /** A numeric filter applies if it is defined. */
  predicate NumberAllows(filter: Option<Value>, actual: Option<int>) {
    filter.None? || (actual.Some? && filter.value == Num(actual.value))
  }

  function NumericDetail(e: Event, key: string): Option<int> {
    if key !in e.details then None
    else match e.details[key]
      case Number(n) => Some(n)
      case Words(s) => if Text.Trim(s) == "" then None else Text.ParseInt(Text.Trim(s))
      case Other => None
  }

  predicate FiltersAllow(e: Event, f: seq<Entry>) {
    && TextAllows(Get(f, EntityType), Some(e.entityType))
    && NumberAllows(Get(f, EntityId), Some(e.entityId))
    && TextAllows(Get(f, Action), Some(e.action))
    && TextAllows(Get(f, ActorId), e.actorId)
    && TextAllows(Get(f, ActorType), e.actorType)
    && NumberAllows(Get(f, ContentTypeId), NumericDetail(e, "contentTypeId"))
    && NumberAllows(Get(f, WorkflowTransitionId), NumericDetail(e, "workflowTransitionId"))
    && NumberAllows(Get(f, ReviewTaskId), NumericDetail(e, "reviewTaskId"))
    && TextAllows(Get(f, Status), DetailWords(e, "status"))
    && TextAllows(Get(f, Decision), DetailWords(e, "decision"))
  }

  ghost predicate Matches(e: Event, s: Subscription) {
    (s.topic == "*" || HasTopic(e, s.topic)) && FiltersAllow(e, DropUndefined(s.filters))
  }

  /** Undefined entries do not matter, and equal subscriptions match the same events. */
  lemma SameSubscriptionsMatchAlike(e: Event, a: Subscription, b: Subscription)
    requires SameSubscription(a, b)
    ensures Matches(e, a) <==> Matches(e, b)
  {
    SamenessIsFieldEquality(a, b);
    DropUndefinedKeepsFields(a.filters);
    DropUndefinedKeepsFields(b.filters);
    forall f ensures Get(DropUndefined(a.filters), f) == Get(DropUndefined(b.filters), f) {
      assert Get(a.filters, f) == Get(b.filters, f);
    }
  }

  // ---------------------------------------------------------------- what matching means

  /** The event's details give this word under this key. */
  ghost predicate Says(e: Event, key: string, word: string) { key in e.details && e.details[key] == Words(word) }

  /** The event's details give this number under this key, as a number or as its text. */
  ghost predicate Counts(e: Event, key: string, n: int) {
    && key in e.details
    && (e.details[key] == Number(n)
        || (e.details[key].Words? && Text.ParseInt(Text.Trim(e.details[key].s)) == Some(n)))
  }

  /** The event goes out under this topic. */
  ghost predicate GoesUnder(e: Event, topic: string) {
    || topic == "audit.*"
    || topic == e.entityType + "." + e.action
    || (topic == "content_item.*" && e.entityType == "content_item")
    || (topic == "content_type.*" && e.entityType == "content_type")
    || (topic == "api_key.*" && e.entityType == "api_key")
    || (topic == "webhook.*" && e.entityType == "webhook")
    || (topic == "ai_provider_config.*" && e.entityType == "ai_provider_config")
    || (topic == "workforce_agent.*" && e.entityType == "workforce_agent")
    || (topic == "content_item.published" && e.entityType == "content_item" && Says(e, "status", "published"))
    || (topic == "content_item.approved" && e.entityType == "content_item" && Says(e, "decision", "approved"))
    || (topic == "workflow.review.approved" && e.entityType == "content_item" && Says(e, "decision", "approved"))
    || (topic == "workflow.review.rejected" && e.entityType == "content_item" && Says(e, "decision", "rejected"))
  }

  /** What one filter entry demands of the event. A text that is empty demands nothing. */
  ghost predicate Agrees(e: Event, field: Field, v: Value) {
    match field
    case EntityType => v == Str("") || v == Num(0) || v == Str(e.entityType)
    case Action => v == Str("") || v == Num(0) || v == Str(e.action)
    case ActorId => v == Str("") || v == Num(0) || (v.Str? && e.actorId == Some(v.s))
    case ActorType => v == Str("") || v == Num(0) || (v.Str? && e.actorType == Some(v.s))
    case Status => v == Str("") || v == Num(0) || (v.Str? && Says(e, "status", v.s))
    case Decision => v == Str("") || v == Num(0) || (v.Str? && Says(e, "decision", v.s))
    case EntityId => v == Num(e.entityId)
    case ContentTypeId => v.Num? && Counts(e, "contentTypeId", v.n)
    case WorkflowTransitionId => v.Num? && Counts(e, "workflowTransitionId", v.n)
    case ReviewTaskId => v.Num? && Counts(e, "reviewTaskId", v.n)
  }

  ghost predicate AllAgree(e: Event, filters: seq<Entry>) {
    forall k :: 0 <= k < |filters| && filters[k].value.Some? ==> Agrees(e, filters[k].field, filters[k].value.value)
  }

  lemma UndefinedDemandsNothing(e: Event, filters: seq<Entry>)
    ensures AllAgree(e, DropUndefined(filters)) <==> AllAgree(e, filters)
  {
    var kept := DropUndefined(filters);
    if AllAgree(e, kept) {
      forall k | 0 <= k < |filters| && filters[k].value.Some?
        ensures Agrees(e, filters[k].field, filters[k].value.value)
      {
        assert filters[k] in kept;
        var j :| 0 <= j < |kept| && kept[j] == filters[k];
      }
    }
    if AllAgree(e, filters) {
      forall k | 0 <= k < |kept| && kept[k].value.Some? ensures Agrees(e, kept[k].field, kept[k].value.value) {
        assert kept[k] in filters;
        var j :| 0 <= j < |filters| && filters[j] == kept[k];
      }
    }
  }

  lemma {:induction false} GetIsEntry(r: Record, k: nat)
    requires k < |r|
    ensures Get(r, r[k].field) == r[k].value
  {
    if k > 0 {
      GetIsEntry(r[1..], k - 1);
    }
  }

  lemma {:induction false} GetSomeEntry(r: Record, f: Field) returns (k: nat)
    requires Get(r, f).Some?
    ensures k < |r| && r[k] == Entry(f, Get(r, f))
  {
    if r[0].field == f {
      k := 0;
    } else {
      var j := GetSomeEntry(r[1..], f);
      k := j + 1;
    }
  }

  ghost predicate FieldAgrees(e: Event, filters: seq<Entry>, f: Field) {
    Get(filters, f).Some? ==> Agrees(e, f, Get(filters, f).value)
  }

  lemma FieldsAgree(e: Event, filters: Record)
    ensures AllAgree(e, filters) <==> forall f :: FieldAgrees(e, filters, f)
  {
    if AllAgree(e, filters) {
      forall f ensures FieldAgrees(e, filters, f) {
        if Get(filters, f).Some? {
          var k := GetSomeEntry(filters, f);
        }
      }
    }
    if forall f :: FieldAgrees(e, filters, f) {
      forall k | 0 <= k < |filters| && filters[k].value.Some?
        ensures Agrees(e, filters[k].field, filters[k].value.value)
      {
        GetIsEntry(filters, k);
        assert FieldAgrees(e, filters, filters[k].field);
      }
    }
  }

  lemma FieldByField(e: Event, f: seq<Entry>)
    ensures FiltersAllow(e, f) <==>
      && FieldAgrees(e, f, EntityType) && FieldAgrees(e, f, EntityId) && FieldAgrees(e, f, Action)
      && FieldAgrees(e, f, ActorId) && FieldAgrees(e, f, ActorType) && FieldAgrees(e, f, ContentTypeId)
      && FieldAgrees(e, f, WorkflowTransitionId) && FieldAgrees(e, f, ReviewTaskId)
      && FieldAgrees(e, f, Status) && FieldAgrees(e, f, Decision)
  {
  }

  lemma TopicsOfEvent(e: Event, topic: string)
    ensures HasTopic(e, topic) <==> GoesUnder(e, topic)
  {
  }

  lemma AllowedExactly(e: Event, filters: Record)
    ensures FiltersAllow(e, DropUndefined(filters)) <==> AllAgree(e, filters)
  {
    var dropped := DropUndefined(filters);
    DropUndefinedKeepsFields(filters);
    FieldByField(e, dropped);
    FieldsAgree(e, dropped);
    UndefinedDemandsNothing(e, filters);
    EveryField(e, dropped);
  }

  lemma EveryField(e: Event, f: seq<Entry>)
    ensures (forall field :: FieldAgrees(e, f, field)) <==>
      && FieldAgrees(e, f, EntityType) && FieldAgrees(e, f, EntityId) && FieldAgrees(e, f, Action)
      && FieldAgrees(e, f, ActorId) && FieldAgrees(e, f, ActorType) && FieldAgrees(e, f, ContentTypeId)
      && FieldAgrees(e, f, WorkflowTransitionId) && FieldAgrees(e, f, ReviewTaskId)
      && FieldAgrees(e, f, Status) && FieldAgrees(e, f, Decision)
  {
  }

  /**
   A subscription matches an event exactly if its topic is the star or one the event goes out
   under, and every defined entry of its own record agrees with the event.
   */
  lemma MatchesExactly(e: Event, s: Subscription)
    ensures Matches(e, s) <==> (s.topic == "*" || GoesUnder(e, s.topic)) && AllAgree(e, s.filters)
  {
    TopicsOfEvent(e, s.topic);
    AllowedExactly(e, s.filters);
  }

  // ---------------------------------------------------------------- permissions

  predicate HasScope(p: Principal, scope: string) { "admin" in p.scopes || scope in p.scopes }

  /** `topic` is `family.*` or begins with `family.`; the former is a case of the latter. */
  predicate InFamily(topic: string, family: string) {
    topic == family + ".*" || Text.StartsWith(topic, family + ".")
  }

  predicate ContentTopic(topic: string) {
    InFamily(topic, "content_item") || InFamily(topic, "content_type") || Text.StartsWith(topic, "workflow.review.")
  }

  predicate IntegrationTopic(topic: string) {
    || InFamily(topic, "api_key") || InFamily(topic, "webhook")
    || InFamily(topic, "ai_provider_config") || InFamily(topic, "workforce_agent")
  }

  predicate MaySubscribe(p: Principal, topic: string) {
    if topic == "*" then "admin" in p.scopes
    else if topic == "audit.*" then HasScope(p, "audit:read")
    else if ContentTopic(topic) then HasScope(p, "content:read") || HasScope(p, "content:write")
    else if IntegrationTopic(topic) then "admin" in p.scopes || "tenant:admin" in p.scopes
    else false
  }

  lemma ContentTopics(topic: string)
    requires topic in CONTENT_TOPICS
    ensures ContentTopic(topic) && topic != "*" && topic != "audit.*"
  {
  }

  lemma ApiKeyTopics(topic: string)
    requires topic in API_KEY_TOPICS
    ensures InFamily(topic, "api_key") && topic != "*" && topic != "audit.*"
  {
  }

  lemma WebhookTopics(topic: string)
    requires topic in WEBHOOK_TOPICS
    ensures InFamily(topic, "webhook") && topic != "*" && topic != "audit.*"
  {
  }

  lemma AiProviderTopics(topic: string)
    requires topic in AI_PROVIDER_TOPICS
    ensures InFamily(topic, "ai_provider_config") && topic != "*" && topic != "audit.*"
  {
  }

  lemma WorkforceTopics(topic: string)
    requires topic in WORKFORCE_TOPICS
    ensures InFamily(topic, "workforce_agent") && topic != "*" && topic != "audit.*"
  {
  }

  lemma IntegrationTopics(topic: string)
    requires topic in INTEGRATION_TOPICS
    ensures IntegrationTopic(topic) && topic != "*" && topic != "audit.*"
  {
    if topic in API_KEY_TOPICS {
      ApiKeyTopics(topic);
    } else if topic in WEBHOOK_TOPICS {
      WebhookTopics(topic);
    } else if topic in AI_PROVIDER_TOPICS {
      AiProviderTopics(topic);
    } else {
      WorkforceTopics(topic);
    }
  }

  lemma NoContentTopic(topic: string)
    requires Text.Before(topic, '.') in INTEGRATIONS
    ensures !ContentTopic(topic)
  {
    IntegrationsAreApart(Text.Before(topic, '.'));
    if ContentTopic(topic) {
      ContentTopicFamily(topic);
    }
  }

  /** Who may subscribe to each topic there is. */
  lemma SubscribersExactly(p: Principal, topic: string)
    ensures topic == "*" ==> (MaySubscribe(p, topic) <==> "admin" in p.scopes)
    ensures topic == "audit.*" ==> (MaySubscribe(p, topic) <==> "admin" in p.scopes || "audit:read" in p.scopes)
    ensures topic in CONTENT_TOPICS ==>
      (MaySubscribe(p, topic) <==> "admin" in p.scopes || "content:read" in p.scopes || "content:write" in p.scopes)
    ensures topic in INTEGRATION_TOPICS ==>
      (MaySubscribe(p, topic) <==> "admin" in p.scopes || "tenant:admin" in p.scopes)
  {
    if topic in CONTENT_TOPICS {
      ContentTopics(topic);
    } else if topic in INTEGRATION_TOPICS {
      IntegrationTopics(topic);
      IntegrationTopicFamily(topic);
      NoContentTopic(topic);
    }
  }

  lemma TopicsThereAre(topic: string)
    ensures topic in SUPPORTED_TOPICS <==>
      topic == "*" || topic == "audit.*" || topic in CONTENT_TOPICS || topic in INTEGRATION_TOPICS
  {
    assert SUPPORTED_TOPICS == ["*", "audit.*"] + CONTENT_TOPICS + INTEGRATION_TOPICS;
  }

  lemma IntegrationTopicFamily(topic: string)
    requires IntegrationTopic(topic)
    ensures Text.Before(topic, '.') in INTEGRATIONS
  {
    if InFamily(topic, "api_key") {
      FamilyIsBeforeDot(topic, "api_key");
    } else if InFamily(topic, "webhook") {
      FamilyIsBeforeDot(topic, "webhook");
    } else if InFamily(topic, "ai_provider_config") {
      FamilyIsBeforeDot(topic, "ai_provider_config");
    } else {
      FamilyIsBeforeDot(topic, "workforce_agent");
    }
  }

  const CONTENT_TOPICS: seq<string> := [
    "content_item.*", "content_item.create", "content_item.update", "content_item.delete", "content_item.rollback",
    "content_item.approved", "content_item.published", "workflow.review.approved", "workflow.review.rejected",
    "content_type.*", "content_type.create", "content_type.update", "content_type.delete"]

  const API_KEY_TOPICS: seq<string> := ["api_key.*", "api_key.create", "api_key.update", "api_key.delete"]

  const WEBHOOK_TOPICS: seq<string> := ["webhook.*", "webhook.create", "webhook.update", "webhook.delete"]

  const AI_PROVIDER_TOPICS: seq<string> := [
    "ai_provider_config.*", "ai_provider_config.create", "ai_provider_config.update", "ai_provider_config.delete"]

  const WORKFORCE_TOPICS: seq<string> := [
    "workforce_agent.*", "workforce_agent.create", "workforce_agent.update", "workforce_agent.delete"]

  const INTEGRATION_TOPICS: seq<string> := API_KEY_TOPICS + WEBHOOK_TOPICS + AI_PROVIDER_TOPICS + WORKFORCE_TOPICS

  /** A family is what stands before a topic's first dot. */
  lemma FamilyIsBeforeDot(topic: string, family: string)
    requires InFamily(topic, family) && '.' !in family
    ensures Text.Before(topic, '.') == family
  {
    if topic == family + ".*" {
      assert topic == family + ['.'] + "*";
      Text.BeforeSeparator(family, '.', "*");
    } else {
      assert topic == family + ['.'] + topic[|family| + 1..];
      Text.BeforeSeparator(family, '.', topic[|family| + 1..]);
    }
  }

  lemma ReviewIsBeforeDot(topic: string)
    requires Text.StartsWith(topic, "workflow.review.")
    ensures Text.Before(topic, '.') == "workflow"
  {
    assert "workflow.review." == "workflow" + ['.'] + "review.";
    assert topic == "workflow" + ['.'] + ("review." + topic[16..]);
    Text.BeforeSeparator("workflow", '.', "review." + topic[16..]);
  }

  lemma ContentTopicFamily(topic: string)
    requires ContentTopic(topic)
    ensures Text.Before(topic, '.') in {"content_item", "content_type", "workflow"}
  {
    if InFamily(topic, "content_item") {
      FamilyIsBeforeDot(topic, "content_item");
    } else if InFamily(topic, "content_type") {
      FamilyIsBeforeDot(topic, "content_type");
    } else {
      ReviewIsBeforeDot(topic);
    }
  }

  lemma EventTopicFamily(e: Event, topic: string)
    requires '.' !in e.entityType && e.entityType != "content_item"
    requires HasTopic(e, topic) && topic != "audit.*"
    ensures Text.Before(topic, '.') == e.entityType
  {
    assert e.entityType + "." + e.action == e.entityType + ['.'] + e.action;
    assert e.entityType + ".*" == e.entityType + ['.'] + "*";
    Text.BeforeSeparator(e.entityType, '.', e.action);
    Text.BeforeSeparator(e.entityType, '.', "*");
  }

  const INTEGRATIONS: set<string> := {"api_key", "webhook", "ai_provider_config", "workforce_agent"}

  lemma IntegrationsAreApart(entity: string)
    requires entity in INTEGRATIONS
    ensures '.' !in entity && entity !in {"content_item", "content_type", "workflow"}
  {
  }

  /**
   A principal without the scopes admin, tenant:admin and audit:read may only subscribe to topics
   that no event on an integration entity (API keys, webhooks, AI providers, workforce agents) has.
   */
  lemma IntegrationEventsNeedScope(p: Principal, e: Event, topic: string)
    requires "admin" !in p.scopes && "tenant:admin" !in p.scopes && "audit:read" !in p.scopes
    requires e.entityType in INTEGRATIONS && MaySubscribe(p, topic)
    ensures topic != "*" && !HasTopic(e, topic)
  {
    IntegrationsAreApart(e.entityType);
    ContentTopicFamily(topic);
    if topic != "audit.*" && HasTopic(e, topic) {
      EventTopicFamily(e, topic);
    }
  }
}
