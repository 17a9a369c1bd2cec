/**
 * `DynamicKafkaMessageProcessor`: one listener container per subscribed
 * topic, created at run time. A container consumes its topic and runs every
 * record through the enabled configurations of that topic that were read
 * when the container was created: rule, then throttle, then the "call"
 * actions.
 *
 * Starting or stopping a container talks to Kafka and may throw; each such
 * outcome is a nondeterministic choice here, and the state after a failure
 * is the one the source leaves behind.
 */
module DynamicProcessor {
  import opened Text
  import opened Json
  import opened Model
  import RuleEngine
  import opened Throttling
  import opened Notification

  /** A listener container: its topic, the configurations it was created with, and whether it is running. */
  datatype Container = Container(topic: string, configurations: seq<NotifierConfiguration>, running: bool)

  /** `executeAction` runs an action only when its type is "call", in any case. */
  predicate IsCall(action: NotificationAction)
  {
    EqualsIgnoreCase(action.kind, "call")
  }

  /** The topics of the enabled configurations: the topics that should be consumed. */
  function EnabledTopics(docs: seq<NotifierConfiguration>): (r: set<string>)
    ensures forall t :: t in r <==> exists c :: c in docs && c.enabled && c.topic == t
  {
    set c | c in Select(docs, IsEnabled) :: c.topic
  }

  // ---------------------------------------------------------------- what one record causes

  /** The "call" actions among `actions`, in order: the ones `executeAction` hands to the notification service. */
  function Calls(actions: seq<NotificationAction>): (r: seq<NotificationAction>)
    ensures |r| <= |actions|
    ensures forall a :: a in r <==> a in actions && IsCall(a)
  {
    if actions == [] then []
    else (if IsCall(actions[0]) then [actions[0]] else []) + Calls(actions[1..])
  }

  /** The Slack posts the notification service makes for `actions`, in order. */
  function Posts(actions: seq<NotificationAction>, message: string, readTree: JsonReader): (r: seq<SlackMessage>)
    ensures |r| <= |actions|
  {
    if actions == [] then []
    else Outgoing(actions[0], message, readTree) + Posts(actions[1..], message, readTree)
  }

  /** Running two lists of actions one after the other posts what each posts, in that order. */
  lemma {:induction false} PostsAppend(a: seq<NotificationAction>, b: seq<NotificationAction>, message: string, readTree: JsonReader)
    ensures Posts(a + b, message, readTree) == Posts(a, message, readTree) + Posts(b, message, readTree)
  {
    if a == [] {
      assert a + b == b;
    } else {
      assert (a + b)[0] == a[0];
      assert (a + b)[1..] == a[1..] + b;
      PostsAppend(a[1..], b, message, readTree);
    }
  }

  /** The topic sets of a refresh: the stops, then the starts computed from what is left. */
  lemma RefreshTopicSets(before: set<string>, required: set<string>, failedStops: set<string>, failedStarts: set<string>)
    requires failedStops <= before - required
    requires failedStarts <= required - (before - (before - required) + failedStops)
    ensures failedStarts <= required - before
    ensures var middle := before - (before - required) + failedStops;
      middle + ((required - middle) - failedStarts) == (before * required) + failedStops + (required - before - failedStarts)
  {
  }

  /** Running the calls from position `j` on is running the one at `j`, if it is a call, then the rest. */
  lemma PostsOfCallsStep(actions: seq<NotificationAction>, j: nat, message: string, readTree: JsonReader)
    requires j < |actions|
    ensures Posts(Calls(actions[j..]), message, readTree)
      == (if IsCall(actions[j]) then Outgoing(actions[j], message, readTree) else [])
         + Posts(Calls(actions[j + 1..]), message, readTree)
  {
    var head := if IsCall(actions[j]) then [actions[j]] else [];
    assert actions[j..][0] == actions[j] && actions[j..][1..] == actions[j + 1..];
    assert Calls(actions[j..]) == head + Calls(actions[j + 1..]);
    PostsAppend(head, Calls(actions[j + 1..]), message, readTree);
    if IsCall(actions[j]) {
      assert head[1..] == [];
    }
  }

  /** Posts already sent followed by those of the calls from position j on: the call at j's posts are sent first. */
  lemma SentAfterCallStep(sent: seq<SlackMessage>, actions: seq<NotificationAction>, j: nat, message: string, readTree: JsonReader)
    requires j < |actions|
    ensures sent + Posts(Calls(actions[j..]), message, readTree)
      == (sent + (if IsCall(actions[j]) then Outgoing(actions[j], message, readTree) else []))
         + Posts(Calls(actions[j + 1..]), message, readTree)
  {
    var posted := if IsCall(actions[j]) then Outgoing(actions[j], message, readTree) else [];
    var rest := Posts(Calls(actions[j + 1..]), message, readTree);
    PostsOfCallsStep(actions, j, message, readTree);
    SentInOrder(sent, posted, rest);
  }

  /** Posts already sent followed by those of two action lists: the first list's posts are sent first. */
  lemma SentAfterAppend(sent: seq<SlackMessage>, a: seq<NotificationAction>, b: seq<NotificationAction>,
                        message: string, readTree: JsonReader)
    ensures sent + Posts(a + b, message, readTree) == (sent + Posts(a, message, readTree)) + Posts(b, message, readTree)
  {
    var first := Posts(a, message, readTree);
    var second := Posts(b, message, readTree);
    PostsAppend(a, b, message, readTree);
    SentInOrder(sent, first, second);
  }

  /** Appending two batches of posts to the log at once is appending one after the other. */
  lemma SentInOrder(sent: seq<SlackMessage>, first: seq<SlackMessage>, second: seq<SlackMessage>)
    ensures sent + (first + second) == (sent + first) + second
  {
  }

  /** Which configurations' rules hold for a record: `evaluateRules` on each. */
  function RulesHold(message: string, readTree: JsonReader): NotifierConfiguration -> bool
  {
    (c: NotifierConfiguration) => RuleEngine.EvaluateRules(c.rules, message, readTree)
  }

  /**
   * `processConfigurationForMessage`: a configuration whose rule fails does
   * nothing and is not throttled; otherwise it takes a permit and, when
   * allowed, executes its actions. A rejected throttle setting is an
   * exception the method catches. `matches` is the rule verdict of each
   * configuration for the record (`RulesHold` in the processor); the result
   * is the throttle state after it and the actions it executed.
   */
  function ConfigOutcome(st: ThrottleState, defaults: Settings, config: NotifierConfiguration,
                         matches: NotifierConfiguration -> bool, now: int): (r: (ThrottleState, seq<NotificationAction>))
    requires SoundState(st) && ValidSettings(defaults.period, defaults.permits)
    ensures SoundState(r.0)
  {
    if !matches(config) then (st, [])
    else
      var throttled := ThrottleConfig(st, defaults, config, now);
      (throttled.0, if throttled.1 == Allowed then Calls(config.actions) else [])
  }

  /** `processMessage`: the configurations in order, each seeing the throttle state the previous ones left. */
  function Dispatch(st: ThrottleState, defaults: Settings, configs: seq<NotifierConfiguration>,
                    matches: NotifierConfiguration -> bool, now: int): (r: (ThrottleState, seq<NotificationAction>))
    requires SoundState(st) && ValidSettings(defaults.period, defaults.permits)
    ensures SoundState(r.0)
    decreases |configs|
  {
    if configs == [] then (st, [])
    else
      var first := ConfigOutcome(st, defaults, configs[0], matches, now);
      var rest := Dispatch(first.0, defaults, configs[1..], matches, now);
      (rest.0, first.1 + rest.1)
  }

  // ---------------------------------------------------------------- properties of dispatch

  /** Dispatching two lists one after the other is dispatching their concatenation. */
  lemma {:induction false} DispatchAppend(st: ThrottleState, defaults: Settings, a: seq<NotifierConfiguration>,
                                          b: seq<NotifierConfiguration>, matches: NotifierConfiguration -> bool, now: int)
    requires SoundState(st) && ValidSettings(defaults.period, defaults.permits)
    ensures var first := Dispatch(st, defaults, a, matches, now);
            var second := Dispatch(first.0, defaults, b, matches, now);
            Dispatch(st, defaults, a + b, matches, now) == (second.0, first.1 + second.1)
    decreases |a|
  {
    if a == [] {
      assert a + b == b;
      var second := Dispatch(st, defaults, b, matches, now);
      assert Dispatch(st, defaults, a, matches, now) == (st, []);
      assert [] + second.1 == second.1;
    } else {
      assert (a + b)[0] == a[0];
      assert (a + b)[1..] == a[1..] + b;
      var step := ConfigOutcome(st, defaults, a[0], matches, now);
      DispatchAppend(step.0, defaults, a[1..], b, matches, now);
      var tail := Dispatch(step.0, defaults, a[1..], matches, now);
      var second := Dispatch(tail.0, defaults, b, matches, now);
      assert step.1 + (tail.1 + second.1) == (step.1 + tail.1) + second.1;
    }
  }

  /** Configurations whose rules all fail leave the throttle state alone and execute nothing. */
  lemma {:induction false} NoMatchNoEffect(st: ThrottleState, defaults: Settings, configs: seq<NotifierConfiguration>,
                                           matches: NotifierConfiguration -> bool, now: int)
    requires SoundState(st) && ValidSettings(defaults.period, defaults.permits)
    requires forall c :: c in configs ==> !matches(c)
    ensures Dispatch(st, defaults, configs, matches, now) == (st, [])
    decreases |configs|
  {
    if configs != [] {
      assert configs[0] in configs;
      assert forall c :: c in configs[1..] ==> c in configs;
      NoMatchNoEffect(st, defaults, configs[1..], matches, now);
      var first := ConfigOutcome(st, defaults, configs[0], matches, now);
      assert first == (st, []);
      var rest := Dispatch(first.0, defaults, configs[1..], matches, now);
      assert Dispatch(st, defaults, configs, matches, now) == (rest.0, first.1 + rest.1);
      assert first.1 + rest.1 == [];
    }
  }

  /**
   * Action `a` comes from the configuration at position k: its rule holds
   * for the record, `a` is one of its actions, and its throttle check, in the
   * state the configurations before it left, allowed it.
   */
  predicate FiredBy(a: NotificationAction, st: ThrottleState, defaults: Settings, configs: seq<NotifierConfiguration>,
                    matches: NotifierConfiguration -> bool, now: int, k: int)
    requires SoundState(st) && ValidSettings(defaults.period, defaults.permits)
  {
    0 <= k < |configs| && matches(configs[k]) && a in configs[k].actions
    && ThrottleConfig(Dispatch(st, defaults, configs[..k], matches, now).0, defaults, configs[k], now).1 == Allowed
  }

  /**
   * Every executed action is a "call" action of a configuration whose rule
   * holds for the record and whose throttle check allowed it.
   */
  lemma {:induction false} ExecutedAreMatchingCalls(st: ThrottleState, defaults: Settings, configs: seq<NotifierConfiguration>,
                                                    matches: NotifierConfiguration -> bool, now: int)
    requires SoundState(st) && ValidSettings(defaults.period, defaults.permits)
    ensures forall a :: a in Dispatch(st, defaults, configs, matches, now).1 ==>
      IsCall(a) && exists k :: FiredBy(a, st, defaults, configs, matches, now, k)
    decreases |configs|
  {
    if configs != [] {
      var step := ConfigOutcome(st, defaults, configs[0], matches, now);
      var rest := Dispatch(step.0, defaults, configs[1..], matches, now);
      ExecutedAreMatchingCalls(step.0, defaults, configs[1..], matches, now);
      forall a | a in Dispatch(st, defaults, configs, matches, now).1
        ensures IsCall(a) && exists k :: FiredBy(a, st, defaults, configs, matches, now, k)
      {
        assert a in step.1 + rest.1;
        if a in step.1 {
          FiredByFirst(a, st, defaults, configs, matches, now);
        } else {
          var j :| FiredBy(a, step.0, defaults, configs[1..], matches, now, j);
          FiredByLater(a, st, defaults, configs, matches, now, j);
        }
      }
    }
  }

  /** An action the first configuration executes comes from it. */
  lemma FiredByFirst(a: NotificationAction, st: ThrottleState, defaults: Settings, configs: seq<NotifierConfiguration>,
                     matches: NotifierConfiguration -> bool, now: int)
    requires SoundState(st) && ValidSettings(defaults.period, defaults.permits)
    requires configs != [] && a in ConfigOutcome(st, defaults, configs[0], matches, now).1
    ensures IsCall(a) && FiredBy(a, st, defaults, configs, matches, now, 0)
  {
    assert configs[..0] == [];
  }

  /** An action that a later configuration executes, in the state the first one left, comes from it. */
  lemma FiredByLater(a: NotificationAction, st: ThrottleState, defaults: Settings, configs: seq<NotifierConfiguration>,
                     matches: NotifierConfiguration -> bool, now: int, j: int)
    requires SoundState(st) && ValidSettings(defaults.period, defaults.permits)
    requires configs != []
    requires FiredBy(a, ConfigOutcome(st, defaults, configs[0], matches, now).0, defaults, configs[1..], matches, now, j)
    ensures FiredBy(a, st, defaults, configs, matches, now, j + 1)
  {
    var step := ConfigOutcome(st, defaults, configs[0], matches, now);
    var prefix := configs[..j + 1];
    assert prefix[0] == configs[0] && prefix[1..] == configs[1..][..j];
    assert Dispatch(st, defaults, prefix, matches, now).0 == Dispatch(step.0, defaults, configs[1..][..j], matches, now).0;
    assert configs[j + 1] == configs[1..][j];
  }

  /**
   * What the configuration at position k executes: its "call" actions when
   * its rule holds and its throttle check, in the state the configurations
   * before it left, allows it; nothing otherwise.
   */
  function FiredAt(st: ThrottleState, defaults: Settings, configs: seq<NotifierConfiguration>,
                   matches: NotifierConfiguration -> bool, now: int, k: nat): seq<NotificationAction>
    requires SoundState(st) && ValidSettings(defaults.period, defaults.permits)
    requires k < |configs|
  {
    var before := Dispatch(st, defaults, configs[..k], matches, now).0;
    if matches(configs[k]) && ThrottleConfig(before, defaults, configs[k], now).1 == Allowed
    then Calls(configs[k].actions) else []
  }

  /** What the first n configurations execute, position by position. */
  function FiredUpTo(st: ThrottleState, defaults: Settings, configs: seq<NotifierConfiguration>,
                     matches: NotifierConfiguration -> bool, now: int, n: nat): seq<NotificationAction>
    requires SoundState(st) && ValidSettings(defaults.period, defaults.permits)
    requires n <= |configs|
  {
    if n == 0 then [] else FiredUpTo(st, defaults, configs, matches, now, n - 1) + FiredAt(st, defaults, configs, matches, now, n - 1)
  }

  /**
   * `processMessage` executes, in list order, exactly the "call" actions of
   * each configuration whose rule holds and whose throttle check allowed it.
   */
  lemma {:induction false} ExecutedInOrder(st: ThrottleState, defaults: Settings, configs: seq<NotifierConfiguration>,
                                           matches: NotifierConfiguration -> bool, now: int, n: nat)
    requires SoundState(st) && ValidSettings(defaults.period, defaults.permits)
    requires n <= |configs|
    ensures Dispatch(st, defaults, configs[..n], matches, now).1 == FiredUpTo(st, defaults, configs, matches, now, n)
    decreases n
  {
    if n == 0 {
      assert configs[..0] == [];
    } else {
      var k := n - 1;
      ExecutedInOrder(st, defaults, configs, matches, now, k);
      assert configs[..n] == configs[..k] + [configs[k]];
      DispatchOneMore(st, defaults, configs[..k], configs[k], matches, now);
    }
  }

  /** Dispatching one more configuration appends what it executes in the state the others left. */
  lemma DispatchOneMore(st: ThrottleState, defaults: Settings, earlier: seq<NotifierConfiguration>, c: NotifierConfiguration,
                        matches: NotifierConfiguration -> bool, now: int)
    requires SoundState(st) && ValidSettings(defaults.period, defaults.permits)
    ensures var before := Dispatch(st, defaults, earlier, matches, now);
            Dispatch(st, defaults, earlier + [c], matches, now).1
              == before.1 + ConfigOutcome(before.0, defaults, c, matches, now).1
  {
    DispatchAppend(st, defaults, earlier, [c], matches, now);
    var before := Dispatch(st, defaults, earlier, matches, now);
    var last := ConfigOutcome(before.0, defaults, c, matches, now);
    assert [c][1..] == [];
    assert Dispatch(before.0, defaults, [c], matches, now) == (last.0, last.1 + []);
  }

  /** The calls of one position are among those of any longer run. */
  lemma {:induction false} FiredWithin(st: ThrottleState, defaults: Settings, configs: seq<NotifierConfiguration>,
                                       matches: NotifierConfiguration -> bool, now: int, a: NotificationAction, k: nat, n: nat)
    requires SoundState(st) && ValidSettings(defaults.period, defaults.permits)
    requires k < n <= |configs|
    requires a in FiredAt(st, defaults, configs, matches, now, k)
    ensures a in FiredUpTo(st, defaults, configs, matches, now, n)
    decreases n
  {
    var earlier := FiredUpTo(st, defaults, configs, matches, now, n - 1);
    var last := FiredAt(st, defaults, configs, matches, now, n - 1);
    assert FiredUpTo(st, defaults, configs, matches, now, n) == earlier + last;
    if k < n - 1 {
      FiredWithin(st, defaults, configs, matches, now, a, k, n - 1);
      assert a in earlier;
    } else {
      assert a in last;
    }
  }

  /**
   * The converse of `ExecutedAreMatchingCalls`: every "call" action of a
   * configuration whose rule holds and whose throttle check allowed it is
   * executed.
   */
  lemma MatchingCallsExecuted(st: ThrottleState, defaults: Settings, configs: seq<NotifierConfiguration>,
                              matches: NotifierConfiguration -> bool, now: int)
    requires SoundState(st) && ValidSettings(defaults.period, defaults.permits)
    ensures forall a, k :: IsCall(a) && FiredBy(a, st, defaults, configs, matches, now, k) ==>
      a in Dispatch(st, defaults, configs, matches, now).1
  {
    ExecutedInOrder(st, defaults, configs, matches, now, |configs|);
    assert configs[..|configs|] == configs;
    forall a, k | IsCall(a) && FiredBy(a, st, defaults, configs, matches, now, k)
      ensures a in Dispatch(st, defaults, configs, matches, now).1
    {
      assert a in FiredAt(st, defaults, configs, matches, now, k);
      FiredWithin(st, defaults, configs, matches, now, a, k, |configs|);
    }
  }

  /** A configuration whose throttle settings are refused is skipped; the next ones are processed as if it were absent. */
  lemma RejectedConfigSkipped(st: ThrottleState, defaults: Settings, config: NotifierConfiguration,
                              rest: seq<NotifierConfiguration>, matches: NotifierConfiguration -> bool, now: int)
    requires SoundState(st) && ValidSettings(defaults.period, defaults.permits)
    requires ThrottleConfig(st, defaults, config, now).1 == Rejected
    ensures Dispatch(st, defaults, [config] + rest, matches, now) == Dispatch(st, defaults, rest, matches, now)
  {
    assert ([config] + rest)[0] == config;
    assert ([config] + rest)[1..] == rest;
    var first := ConfigOutcome(st, defaults, config, matches, now);
    assert first == (st, []);
    var tail := Dispatch(st, defaults, rest, matches, now);
    assert Dispatch(st, defaults, [config] + rest, matches, now) == (tail.0, first.1 + tail.1);
    assert first.1 + tail.1 == tail.1;
  }

  /**
   * Delivery with the configurations stored when the record arrives: every
   * executed action is a "call" action of a stored record that is enabled,
   * on the topic, and whose rule holds for the record.
   */
  lemma CurrentDeliveryOnlyEnabled(st: ThrottleState, defaults: Settings, docs: seq<NotifierConfiguration>, topic: string,
                                   matches: NotifierConfiguration -> bool, now: int)
    requires SoundState(st) && ValidSettings(defaults.period, defaults.permits)
    ensures forall a :: a in Dispatch(st, defaults, Select(docs, EnabledOnTopic(topic)), matches, now).1 ==>
      IsCall(a) && exists c :: c in docs && c.enabled && c.topic == topic && matches(c) && a in c.actions
  {
    var current := Select(docs, EnabledOnTopic(topic));
    ExecutedAreMatchingCalls(st, defaults, current, matches, now);
    forall a | a in Dispatch(st, defaults, current, matches, now).1
      ensures IsCall(a) && exists c :: c in docs && c.enabled && c.topic == topic && matches(c) && a in c.actions
    {
      var k :| FiredBy(a, st, defaults, current, matches, now, k);
      assert current[k] in current;
    }
  }

  /** Containers present both before and after an operation are the same containers: none is rebuilt. */
  predicate KeptContainers(before: map<string, Container>, after: map<string, Container>)
  {
    forall t :: t in before && t in after ==> after[t] == before[t]
  }

  // ---------------------------------------------------------------- the processor

  class DynamicKafkaMessageProcessor {
    var subscribedTopics: set<string>
    var topicContainers: map<string, Container>
    const repository: NotifierConfigurationRepository
    const throttling: NotificationThrottlingService
    const notifications: NotificationService
    const readTree: JsonReader

    /** The container map and the topic set are updated together, and each container consumes its own key. */
    ghost predicate Valid()
      reads this, throttling
    {
      topicContainers.Keys == subscribedTopics
      && (forall t :: t in topicContainers ==> topicContainers[t].topic == t)
      && throttling.Valid()
      && notifications.readTree == readTree
    }

    constructor(repository: NotifierConfigurationRepository, throttling: NotificationThrottlingService,
                notifications: NotificationService)
      requires throttling.Valid()
      ensures Valid()
      ensures subscribedTopics == {} && topicContainers == map[]
      ensures this.repository == repository && this.throttling == throttling && this.notifications == notifications
    {
      subscribedTopics := {};
      topicContainers := map[];
      this.repository := repository;
      this.throttling := throttling;
      this.notifications := notifications;
      readTree := notifications.readTree;
    }

    /** `getSubscribedTopics`: a copy of the topics, which are exactly those with a container. */
    function GetSubscribedTopics(): (r: set<string>)
      reads this, throttling
      requires Valid()
      ensures r == topicContainers.Keys
    {
      subscribedTopics
    }

    /** `isSubscribedToTopic`: subscribed exactly when a container is kept for the topic. */
    function IsSubscribedToTopic(topic: string): (r: bool)
      reads this, throttling
      requires Valid()
      ensures r <==> topic in topicContainers
    {
      topic in subscribedTopics
    }

    /**
     * `subscribeToTopic`: nothing happens for a topic already subscribed.
     * Otherwise the topic's enabled configurations are read, a running
     * container holding them is recorded, and the topic is added; if the
     * start fails, the exception is logged and nothing is recorded.
     */
    method SubscribeToTopic(topic: string) returns (subscribed: bool)
      requires Valid()
      modifies this
      ensures Valid()
      ensures subscribed ==> topic !in old(subscribedTopics)
      ensures subscribed ==> (subscribedTopics == old(subscribedTopics) + {topic}
        && topicContainers == old(topicContainers)[topic := Container(topic, repository.FindByTopicAndEnabledTrue(topic), true)])
      ensures !subscribed ==> subscribedTopics == old(subscribedTopics) && topicContainers == old(topicContainers)
      ensures topic in old(subscribedTopics) ==> !subscribed
    {
      if topic in subscribedTopics {
        return false;
      }
      var configurations := repository.FindByTopicAndEnabledTrue(topic);
      var started: bool := *;
      if !started {
        return false;
      }
      topicContainers := topicContainers[topic := Container(topic, configurations, true)];
      subscribedTopics := subscribedTopics + {topic};
      return true;
    }

    /**
     * `unsubscribeFromTopic`: nothing happens for a topic not subscribed.
     * Otherwise a running container is stopped and the topic is forgotten;
     * if the stop fails, the exception is logged and both are kept.
     */
    method UnsubscribeFromTopic(topic: string) returns (unsubscribed: bool)
      requires Valid()
      modifies this
      ensures Valid()
      ensures unsubscribed ==> (topic in old(subscribedTopics)
        && subscribedTopics == old(subscribedTopics) - {topic}
        && topicContainers == old(topicContainers) - {topic})
      ensures !unsubscribed ==> subscribedTopics == old(subscribedTopics) && topicContainers == old(topicContainers)
      ensures topic !in old(subscribedTopics) ==> !unsubscribed
      ensures topic in old(subscribedTopics) && !old(topicContainers)[topic].running ==> unsubscribed
    {
      if topic !in subscribedTopics {
        return false;
      }
      if topicContainers[topic].running {
        var stopped: bool := *;
        if !stopped {
          return false;
        }
      }
      topicContainers := topicContainers - {topic};
      subscribedTopics := subscribedTopics - {topic};
      return true;
    }

    /**
     * `refreshTopicSubscriptions`: the topics to consume are those of the
     * enabled configurations. Topics no longer needed are unsubscribed first,
     * then the missing ones are subscribed. The topics whose stop or start
     * failed are returned; without failures the subscriptions are exactly
     * the needed topics, and a second call changes nothing.
     */
    method RefreshTopicSubscriptions() returns (failedStops: set<string>, failedStarts: set<string>)
      requires Valid()
      modifies this
      ensures Valid()
      ensures var required := EnabledTopics(repository.documents);
        failedStops <= old(subscribedTopics) - required
        && failedStarts <= required - old(subscribedTopics)
        && subscribedTopics == (old(subscribedTopics) * required) + failedStops + (required - old(subscribedTopics) - failedStarts)
      ensures forall t :: t in topicContainers ==>
        topicContainers[t] == if t in old(topicContainers) then old(topicContainers)[t]
                              else Container(t, repository.FindByTopicAndEnabledTrue(t), true)
      ensures old(subscribedTopics) == EnabledTopics(repository.documents) ==>
        subscribedTopics == old(subscribedTopics) && topicContainers == old(topicContainers)
    {
      var required := EnabledTopics(repository.documents);
      ghost var before := subscribedTopics;
      ghost var containers := topicContainers;
      var toUnsubscribe := subscribedTopics - required;
      failedStops := UnsubscribeEach(toUnsubscribe);
      ghost var middle := topicContainers;
      var toSubscribe := required - subscribedTopics;
      failedStarts := SubscribeEach(toSubscribe);
      RefreshTopicSets(before, required, failedStops, failedStarts);
      forall t | t in topicContainers
        ensures topicContainers[t] == if t in containers then containers[t]
                                      else Container(t, repository.FindByTopicAndEnabledTrue(t), true)
      {
        if t !in middle {
          assert t in toSubscribe && t !in before;
        }
      }
    }

    /** `topicsToUnsubscribe.forEach(this::unsubscribeFromTopic)`: returns the subscribed topics whose stop failed. */
    method UnsubscribeEach(topics: set<string>) returns (failed: set<string>)
      requires Valid()
      modifies this
      ensures Valid()
      ensures failed <= topics * old(subscribedTopics)
      ensures subscribedTopics == old(subscribedTopics) - topics + failed
      ensures forall t :: t in topicContainers ==> t in old(topicContainers) && topicContainers[t] == old(topicContainers)[t]
      ensures topics == {} ==> topicContainers == old(topicContainers)
    {
      var pending := topics;
      failed := {};
      while pending != {}
        invariant Valid()
        invariant pending <= topics
        invariant failed <= (topics - pending) * old(subscribedTopics)
        invariant subscribedTopics == old(subscribedTopics) - (topics - pending) + failed
        invariant forall t :: t in topicContainers ==> t in old(topicContainers) && topicContainers[t] == old(topicContainers)[t]
        decreases pending
      {
        var t :| t in pending;
        var done := UnsubscribeFromTopic(t);
        if !done && t in subscribedTopics {
          failed := failed + {t};
        }
        pending := pending - {t};
      }
    }

    /** How one more topic of `SubscribeEach` changes the topic sets: subscribed now, before, or failed. */
    static lemma SubscribeSets(before: set<string>, topics: set<string>, pending: set<string>, failed: set<string>,
                        t: string, current: set<string>)
      requires t in pending && pending <= topics
      requires failed <= (topics - pending) - before
      requires current == before + ((topics - pending) - failed)
      ensures current + {t} == before + ((topics - (pending - {t})) - failed)
      ensures failed <= (topics - (pending - {t})) - before
      ensures t in current ==> current == before + ((topics - (pending - {t})) - failed)
      ensures t !in current ==> (current == before + ((topics - (pending - {t})) - (failed + {t}))
                                 && failed + {t} <= (topics - (pending - {t})) - before)
    {
    }

    /** `topicsToSubscribe.forEach(this::subscribeToTopic)`: returns the new topics whose start failed. */
    method SubscribeEach(topics: set<string>) returns (failed: set<string>)
      requires Valid()
      modifies this
      ensures Valid()
      ensures failed <= topics - old(subscribedTopics)
      ensures subscribedTopics == old(subscribedTopics) + (topics - failed)
      ensures forall t :: t in topicContainers ==>
        topicContainers[t] == if t in old(topicContainers) then old(topicContainers)[t]
                              else Container(t, repository.FindByTopicAndEnabledTrue(t), true)
      ensures topics == {} ==> topicContainers == old(topicContainers)
    {
      var pending := topics;
      failed := {};
      while pending != {}
        invariant Valid()
        invariant pending <= topics
        invariant failed <= (topics - pending) - old(subscribedTopics)
        invariant subscribedTopics == old(subscribedTopics) + ((topics - pending) - failed)
        invariant forall t :: t in topicContainers ==>
          topicContainers[t] == if t in old(topicContainers) then old(topicContainers)[t]
                                else Container(t, repository.FindByTopicAndEnabledTrue(t), true)
        decreases pending
      {
        var t :| t in pending;
        SubscribeSets(old(subscribedTopics), topics, pending, failed, t, subscribedTopics);
        var done := SubscribeToTopic(t);
        if !done && t !in subscribedTopics {
          failed := failed + {t};
        }
        pending := pending - {t};
      }
    }

    /**
     * `cleanup`: stops every running container, then forgets all of them.
     * A stop that throws ends the cleanup there: the containers stopped so
     * far stay stopped and nothing is forgotten.
     */
    method Cleanup() returns (cleared: bool)
      requires Valid()
      modifies this
      ensures Valid()
      ensures cleared ==> subscribedTopics == {} && topicContainers == map[]
      ensures !cleared ==> (subscribedTopics == old(subscribedTopics)
        && topicContainers.Keys == old(topicContainers).Keys
        && forall t :: t in topicContainers ==>
             topicContainers[t] == old(topicContainers)[t]
             || topicContainers[t] == old(topicContainers)[t].(running := false))
    {
      var pending := topicContainers.Keys;
      while pending != {}
        invariant Valid()
        invariant subscribedTopics == old(subscribedTopics)
        invariant topicContainers.Keys == old(topicContainers).Keys
        invariant pending <= topicContainers.Keys
        invariant forall t :: t in topicContainers ==>
          topicContainers[t] == old(topicContainers)[t]
          || topicContainers[t] == old(topicContainers)[t].(running := false)
        decreases pending
      {
        var t :| t in pending;
        if topicContainers[t].running {
          var stopped: bool := *;
          if !stopped {
            return false;
          }
          topicContainers := topicContainers[t := topicContainers[t].(running := false)];
        }
        pending := pending - {t};
      }
      topicContainers := map[];
      subscribedTopics := {};
      return true;
    }

    /** `processConfigurationForMessage` for one configuration and one record. */
    method ProcessConfigurationForMessage(config: NotifierConfiguration, message: string, now: int)
      requires Valid()
      modifies throttling, notifications
      ensures Valid()
      ensures var outcome := ConfigOutcome(old(throttling.State()), throttling.defaults, config, RulesHold(message, readTree), now);
        throttling.State() == outcome.0 && notifications.sent == old(notifications.sent) + Posts(outcome.1, message, readTree)
    {
      ghost var st := throttling.State();
      ghost var matches := RulesHold(message, readTree);
      assert matches(config) == RuleEngine.EvaluateRules(config.rules, message, readTree);
      if !RuleEngine.EvaluateRules(config.rules, message, readTree) {
        assert ConfigOutcome(st, throttling.defaults, config, matches, now) == (st, []);
        assert Posts([], message, readTree) == [];
        return;
      }
      ghost var throttled := ThrottleConfig(st, throttling.defaults, config, now);
      var decision := throttling.ShouldSendNotificationFor(config, now);
      assert (throttling.State(), decision) == throttled;
      if decision != Allowed {
        assert ConfigOutcome(st, throttling.defaults, config, matches, now) == (throttled.0, []);
        assert Posts([], message, readTree) == [];
        return;
      }
      ExecuteActions(config.actions, message);
      assert ConfigOutcome(st, throttling.defaults, config, matches, now) == (throttled.0, Calls(config.actions));
    }

    /** The loop of `processConfigurationForMessage` over the actions of an allowed configuration. */
    method ExecuteActions(actions: seq<NotificationAction>, message: string)
      modifies notifications
      ensures notifications.sent == old(notifications.sent) + Posts(Calls(actions), message, notifications.readTree)
    {
      var j := 0;
      while j < |actions|
        invariant 0 <= j <= |actions|
        invariant old(notifications.sent) + Posts(Calls(actions), message, notifications.readTree)
                  == notifications.sent + Posts(Calls(actions[j..]), message, notifications.readTree)
      {
        SentAfterCallStep(notifications.sent, actions, j, message, notifications.readTree);
        ExecuteAction(actions[j], message);
        j := j + 1;
      }
      assert actions[j..] == [];
    }

    /** `executeAction`: a "call" action, in any letter case, goes to the notification service; any other type is skipped. */
    method ExecuteAction(action: NotificationAction, message: string)
      modifies notifications
      ensures notifications.sent == old(notifications.sent)
        + (if IsCall(action) then Outgoing(action, message, notifications.readTree) else [])
    {
      if EqualsIgnoreCase(action.kind, "call") {
        notifications.ExecuteNotificationAction(action, message);
      }
    }

    /** `processMessage`: every configuration in turn; an empty list does nothing. */
    method ProcessMessage(message: string, topic: string, configurations: seq<NotifierConfiguration>, now: int)
      requires Valid()
      modifies throttling, notifications
      ensures Valid()
      ensures var outcome := Dispatch(old(throttling.State()), throttling.defaults, configurations, RulesHold(message, readTree), now);
        throttling.State() == outcome.0 && notifications.sent == old(notifications.sent) + Posts(outcome.1, message, readTree)
    {
      if |configurations| == 0 {
        return;
      }
      var matches := RulesHold(message, readTree);
      var i := 0;
      while i < |configurations|
        invariant 0 <= i <= |configurations|
        invariant Valid()
        invariant var whole := Dispatch(old(throttling.State()), throttling.defaults, configurations, matches, now);
          var rest := Dispatch(throttling.State(), throttling.defaults, configurations[i..], matches, now);
          whole.0 == rest.0
          && old(notifications.sent) + Posts(whole.1, message, readTree) == notifications.sent + Posts(rest.1, message, readTree)
      {
        var current := throttling.State();
        var step := ConfigOutcome(current, throttling.defaults, configurations[i], matches, now);
        var tail := Dispatch(step.0, throttling.defaults, configurations[i + 1..], matches, now);
        assert configurations[i..][0] == configurations[i] && configurations[i..][1..] == configurations[i + 1..];
        assert Dispatch(current, throttling.defaults, configurations[i..], matches, now) == (tail.0, step.1 + tail.1);
        SentAfterAppend(notifications.sent, step.1, tail.1, message, readTree);
        ProcessConfigurationForMessage(configurations[i], message, now);
        i := i + 1;
      }
      ghost var done := Dispatch(throttling.State(), throttling.defaults, configurations[i..], matches, now);
      assert |configurations[i..]| == 0;
      assert done == (throttling.State(), []);
      assert Posts(done.1, message, readTree) == [];
    }

    /** A record arriving on a subscribed topic is processed with the configurations its container was created with. */
    method Deliver(topic: string, message: string, now: int)
      requires Valid()
      requires topic in topicContainers
      modifies throttling, notifications
      ensures Valid()
      ensures var outcome := Dispatch(old(throttling.State()), throttling.defaults, topicContainers[topic].configurations,
                                      RulesHold(message, readTree), now);
        throttling.State() == outcome.0 && notifications.sent == old(notifications.sent) + Posts(outcome.1, message, readTree)
    {
      ProcessMessage(message, topic, topicContainers[topic].configurations, now);
    }

    /**
     * Delivery as evidently intended: a record arriving on a subscribed topic
     * is processed with the enabled configurations of that topic stored when
     * it arrives, so an update, a deletion or a toggle takes effect at once.
     */
    method DeliverCurrent(topic: string, message: string, now: int)
      requires Valid()
      requires topic in subscribedTopics
      modifies throttling, notifications
      ensures Valid()
      ensures var outcome := Dispatch(old(throttling.State()), throttling.defaults, repository.FindByTopicAndEnabledTrue(topic),
                                      RulesHold(message, readTree), now);
        throttling.State() == outcome.0 && notifications.sent == old(notifications.sent) + Posts(outcome.1, message, readTree)
    {
      var configurations := repository.FindByTopicAndEnabledTrue(topic);
      ProcessMessage(message, topic, configurations, now);
    }
  }
}
