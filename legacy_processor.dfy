/**
 * The legacy `KafkaMessageProcessor` (package `hoatv.kafka.notifier.service`):
 * one static listener that runs each record through the enabled
 * configurations of its topic, with the legacy rule interpreter and no
 * throttling. Every "call" action of a matching configuration is handed to
 * the notification service; `calls` records those hand-overs in order.
 */
module LegacyProcessor {
  import opened Text
  import opened Json
  import opened Model
  import LegacyRuleEngine
  import opened DynamicProcessor

  /** One hand-over to the notification service: the action, the raw record and the configuration it belongs to. */
  datatype NotificationCall = NotificationCall(action: NotificationAction, message: string, config: NotifierConfiguration)

  /** The legacy rule verdict of each configuration for one record. */
  function LegacyRulesHold(message: string, readTree: JsonReader): NotifierConfiguration -> bool
  {
    (c: NotifierConfiguration) => LegacyRuleEngine.EvaluateRules(c.rules, message, readTree)
  }

  /** The hand-overs the actions of a matching configuration cause: one per "call" action, in order. */
  function CallsOf(config: NotifierConfiguration, actions: seq<NotificationAction>, message: string): (r: seq<NotificationCall>)
  {
    if actions == [] then []
    else
      var first := if IsCall(actions[0]) then [NotificationCall(actions[0], message, config)] else [];
      first + CallsOf(config, actions[1..], message)
  }

  /** The hand-overs a record causes: each configuration in turn, its calls only when its rules match. */
  function Triggered(configs: seq<NotifierConfiguration>, matches: NotifierConfiguration -> bool, message: string): (r: seq<NotificationCall>)
  {
    if configs == [] then []
    else
      var first := if matches(configs[0]) then CallsOf(configs[0], configs[0].actions, message) else [];
      first + Triggered(configs[1..], matches, message)
  }

  lemma {:induction false} CallsOfAppend(config: NotifierConfiguration, a: seq<NotificationAction>, b: seq<NotificationAction>, message: string)
    ensures CallsOf(config, a + b, message) == CallsOf(config, a, message) + CallsOf(config, b, message)
  {
    if a == [] {
      assert a + b == b;
    } else {
      assert (a + b)[1..] == a[1..] + b;
      CallsOfAppend(config, a[1..], b, message);
    }
  }

  /**
   * Configurations are processed independently: the calls for a list are the
   * calls for its first part followed by those for the rest.
   */
  lemma {:induction false} TriggeredAppend(a: seq<NotifierConfiguration>, b: seq<NotifierConfiguration>,
                                           matches: NotifierConfiguration -> bool, message: string)
    ensures Triggered(a + b, matches, message) == Triggered(a, matches, message) + Triggered(b, matches, message)
  {
    if a == [] {
      assert a + b == b;
    } else {
      assert (a + b)[1..] == a[1..] + b;
      TriggeredAppend(a[1..], b, matches, message);
    }
  }

  /** Appending two batches of hand-overs to the log at once is appending one after the other. */
  lemma CalledInOrder(log: seq<NotificationCall>, first: seq<NotificationCall>, second: seq<NotificationCall>)
    ensures log + (first + second) == (log + first) + second
  {
  }

  /** One more configuration adds its calls, when its rules match, after those of the ones before. */
  lemma TriggeredSnoc(configs: seq<NotifierConfiguration>, config: NotifierConfiguration,
                      matches: NotifierConfiguration -> bool, message: string)
    ensures Triggered(configs + [config], matches, message)
         == Triggered(configs, matches, message) + (if matches(config) then CallsOf(config, config.actions, message) else [])
  {
    TriggeredAppend(configs, [config], matches, message);
    var step := if matches(config) then CallsOf(config, config.actions, message) else [];
    assert Triggered([config], matches, message) == step + Triggered([], matches, message);
    assert step + [] == step;
  }

  /** The hand-overs of a configuration are its "call" actions, in order, each with the record and the configuration. */
  lemma {:induction false} CallsOfFollowsCalls(config: NotifierConfiguration, actions: seq<NotificationAction>, message: string)
    ensures |CallsOf(config, actions, message)| == |Calls(actions)|
    ensures forall i :: 0 <= i < |Calls(actions)| ==>
      CallsOf(config, actions, message)[i] == NotificationCall(Calls(actions)[i], message, config)
  {
    if actions != [] {
      CallsOfFollowsCalls(config, actions[1..], message);
    }
  }

  /** A hand-over for a configuration is exactly one of its "call" actions with the record. */
  lemma CallsOfMembers(config: NotifierConfiguration, actions: seq<NotificationAction>, message: string, call: NotificationCall)
    ensures call in CallsOf(config, actions, message) <==>
      (call.config == config && call.message == message && call.action in actions && IsCall(call.action))
  {
    var r := CallsOf(config, actions, message);
    CallsOfFollowsCalls(config, actions, message);
    if call.config == config && call.message == message && call.action in actions && IsCall(call.action) {
      assert call.action in Calls(actions);
      var i :| 0 <= i < |Calls(actions)| && Calls(actions)[i] == call.action;
      assert r[i] == call;
    }
  }

  /**
   * A record causes a hand-over exactly for each "call" action of each
   * listed configuration whose rules match.
   */
  lemma {:induction false} TriggeredExactly(configs: seq<NotifierConfiguration>, matches: NotifierConfiguration -> bool,
                                            message: string, call: NotificationCall)
    ensures call in Triggered(configs, matches, message) <==>
      (call.config in configs && matches(call.config) && call.message == message
       && call.action in call.config.actions && IsCall(call.action))
  {
    if configs != [] {
      TriggeredExactly(configs[1..], matches, message, call);
      CallsOfMembers(configs[0], configs[0].actions, message, call);
      assert configs == [configs[0]] + configs[1..];
    }
  }

  /** With rules that never match, or no configurations at all, nothing is handed over. */
  lemma {:induction false} NoMatchNoCalls(configs: seq<NotifierConfiguration>, matches: NotifierConfiguration -> bool, message: string)
    requires forall c :: c in configs ==> !matches(c)
    ensures Triggered(configs, matches, message) == []
  {
    if configs != [] {
      assert configs[0] in configs;
      NoMatchNoCalls(configs[1..], matches, message);
    }
  }

  // ---------------------------------------------------------------- the listener

  class KafkaMessageProcessor {
    /** The hand-overs to the notification service so far. */
    var calls: seq<NotificationCall>
    const readTree: JsonReader

    constructor(readTree: JsonReader)
      ensures calls == [] && this.readTree == readTree
    {
      calls := [];
      this.readTree := readTree;
    }

    /**
     * `processMessage`: `configurations` is what the lookup of the topic's
     * enabled configurations returned. Each is processed in order; one that
     * fails does not stop the others.
     */
    method ProcessMessage(message: string, configurations: seq<NotifierConfiguration>)
      modifies this
      ensures calls == old(calls) + Triggered(configurations, LegacyRulesHold(message, readTree), message)
    {
      if |configurations| == 0 {
        return;
      }
      ghost var matches := LegacyRulesHold(message, readTree);
      var i := 0;
      while i < |configurations|
        invariant 0 <= i <= |configurations|
        invariant calls == old(calls) + Triggered(configurations[..i], matches, message)
      {
        var config := configurations[i];
        ghost var before := Triggered(configurations[..i], matches, message);
        ghost var step := if matches(config) then CallsOf(config, config.actions, message) else [];
        ProcessConfigurationForMessage(config, message);
        assert configurations[..i + 1] == configurations[..i] + [config];
        TriggeredSnoc(configurations[..i], config, matches, message);
        CalledInOrder(old(calls), before, step);
        i := i + 1;
      }
      assert configurations[..i] == configurations;
    }

    /** `processConfigurationForMessage`: all "call" actions, in order, exactly when the legacy rules match. */
    method ProcessConfigurationForMessage(config: NotifierConfiguration, message: string)
      modifies this
      ensures calls == old(calls)
        + (if LegacyRulesHold(message, readTree)(config) then CallsOf(config, config.actions, message) else [])
    {
      var rulesMatch := LegacyRuleEngine.EvaluateRules(config.rules, message, readTree);
      if rulesMatch {
        ExecuteActions(config, message);
      }
    }

    /** The loop over a matching configuration's actions: each is executed in turn. */
    method ExecuteActions(config: NotifierConfiguration, message: string)
      modifies this
      ensures calls == old(calls) + CallsOf(config, config.actions, message)
    {
      var actions := config.actions;
      var i := 0;
      while i < |actions|
        invariant 0 <= i <= |actions|
        invariant calls == old(calls) + CallsOf(config, actions[..i], message)
      {
        ghost var before := CallsOf(config, actions[..i], message);
        ghost var step := if IsCall(actions[i]) then [NotificationCall(actions[i], message, config)] else [];
        ExecuteAction(actions[i], message, config);
        assert CallsOf(config, [actions[i]], message) == step + CallsOf(config, [], message);
        assert actions[..i + 1] == actions[..i] + [actions[i]];
        CallsOfAppend(config, actions[..i], [actions[i]], message);
        CalledInOrder(old(calls), before, step);
        i := i + 1;
      }
      assert actions[..i] == actions;
    }

    /** `executeAction`: the type, lower-cased, selects the branch; only "call" reaches the notification service. */
    method ExecuteAction(action: NotificationAction, message: string, config: NotifierConfiguration)
      modifies this
      ensures calls == old(calls) + (if IsCall(action) then [NotificationCall(action, message, config)] else [])
    {
      assert Lower("call") == "call";
      if Lower(action.kind) == "call" {
        calls := calls + [NotificationCall(action, message, config)];
      }
    }
  }
}
