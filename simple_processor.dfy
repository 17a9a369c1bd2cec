/**
 * `SimpleDynamicKafkaProcessor`: the same topic bookkeeping as the dynamic
 * processor, with a listener that only logs. A container is represented by
 * whether it is running; a start or stop that throws is a nondeterministic
 * choice.
 */
module SimpleProcessor {

  class SimpleDynamicKafkaProcessor {
    var subscribedTopics: set<string>
    /** The container of each subscribed topic, as its running flag. */
    var topicContainers: map<string, bool>

    /** The container map and the topic set are updated together. */
    ghost predicate Valid()
      reads this
    {
      topicContainers.Keys == subscribedTopics
    }

    constructor()
      ensures Valid() && subscribedTopics == {} && topicContainers == map[]
    {
      subscribedTopics := {};
      topicContainers := map[];
    }

    /** `getSubscribedTopics`: a copy of the topics, which are exactly those with a container. */
    function GetSubscribedTopics(): (r: set<string>)
      reads this
      requires Valid()
      ensures r == topicContainers.Keys
    {
      subscribedTopics
    }

    /** `isSubscribedToTopic`: subscribed exactly when a container is kept for the topic. */
    function IsSubscribedToTopic(topic: string): (r: bool)
      reads this
      requires Valid()
      ensures r <==> topic in topicContainers
    {
      topic in subscribedTopics
    }

    /**
     * `subscribeToTopic`: nothing happens for a topic already subscribed;
     * otherwise a started container is recorded with the topic, unless the
     * start throws.
     */
    method SubscribeToTopic(topic: string) returns (subscribed: bool)
      requires Valid()
      modifies this
      ensures Valid()
      ensures subscribed ==> (topic !in old(subscribedTopics)
        && subscribedTopics == old(subscribedTopics) + {topic}
        && topicContainers == old(topicContainers)[topic := true])
      ensures !subscribed ==> subscribedTopics == old(subscribedTopics) && topicContainers == old(topicContainers)
      ensures topic in old(subscribedTopics) ==> !subscribed
    {
      if topic in subscribedTopics {
        return false;
      }
      var started: bool := *;
      if !started {
        return false;
      }
      topicContainers := topicContainers[topic := true];
      subscribedTopics := subscribedTopics + {topic};
      return true;
    }

    /**
     * `unsubscribeFromTopic`: nothing happens for a topic not subscribed;
     * otherwise a running container is stopped and the topic is forgotten,
     * unless the stop throws.
     */
    method UnsubscribeFromTopic(topic: string) returns (unsubscribed: bool)
      requires Valid()
      modifies this
      ensures Valid()
      ensures unsubscribed ==> (topic in old(subscribedTopics)
        && subscribedTopics == old(subscribedTopics) - {topic}
        && topicContainers == old(topicContainers) - {topic})
      ensures !unsubscribed ==> subscribedTopics == old(subscribedTopics) && topicContainers == old(topicContainers)
      ensures topic !in old(subscribedTopics) ==> !unsubscribed
      ensures topic in old(subscribedTopics) && !old(topicContainers)[topic] ==> unsubscribed
    {
      if topic !in subscribedTopics {
        return false;
      }
      if topicContainers[topic] {
        var stopped: bool := *;
        if !stopped {
          return false;
        }
      }
      topicContainers := topicContainers - {topic};
      subscribedTopics := subscribedTopics - {topic};
      return true;
    }

    /**
     * `cleanup`: stops every running container, then forgets all of them.
     * A stop that throws ends the cleanup there, with the containers stopped
     * so far stopped and nothing forgotten.
     */
    method Cleanup() returns (cleared: bool)
      requires Valid()
      modifies this
      ensures Valid()
      ensures cleared ==> subscribedTopics == {} && topicContainers == map[]
      ensures !cleared ==> (subscribedTopics == old(subscribedTopics)
        && topicContainers.Keys == old(topicContainers).Keys
        && forall t :: t in topicContainers && topicContainers[t] ==> old(topicContainers)[t])
    {
      var pending := topicContainers.Keys;
      while pending != {}
        invariant Valid()
        invariant subscribedTopics == old(subscribedTopics)
        invariant topicContainers.Keys == old(topicContainers).Keys
        invariant pending <= topicContainers.Keys
        invariant forall t :: t in topicContainers && topicContainers[t] ==> old(topicContainers)[t]
        decreases pending
      {
        var t :| t in pending;
        if topicContainers[t] {
          var stopped: bool := *;
          if !stopped {
            return false;
          }
          topicContainers := topicContainers[t := false];
        }
        pending := pending - {t};
      }
      topicContainers := map[];
      subscribedTopics := {};
      return true;
    }

    /** `onNotifierConfigurationCreated`: subscribes the topic only for an enabled configuration. */
    method OnNotifierConfigurationCreated(topic: string, enabled: bool) returns (subscribed: bool)
      requires Valid()
      modifies this
      ensures Valid()
      ensures !enabled ==> !subscribed
      ensures subscribed ==> (topic !in old(subscribedTopics)
        && subscribedTopics == old(subscribedTopics) + {topic}
        && topicContainers == old(topicContainers)[topic := true])
      ensures !subscribed ==> subscribedTopics == old(subscribedTopics) && topicContainers == old(topicContainers)
    {
      subscribed := false;
      if enabled {
        subscribed := SubscribeToTopic(topic);
      }
    }

    /** `onNotifierConfigurationDeleted`: unsubscribes the topic whatever other configurations use it. */
    method OnNotifierConfigurationDeleted(topic: string) returns (unsubscribed: bool)
      requires Valid()
      modifies this
      ensures Valid()
      ensures unsubscribed ==> (topic in old(subscribedTopics)
        && subscribedTopics == old(subscribedTopics) - {topic}
        && topicContainers == old(topicContainers) - {topic})
      ensures !unsubscribed ==> subscribedTopics == old(subscribedTopics) && topicContainers == old(topicContainers)
      ensures topic in old(subscribedTopics) && !old(topicContainers)[topic] ==> unsubscribed
    {
      unsubscribed := UnsubscribeFromTopic(topic);
    }
  }
}
