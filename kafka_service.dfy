/**
 * `KafkaService`: the entry point the configuration service uses to change
 * the dynamic processor's subscriptions. It keeps no state of its own.
 */
module Kafka {
  import opened Model
  import opened DynamicProcessor

  class KafkaService {
    const processor: DynamicKafkaMessageProcessor

    constructor(processor: DynamicKafkaMessageProcessor)
      ensures this.processor == processor
    {
      this.processor := processor;
    }

    /** `addTopicSubscription`: `subscribeToTopic`, so a topic already subscribed is left as it is. */
    method AddTopicSubscription(topic: string) returns (subscribed: bool)
      requires processor.Valid()
      modifies processor
      ensures processor.Valid()
      ensures subscribed ==> (topic !in old(processor.subscribedTopics)
        && processor.subscribedTopics == old(processor.subscribedTopics) + {topic}
        && processor.topicContainers == old(processor.topicContainers)[topic :=
             Container(topic, processor.repository.FindByTopicAndEnabledTrue(topic), true)])
      ensures !subscribed ==> (processor.subscribedTopics == old(processor.subscribedTopics)
        && processor.topicContainers == old(processor.topicContainers))
      ensures topic in old(processor.subscribedTopics) ==> !subscribed
    {
      subscribed := processor.SubscribeToTopic(topic);
    }

    /** `removeTopicSubscriptionIfUnused`: unsubscribes exactly when no enabled configuration is left on the topic. */
    method RemoveTopicSubscriptionIfUnused(topic: string, enabledConfigs: seq<NotifierConfiguration>) returns (unsubscribed: bool)
      requires processor.Valid()
      modifies processor
      ensures processor.Valid()
      ensures enabledConfigs != [] ==> !unsubscribed
      ensures unsubscribed ==> (topic in old(processor.subscribedTopics)
        && processor.subscribedTopics == old(processor.subscribedTopics) - {topic}
        && processor.topicContainers == old(processor.topicContainers) - {topic})
      ensures !unsubscribed ==> (processor.subscribedTopics == old(processor.subscribedTopics)
        && processor.topicContainers == old(processor.topicContainers))
      ensures (enabledConfigs == [] && topic in old(processor.subscribedTopics)
        && !old(processor.topicContainers)[topic].running) ==> unsubscribed
    {
      unsubscribed := false;
      if |enabledConfigs| == 0 {
        unsubscribed := processor.UnsubscribeFromTopic(topic);
      }
    }
  }
}
