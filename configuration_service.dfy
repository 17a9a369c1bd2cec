/**
 * `NotifierConfigurationService`: create, read, update, delete and toggle
 * configurations, keeping at most one configuration per notifier and topic,
 * and telling the Kafka service which topics to consume afterwards.
 *
 * The clock reading (`LocalDateTime.now()`) and the id the database gives a
 * new record are parameters. Exceptions the service throws are `Failure`s.
 */
module ConfigurationService {
  import opened Text
  import opened Model
  import opened DynamicProcessor
  import opened Kafka
  import opened Throttling

  datatype ServiceError =
    | DuplicateResource(message: string)
    | EntityNotFound(message: string)

  datatype Outcome<T> = Success(value: T) | Failure(error: ServiceError)

  function DuplicateMessage(notifier: string, topic: string): string
  {
    "Configuration already exists for notifier '" + notifier + "' and topic '" + topic + "'"
  }

  function NotFoundMessage(id: string): string
  {
    "NotifierConfiguration not found with ID: " + id
  }

  // ---------------------------------------------------------------- the uniqueness invariant

  /** No two records (different ids) share a notifier and a topic. */
  predicate UniquePairs(docs: seq<NotifierConfiguration>)
  {
    forall c, d :: c in docs && d in docs && c.id != d.id ==> !SamePair(c, d)
  }

  predicate SamePair(c: NotifierConfiguration, d: NotifierConfiguration)
  {
    c.notifier == d.notifier && c.topic == d.topic
  }

  /** Appending a record whose pair is not yet used, under a fresh id, keeps pairs unique. */
  lemma AppendKeepsPairsUnique(docs: seq<NotifierConfiguration>, c: NotifierConfiguration)
    requires UniquePairs(docs)
    requires c.id !in IdsOf(docs)
    requires forall d :: d in docs ==> !SamePair(d, c)
    ensures UniquePairs(docs + [c])
  {
    forall x, y | x in docs + [c] && y in docs + [c] && x.id != y.id
      ensures !SamePair(x, y)
    {
      if x != c && y != c {
        assert x in docs && y in docs;
      }
    }
  }

  /**
   * Saving a new version of a stored record keeps pairs unique when its
   * pair is unchanged, or when no stored record uses its new pair.
   */
  lemma ReplaceKeepsPairsUnique(docs: seq<NotifierConfiguration>, existing: NotifierConfiguration, c: NotifierConfiguration)
    requires UniquePairs(docs)
    requires existing in docs && c.id == existing.id
    requires !SamePair(existing, c) ==> forall d :: d in docs ==> !SamePair(d, c)
    ensures UniquePairs(Upsert(docs, c))
  {
    var r := Upsert(docs, c);
    forall x, y | x in r && y in r && x.id != y.id
      ensures !SamePair(x, y)
    {
      if x != c && y != c {
        assert x in docs && y in docs;
      } else if x == c {
        assert y in docs;
        if SamePair(existing, c) {
          assert !SamePair(y, existing);
        }
      } else {
        assert x in docs;
        if SamePair(existing, c) {
          assert !SamePair(x, existing);
        }
      }
    }
  }

  /** Removing records keeps pairs unique. */
  lemma RemoveKeepsPairsUnique(docs: seq<NotifierConfiguration>, id: string)
    requires UniquePairs(docs)
    ensures UniquePairs(Remove(docs, id))
  {
    var r := Remove(docs, id);
    forall x, y | x in r && y in r && x.id != y.id
      ensures !SamePair(x, y)
    {
      assert x in docs && y in docs;
    }
  }

  // ---------------------------------------------------------------- records built by the service

  /** The record `create` builds before saving: `enabled` defaults to true, and no update or author is set yet. */
  function NewConfiguration(request: NotifierConfigurationRequest, now: int): (c: NotifierConfiguration)
    ensures c.enabled <==> request.enabled != Some(false)
    ensures c.createdAt == now && c.updatedAt == None && c.createdBy == None && c.updatedBy == None
  {
    NotifierConfiguration("", request.notifier, request.topic, request.rules, request.actions,
      if request.enabled.Some? then request.enabled.value else true,
      request.description, request.throttlePeriodMinutes, request.throttlePermitsPerPeriod,
      now, None, None, None)
  }

  /**
   * The record `update` saves: every field of the request replaces the
   * stored one, except that a missing `enabled` keeps the stored flag; the
   * id, the creation time and the authors are kept.
   */
  function Edited(existing: NotifierConfiguration, request: NotifierConfigurationRequest, now: int): (c: NotifierConfiguration)
    ensures c.id == existing.id && c.createdAt == existing.createdAt
    ensures c.createdBy == existing.createdBy && c.updatedBy == existing.updatedBy
    ensures c.enabled == (if request.enabled.Some? then request.enabled.value else existing.enabled)
    ensures c.updatedAt == Some(now)
  {
    existing.(notifier := request.notifier, topic := request.topic, rules := request.rules,
      actions := request.actions,
      enabled := if request.enabled.Some? then request.enabled.value else existing.enabled,
      description := request.description, throttlePeriodMinutes := request.throttlePeriodMinutes,
      throttlePermitsPerPeriod := request.throttlePermitsPerPeriod, updatedAt := Some(now))
  }

  /** The record `toggleEnabled` saves: the flag flipped and the update time set, nothing else changed. */
  function Toggled(existing: NotifierConfiguration, now: int): (c: NotifierConfiguration)
    ensures c.enabled != existing.enabled
    ensures c.(enabled := existing.enabled, updatedAt := existing.updatedAt) == existing
  {
    existing.(enabled := !existing.enabled, updatedAt := Some(now))
  }

  /** The responses for a list of records, in the same order. */
  function MapAllToResponse(cs: seq<NotifierConfiguration>): (r: seq<NotifierConfigurationResponse>)
    ensures |r| == |cs|
    ensures forall i :: 0 <= i < |cs| ==> Described(r[i]) == cs[i]
  {
    seq(|cs|, i requires 0 <= i < |cs| => MapToResponse(cs[i]))
  }

  // ---------------------------------------------------------------- configurations captured by a container

  /**
   * A container keeps the configurations read when it was created, and
   * `update` on a subscribed topic leaves that container in place. So after
   * an update that keeps an enabled record on its topic but changes its rule,
   * a record the old rule accepts and the new one rejects still fires the
   * old actions, while the stored configurations would fire nothing.
   */
  lemma StaleContainerStillFires(st: ThrottleState, defaults: Settings, existing: NotifierConfiguration,
                                 request: NotifierConfigurationRequest, now: int,
                                 matches: NotifierConfiguration -> bool, at: int)
    requires SoundState(st) && ValidSettings(defaults.period, defaults.permits)
    requires existing.enabled && request.enabled != Some(false)
    requires request.topic == existing.topic
    requires matches(existing) && !matches(Edited(existing, request, now))
    requires ThrottleConfig(st, defaults, existing, at).1 == Allowed
    ensures var captured := Select([existing], EnabledOnTopic(existing.topic));
            var stored := Select(Upsert([existing], Edited(existing, request, now)), EnabledOnTopic(existing.topic));
            Dispatch(st, defaults, captured, matches, at).1 == Calls(existing.actions)
            && Dispatch(st, defaults, stored, matches, at).1 == []
  {
    var updated := Edited(existing, request, now);
    assert PositionOf([existing], updated.id) == Some(0);
    assert Upsert([existing], updated) == [updated];
    SelectSingle(existing, existing.topic);
    SelectSingle(updated, existing.topic);
    var first := ConfigOutcome(st, defaults, existing, matches, at);
    assert first.1 == Calls(existing.actions);
    assert Dispatch(first.0, defaults, [existing][1..], matches, at).1 == [];
    assert Calls(existing.actions) + [] == Calls(existing.actions);
    assert Dispatch(st, defaults, [updated][1..], matches, at).1 == [];
  }

  /** An enabled record alone on its topic is the whole selection for that topic. */
  lemma SelectSingle(c: NotifierConfiguration, topic: string)
    requires c.enabled && c.topic == topic
    ensures Select([c], EnabledOnTopic(topic)) == [c]
  {
    assert [c][1..] == [];
  }

  // ---------------------------------------------------------------- what the Kafka calls may do

  /** `addTopicSubscription(topic)` when `add` holds, otherwise nothing: at most `topic` joins. */
  predicate MaySubscribe(before: set<string>, after: set<string>, topic: string, add: bool)
  {
    if add then after == before || (topic !in before && after == before + {topic})
    else after == before
  }

  /** `unsubscribeFromTopic(topic)` when `remove` holds, otherwise nothing: at most `topic` leaves. */
  predicate MayUnsubscribe(before: set<string>, after: set<string>, topic: string, remove: bool)
  {
    if remove then after == before || (topic in before && after == before - {topic})
    else after == before
  }

  // ---------------------------------------------------------------- the service

  class NotifierConfigurationService {
    const kafkaService: KafkaService
    const repository: NotifierConfigurationRepository

    /** Ids and (notifier, topic) pairs are unique, and the processor reads this repository. */
    ghost predicate Valid()
      reads repository, kafkaService.processor, kafkaService.processor.throttling
    {
      repository.Valid()
      && UniquePairs(repository.documents)
      && kafkaService.processor.Valid()
      && kafkaService.processor.repository == repository
    }

    constructor(kafkaService: KafkaService, repository: NotifierConfigurationRepository)
      requires repository.Valid() && UniquePairs(repository.documents)
      requires kafkaService.processor.Valid() && kafkaService.processor.repository == repository
      ensures Valid()
      ensures this.kafkaService == kafkaService && this.repository == repository
    {
      this.kafkaService := kafkaService;
      this.repository := repository;
    }

    /** The topics the processor consumes. */
    ghost function Topics(): set<string>
      reads kafkaService.processor
    {
      kafkaService.processor.subscribedTopics
    }

    /**
     * `create`: refused when the notifier already has a configuration on the
     * topic; otherwise the new record is stored under a fresh id and, when it
     * is enabled, its topic is subscribed.
     */
    method Create(request: NotifierConfigurationRequest, generatedId: string, now: int)
      returns (r: Outcome<NotifierConfigurationResponse>)
      requires Valid()
      requires generatedId !in repository.Ids()
      modifies repository, kafkaService.processor
      ensures Valid()
      ensures KeptContainers(old(kafkaService.processor.topicContainers), kafkaService.processor.topicContainers)
      ensures old(repository.ExistsByNotifierAndTopic(request.notifier, request.topic)) ==>
        (r == Failure(DuplicateResource(DuplicateMessage(request.notifier, request.topic)))
        && unchanged(repository, kafkaService.processor))
      ensures !old(repository.ExistsByNotifierAndTopic(request.notifier, request.topic)) ==>
        (var saved := NewConfiguration(request, now).(id := generatedId);
         r == Success(MapToResponse(saved))
         && repository.documents == old(repository.documents) + [saved]
         && MaySubscribe(old(Topics()), Topics(), saved.topic, saved.enabled))
    {
      if repository.ExistsByNotifierAndTopic(request.notifier, request.topic) {
        return Failure(DuplicateResource(DuplicateMessage(request.notifier, request.topic)));
      }
      AppendKeepsPairsUnique(repository.documents, NewConfiguration(request, now).(id := generatedId));
      var saved := repository.Insert(NewConfiguration(request, now), generatedId);
      if saved.enabled {
        var _ := kafkaService.AddTopicSubscription(saved.topic);
      }
      return Success(MapToResponse(saved));
    }

    /**
     * `update`: refused when the id is unknown, or when the notifier or the
     * topic changes to a pair another configuration uses. Otherwise the
     * edited record is saved; an enabled record's topic is subscribed, and
     * when the topic changed, the old topic is unsubscribed if no enabled
     * configuration is left on it.
     */
    method Update(id: string, request: NotifierConfigurationRequest, now: int)
      returns (r: Outcome<NotifierConfigurationResponse>)
      requires Valid()
      modifies repository, kafkaService.processor
      ensures Valid()
      ensures KeptContainers(old(kafkaService.processor.topicContainers), kafkaService.processor.topicContainers)
      ensures old(repository.FindById(id)).None? ==>
        (r == Failure(EntityNotFound(NotFoundMessage(id))) && unchanged(repository, kafkaService.processor))
      ensures old(repository.FindById(id)).Some? ==>
        (var existing := old(repository.FindById(id)).value;
         var moved := existing.notifier != request.notifier || existing.topic != request.topic;
         if moved && old(repository.ExistsByNotifierAndTopic(request.notifier, request.topic)) then
           r == Failure(DuplicateResource(DuplicateMessage(request.notifier, request.topic)))
           && unchanged(repository, kafkaService.processor)
         else
           var updated := Edited(existing, request, now);
           r == Success(MapToResponse(updated))
           && repository.documents == Upsert(old(repository.documents), updated)
           && exists between ::
                MaySubscribe(old(Topics()), between, updated.topic, updated.enabled)
                && MayUnsubscribe(between, Topics(), existing.topic,
                     existing.topic != updated.topic && repository.FindByTopicAndEnabledTrue(existing.topic) == []))
    {
      var found := repository.FindById(id);
      if found.None? {
        return Failure(EntityNotFound(NotFoundMessage(id)));
      }
      var existing := found.value;
      var topic := existing.topic;
      if existing.notifier != request.notifier || topic != request.topic {
        if repository.ExistsByNotifierAndTopic(request.notifier, request.topic) {
          return Failure(DuplicateResource(DuplicateMessage(request.notifier, request.topic)));
        }
      }
      ReplaceKeepsPairsUnique(repository.documents, existing, Edited(existing, request, now));
      var updated := repository.Save(Edited(existing, request, now));
      if updated.enabled {
        var _ := kafkaService.AddTopicSubscription(updated.topic);
      }
      ghost var between := Topics();
      assert MaySubscribe(old(Topics()), between, updated.topic, updated.enabled);
      if topic != updated.topic {
        var enabledConfigs := FindEnabledConfigurationsByTopic(topic);
        var _ := kafkaService.RemoveTopicSubscriptionIfUnused(topic, enabledConfigs);
      }
      assert MayUnsubscribe(between, Topics(), topic,
        topic != updated.topic && repository.FindByTopicAndEnabledTrue(topic) == []);
      return Success(MapToResponse(updated));
    }

    /** `findById`: the stored record with that id, or not found. */
    function FindById(id: string): (r: Outcome<NotifierConfigurationResponse>)
      reads repository
      ensures r.Success? <==> id in repository.Ids()
      ensures r.Success? ==> Described(r.value) in repository.documents && r.value.id == id
      ensures r.Failure? ==> r.error == EntityNotFound(NotFoundMessage(id))
    {
      match repository.FindById(id)
      case None => Failure(EntityNotFound(NotFoundMessage(id)))
      case Some(c) => Success(MapToResponse(c))
    }

    /** `findByTopic`: a response for each record on the topic, in stored order. */
    function FindByTopic(topic: string): (r: seq<NotifierConfigurationResponse>)
      reads repository
      ensures forall x :: x in r ==> Described(x) in repository.documents && x.topic == topic
      ensures forall c :: c in repository.documents && c.topic == topic ==> MapToResponse(c) in r
    {
      var found := repository.FindByTopic(topic);
      var r := MapAllToResponse(found);
      assert forall c :: c in found ==> MapToResponse(c) in r by {
        forall c | c in found
          ensures MapToResponse(c) in r
        {
          var i :| 0 <= i < |found| && found[i] == c;
          assert Described(r[i]) == c;
        }
      }
      r
    }

    /** `findEnabledConfigurations`: a response for each enabled record, in stored order. */
    function FindEnabledConfigurations(): (r: seq<NotifierConfigurationResponse>)
      reads repository
      ensures forall x :: x in r ==> Described(x) in repository.documents && x.enabled
      ensures forall c :: c in repository.documents && c.enabled ==> MapToResponse(c) in r
    {
      var found := repository.FindByEnabledTrue();
      var r := MapAllToResponse(found);
      assert forall c :: c in found ==> MapToResponse(c) in r by {
        forall c | c in found
          ensures MapToResponse(c) in r
        {
          var i :| 0 <= i < |found| && found[i] == c;
          assert Described(r[i]) == c;
        }
      }
      r
    }

    /** `findEnabledConfigurationsByTopic`: the enabled records on the topic. */
    function FindEnabledConfigurationsByTopic(topic: string): (r: seq<NotifierConfiguration>)
      reads repository
      ensures forall c :: c in r <==> c in repository.documents && c.enabled && c.topic == topic
    {
      repository.FindByTopicAndEnabledTrue(topic)
    }

    /**
     * `delete`: refused when the id is unknown; otherwise the record is
     * removed and its topic is unsubscribed if no enabled configuration is
     * left on it.
     */
    method Delete(id: string) returns (r: Outcome<()>)
      requires Valid()
      modifies repository, kafkaService.processor
      ensures Valid()
      ensures KeptContainers(old(kafkaService.processor.topicContainers), kafkaService.processor.topicContainers)
      ensures old(repository.FindById(id)).None? ==>
        (r == Failure(EntityNotFound(NotFoundMessage(id))) && unchanged(repository, kafkaService.processor))
      ensures old(repository.FindById(id)).Some? ==>
        (var topic := old(repository.FindById(id)).value.topic;
         r == Success(())
         && repository.documents == Remove(old(repository.documents), id)
         && MayUnsubscribe(old(Topics()), Topics(), topic, repository.FindByTopicAndEnabledTrue(topic) == []))
    {
      var found := repository.FindById(id);
      if found.None? {
        return Failure(EntityNotFound(NotFoundMessage(id)));
      }
      var topic := found.value.topic;
      RemoveKeepsPairsUnique(repository.documents, id);
      repository.DeleteById(id);
      var enabledConfigs := FindEnabledConfigurationsByTopic(topic);
      var _ := kafkaService.RemoveTopicSubscriptionIfUnused(topic, enabledConfigs);
      return Success(());
    }

    /**
     * `toggleEnabled`: refused when the id is unknown; otherwise the flag is
     * flipped and saved. A record now enabled has its topic subscribed; a
     * record now disabled has its topic unsubscribed if no enabled
     * configuration is left on it.
     */
    method ToggleEnabled(id: string, now: int) returns (r: Outcome<NotifierConfigurationResponse>)
      requires Valid()
      modifies repository, kafkaService.processor
      ensures Valid()
      ensures KeptContainers(old(kafkaService.processor.topicContainers), kafkaService.processor.topicContainers)
      ensures old(repository.FindById(id)).None? ==>
        (r == Failure(EntityNotFound(NotFoundMessage(id))) && unchanged(repository, kafkaService.processor))
      ensures old(repository.FindById(id)).Some? ==>
        (var updated := Toggled(old(repository.FindById(id)).value, now);
         r == Success(MapToResponse(updated))
         && repository.documents == Upsert(old(repository.documents), updated)
         && if updated.enabled then MaySubscribe(old(Topics()), Topics(), updated.topic, true)
            else MayUnsubscribe(old(Topics()), Topics(), updated.topic,
                   repository.FindByTopicAndEnabledTrue(updated.topic) == []))
    {
      var found := repository.FindById(id);
      if found.None? {
        return Failure(EntityNotFound(NotFoundMessage(id)));
      }
      ReplaceKeepsPairsUnique(repository.documents, found.value, Toggled(found.value, now));
      var updated := repository.Save(Toggled(found.value, now));
      if updated.enabled {
        var _ := kafkaService.AddTopicSubscription(updated.topic);
      } else {
        var enabledConfigs := FindEnabledConfigurationsByTopic(updated.topic);
        var _ := kafkaService.RemoveTopicSubscriptionIfUnused(updated.topic, enabledConfigs);
      }
      return Success(MapToResponse(updated));
    }
  }
}
