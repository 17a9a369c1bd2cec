/**
 * The stored entities and the document repository that holds them.
 *
 * A `NotifierConfiguration` says which notifier watches which topic, the
 * rule a message must meet, the actions to run, whether it is enabled and
 * how it is throttled. The repository is the `notifier_configurations`
 * collection in its natural order.
 */
module Model {
  import opened Text
  import opened Json

  /** One action of a configuration: its `type` ("call", ...) and its parameters. */
  datatype NotificationAction = NotificationAction(kind: string, params: Fields)

  /** Timestamps are clock readings; absent optional fields are Java null. */
  datatype NotifierConfiguration = NotifierConfiguration(
    id: string,
    notifier: string,
    topic: string,
    rules: Fields,
    actions: seq<NotificationAction>,
    enabled: bool,
    description: Option<string>,
    throttlePeriodMinutes: Option<int>,
    throttlePermitsPerPeriod: Option<int>,
    createdAt: int,
    updatedAt: Option<int>,
    createdBy: Option<string>,
    updatedBy: Option<string>)

  /** The body of a create or update call; `enabled` may be left out (null). */
  datatype NotifierConfigurationRequest = NotifierConfigurationRequest(
    notifier: string,
    topic: string,
    rules: Fields,
    actions: seq<NotificationAction>,
    enabled: Option<bool>,
    description: Option<string>,
    throttlePeriodMinutes: Option<int>,
    throttlePermitsPerPeriod: Option<int>)

  datatype NotifierConfigurationResponse = NotifierConfigurationResponse(
    id: string,
    notifier: string,
    topic: string,
    rules: Fields,
    actions: seq<NotificationAction>,
    enabled: bool,
    description: Option<string>,
    throttlePeriodMinutes: Option<int>,
    throttlePermitsPerPeriod: Option<int>,
    createdAt: int,
    updatedAt: Option<int>,
    createdBy: Option<string>,
    updatedBy: Option<string>)

  /** The stored record a response describes. */
  function Described(r: NotifierConfigurationResponse): NotifierConfiguration
  {
    NotifierConfiguration(r.id, r.notifier, r.topic, r.rules, r.actions, r.enabled, r.description,
      r.throttlePeriodMinutes, r.throttlePermitsPerPeriod, r.createdAt, r.updatedAt, r.createdBy, r.updatedBy)
  }

  /** `mapToResponse`: the response carries every field of the record, so the record can be read back from it. */
  function MapToResponse(c: NotifierConfiguration): (r: NotifierConfigurationResponse)
    ensures Described(r) == c
  {
    NotifierConfigurationResponse(c.id, c.notifier, c.topic, c.rules, c.actions, c.enabled, c.description,
      c.throttlePeriodMinutes, c.throttlePermitsPerPeriod, c.createdAt, c.updatedAt, c.createdBy, c.updatedBy)
  }

  // ---------------------------------------------------------------- queries on a sequence of records

  /** The records `keep` accepts, in their original order. */
  function Select(docs: seq<NotifierConfiguration>, keep: NotifierConfiguration -> bool): (r: seq<NotifierConfiguration>)
    ensures |r| <= |docs|
    ensures forall c :: c in r <==> c in docs && keep(c)
  {
    if docs == [] then []
    else (if keep(docs[0]) then [docs[0]] else []) + Select(docs[1..], keep)
  }

  predicate IsEnabled(c: NotifierConfiguration) { c.enabled }

  function OnTopic(topic: string): NotifierConfiguration -> bool
  {
    (c: NotifierConfiguration) => c.topic == topic
  }

  function EnabledOnTopic(topic: string): NotifierConfiguration -> bool
  {
    (c: NotifierConfiguration) => c.enabled && c.topic == topic
  }

  predicate DistinctIds(docs: seq<NotifierConfiguration>)
  {
    forall i, j :: 0 <= i < j < |docs| ==> docs[i].id != docs[j].id
  }

  function IdsOf(docs: seq<NotifierConfiguration>): set<string>
  {
    set c | c in docs :: c.id
  }

  /** The position of the first record with the given id, if any. */
  function PositionOf(docs: seq<NotifierConfiguration>, id: string): (r: Option<nat>)
    ensures r.Some? ==> r.value < |docs| && docs[r.value].id == id
    ensures r.None? ==> id !in IdsOf(docs)
  {
    if docs == [] then None
    else if docs[0].id == id then Some(0)
    else
      match PositionOf(docs[1..], id)
      case None => None
      case Some(k) => Some(k + 1)
  }

  /** The record with the given id, if any. */
  function WithId(docs: seq<NotifierConfiguration>, id: string): (r: Option<NotifierConfiguration>)
    ensures r.Some? ==> r.value in docs && r.value.id == id
    ensures r.None? ==> id !in IdsOf(docs)
  {
    match PositionOf(docs, id)
    case None => None
    case Some(i) => Some(docs[i])
  }

  /** `docs` with the record of the same id replaced by `c`, or `c` appended when there is none. */
  function Upsert(docs: seq<NotifierConfiguration>, c: NotifierConfiguration): (r: seq<NotifierConfiguration>)
    ensures c in r
    ensures IdsOf(r) == IdsOf(docs) + {c.id}
    ensures forall d :: d in docs && d.id != c.id ==> d in r
    ensures forall d :: d in r ==> d == c || d in docs
  {
    match PositionOf(docs, c.id)
    case None => docs + [c]
    case Some(i) =>
      assert forall j :: 0 <= j < |docs| ==> docs[i := c][j].id == docs[j].id;
      docs[i := c]
  }

  /** `docs` without the records carrying `id`. */
  function Remove(docs: seq<NotifierConfiguration>, id: string): (r: seq<NotifierConfiguration>)
    ensures forall d :: d in r <==> d in docs && d.id != id
    ensures IdsOf(r) == IdsOf(docs) - {id}
  {
    if docs == [] then []
    else (if docs[0].id == id then [] else [docs[0]]) + Remove(docs[1..], id)
  }

  // ---------------------------------------------------------------- the repository

  /**
   * `NotifierConfigurationRepository` over the Mongo collection. Ids are
   * unique; a new record gets an id the database has not used.
   */
  class NotifierConfigurationRepository {
    var documents: seq<NotifierConfiguration>

    ghost predicate Valid()
      reads this
    {
      DistinctIds(documents)
    }

    constructor()
      ensures Valid() && documents == []
    {
      documents := [];
    }

    function Ids(): set<string>
      reads this
    {
      IdsOf(documents)
    }

    /** `findById`. */
    function FindById(id: string): (r: Option<NotifierConfiguration>)
      reads this
      ensures r.Some? ==> r.value in documents && r.value.id == id
      ensures r.None? ==> id !in Ids()
    {
      WithId(documents, id)
    }

    /** `existsByNotifierAndTopic`. */
    function ExistsByNotifierAndTopic(notifier: string, topic: string): (r: bool)
      reads this
      ensures r <==> exists c :: c in documents && c.notifier == notifier && c.topic == topic
    {
      exists i :: 0 <= i < |documents| && documents[i].notifier == notifier && documents[i].topic == topic
    }

    /** `findByTopic`. */
    function FindByTopic(topic: string): (r: seq<NotifierConfiguration>)
      reads this
      ensures forall c :: c in r <==> c in documents && c.topic == topic
    {
      Select(documents, OnTopic(topic))
    }

    /** `findByEnabledTrue`. */
    function FindByEnabledTrue(): (r: seq<NotifierConfiguration>)
      reads this
      ensures forall c :: c in r <==> c in documents && c.enabled
    {
      Select(documents, IsEnabled)
    }

    /** `findByTopicAndEnabledTrue`. */
    function FindByTopicAndEnabledTrue(topic: string): (r: seq<NotifierConfiguration>)
      reads this
      ensures forall c :: c in r <==> c in documents && c.enabled && c.topic == topic
    {
      Select(documents, EnabledOnTopic(topic))
    }

    /** `save` of a record that has no id yet: it is appended under the id the database generates. */
    method Insert(c: NotifierConfiguration, generatedId: string) returns (saved: NotifierConfiguration)
      requires Valid()
      requires generatedId !in Ids()
      modifies this
      ensures Valid()
      ensures saved == c.(id := generatedId)
      ensures documents == old(documents) + [saved]
    {
      saved := c.(id := generatedId);
      documents := documents + [saved];
      assert forall i :: 0 <= i < |old(documents)| ==> old(documents)[i] in old(documents);
    }

    /** `save` of a record with an id: it replaces the record with that id, or is added when there is none. */
    method Save(c: NotifierConfiguration) returns (saved: NotifierConfiguration)
      requires Valid()
      modifies this
      ensures Valid()
      ensures saved == c
      ensures documents == Upsert(old(documents), c)
    {
      UpsertKeepsIdsDistinct(documents, c);
      documents := Upsert(documents, c);
      saved := c;
    }

    /** `deleteById`: removes the record with that id, if any. */
    method DeleteById(id: string)
      requires Valid()
      modifies this
      ensures Valid()
      ensures documents == Remove(old(documents), id)
    {
      RemoveKeepsIdsDistinct(documents, id);
      documents := Remove(documents, id);
    }
  }

  lemma UpsertKeepsIdsDistinct(docs: seq<NotifierConfiguration>, c: NotifierConfiguration)
    requires DistinctIds(docs)
    ensures DistinctIds(Upsert(docs, c))
  {
    match PositionOf(docs, c.id)
    case None =>
      assert forall i :: 0 <= i < |docs| ==> docs[i] in docs;
    case Some(i) =>
      assert forall j :: 0 <= j < |docs| ==> Upsert(docs, c)[j].id == docs[j].id;
  }

  lemma {:induction false} RemoveKeepsIdsDistinct(docs: seq<NotifierConfiguration>, id: string)
    requires DistinctIds(docs)
    ensures DistinctIds(Remove(docs, id))
  {
    if docs != [] {
      RemoveKeepsIdsDistinct(docs[1..], id);
      var rest := Remove(docs[1..], id);
      var r := Remove(docs, id);
      if docs[0].id != id {
        assert r == [docs[0]] + rest;
        forall j | 1 <= j < |r|
          ensures r[0].id != r[j].id
        {
          assert r[j] in docs[1..];
          var k :| 0 <= k < |docs[1..]| && docs[1..][k] == r[j];
          assert docs[k + 1] == r[j];
        }
      }
    }
  }
}
