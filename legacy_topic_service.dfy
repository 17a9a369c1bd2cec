/**
 * The legacy `KafkaTopicService` (package `hoatv.kafka.notifier.service`):
 * the topic list the static listener is declared with, and two queries.
 *
 * Each query reads the collection; `docs` is what the read returned, or
 * `None` when the repository threw, which every query catches.
 */
module LegacyTopicService {
  import opened Text
  import opened Model
  import DynamicProcessor

  /** The topic the listener falls back to when no topic is configured. */
  const DefaultTopic: string := "default-topic"

  /** `map(NotifierConfiguration::getTopic)`. */
  function TopicsOf(docs: seq<NotifierConfiguration>): (r: seq<string>)
    ensures |r| == |docs|
    ensures forall i :: 0 <= i < |docs| ==> r[i] == docs[i].topic
  {
    seq(|docs|, i requires 0 <= i < |docs| => docs[i].topic)
  }

  /** The position of the first occurrence of `x` in `s`, or `|s|` when there is none. */
  function FirstIndex(s: seq<string>, x: string): (r: nat)
    ensures r <= |s|
    ensures r < |s| <==> x in s
    ensures r < |s| ==> s[r] == x
    ensures forall k :: 0 <= k < r ==> s[k] != x
  {
    if s == [] then 0
    else if s[0] == x then 0
    else 1 + FirstIndex(s[1..], x)
  }

  /** `distinct()`: each element once, at the place it first occurs. */
  function Distinct(s: seq<string>): (r: seq<string>)
  {
    if s == [] then []
    else
      var rest := Distinct(s[..|s| - 1]);
      if s[|s| - 1] in rest then rest else rest + [s[|s| - 1]]
  }

  /**
   * `Distinct` keeps exactly the elements of its input, each once, ordered
   * by where they first occur.
   */
  lemma DistinctSpec(s: seq<string>)
    ensures forall x :: x in Distinct(s) <==> x in s
    ensures forall i, j :: 0 <= i < j < |Distinct(s)| ==> Distinct(s)[i] != Distinct(s)[j]
    ensures forall i, j :: 0 <= i < j < |Distinct(s)| ==> FirstIndex(s, Distinct(s)[i]) < FirstIndex(s, Distinct(s)[j])
  {
    DistinctMembers(s);
    DistinctNoRepeats(s);
    DistinctFirstOrder(s);
  }

  lemma {:induction false} DistinctMembers(s: seq<string>)
    ensures forall x :: x in Distinct(s) <==> x in s
  {
    if s != [] {
      DistinctMembers(s[..|s| - 1]);
      assert s == s[..|s| - 1] + [s[|s| - 1]];
    }
  }

  lemma {:induction false} DistinctNoRepeats(s: seq<string>)
    ensures forall i, j :: 0 <= i < j < |Distinct(s)| ==> Distinct(s)[i] != Distinct(s)[j]
  {
    if s != [] {
      DistinctNoRepeats(s[..|s| - 1]);
    }
  }

  lemma {:induction false} DistinctFirstOrder(s: seq<string>)
    ensures forall i, j :: 0 <= i < j < |Distinct(s)| ==> FirstIndex(s, Distinct(s)[i]) < FirstIndex(s, Distinct(s)[j])
  {
    if s != [] {
      var init := s[..|s| - 1];
      var last := s[|s| - 1];
      DistinctFirstOrder(init);
      DistinctMembers(init);
      assert s == init + [last];
      var rest := Distinct(init);
      forall x | x in init
        ensures FirstIndex(s, x) == FirstIndex(init, x)
      {
        FirstIndexPrefix(init, [last], x);
      }
      if last !in rest {
        assert last !in init;
        assert FirstIndex(s, last) == |s| - 1;
        forall i | 0 <= i < |rest|
          ensures FirstIndex(s, rest[i]) < FirstIndex(s, last)
        {
          assert rest[i] in init;
        }
      }
    }
  }

  /** Appending to a sequence does not move the first occurrence of an element already there. */
  lemma {:induction false} FirstIndexPrefix(a: seq<string>, b: seq<string>, x: string)
    requires x in a
    ensures FirstIndex(a + b, x) == FirstIndex(a, x)
  {
    if a[0] != x {
      assert (a + b)[1..] == a[1..] + b;
      FirstIndexPrefix(a[1..], b, x);
    }
  }

  /**
   * `getAllTopics`: the distinct topics of the enabled configurations in the
   * order they are first met, or `["default-topic"]` when there are none or
   * the read fails; never empty.
   */
  function GetAllTopics(docs: Option<seq<NotifierConfiguration>>): (r: seq<string>)
    ensures |r| > 0
  {
    match docs
    case None => [DefaultTopic]
    case Some(d) =>
      var topics := Distinct(TopicsOf(Select(d, IsEnabled)));
      if |topics| == 0 then [DefaultTopic] else topics
  }

  /** `getAllTopicsIncludingDisabled`: the distinct topics of all configurations, or none when the read fails. */
  function GetAllTopicsIncludingDisabled(docs: Option<seq<NotifierConfiguration>>): (r: seq<string>)
    ensures docs.None? ==> r == []
  {
    match docs
    case None => []
    case Some(d) => Distinct(TopicsOf(d))
  }

  /** `hasEnabledConfigurations`: some enabled configuration is on the topic; false when the read fails. */
  function HasEnabledConfigurations(docs: Option<seq<NotifierConfiguration>>, topic: string): (r: bool)
    ensures r <==> docs.Some? && exists c :: c in docs.value && c.enabled && c.topic == topic
  {
    match docs
    case None => false
    case Some(d) =>
      var found := Select(d, EnabledOnTopic(topic));
      assert forall c :: c in found <==> c in d && c.enabled && c.topic == topic;
      assert |found| != 0 ==> found[0] in found;
      |found| != 0
  }

  /** A topic appears in a list of records' topics exactly when some record is on it. */
  lemma TopicsOfMembers(docs: seq<NotifierConfiguration>, topic: string)
    ensures topic in TopicsOf(docs) <==> exists c :: c in docs && c.topic == topic
  {
    if topic in TopicsOf(docs) {
      var i :| 0 <= i < |docs| && TopicsOf(docs)[i] == topic;
      assert docs[i] in docs;
    }
  }

  /**
   * With a readable collection that has an enabled configuration, the
   * listener's topics are the topics of the enabled configurations, each
   * once, in first-occurrence order.
   */
  lemma GetAllTopicsSpec(d: seq<NotifierConfiguration>)
    requires exists c :: c in d && c.enabled
    ensures var r := GetAllTopics(Some(d));
      (forall t :: t in r <==> exists c :: c in d && c.enabled && c.topic == t)
      && (forall i, j :: 0 <= i < j < |r| ==> r[i] != r[j])
      && (forall i, j :: 0 <= i < j < |r| ==>
            FirstIndex(TopicsOf(Select(d, IsEnabled)), r[i]) < FirstIndex(TopicsOf(Select(d, IsEnabled)), r[j]))
  {
    var enabled := Select(d, IsEnabled);
    var topics := TopicsOf(enabled);
    DistinctSpec(topics);
    var c :| c in d && c.enabled;
    TopicsOfMembers(enabled, c.topic);
    assert c.topic in Distinct(topics);
    forall t
      ensures t in Distinct(topics) <==> exists c :: c in d && c.enabled && c.topic == t
    {
      TopicsOfMembers(enabled, t);
    }
  }

  /** Without an enabled configuration, or when the read fails, the listener consumes only the default topic. */
  lemma GetAllTopicsFallback(docs: Option<seq<NotifierConfiguration>>)
    requires docs.Some? ==> forall c :: c in docs.value ==> !c.enabled
    ensures GetAllTopics(docs) == [DefaultTopic]
  {
    if docs.Some? {
      var topics := TopicsOf(Select(docs.value, IsEnabled));
      DistinctSpec(topics);
      if |Distinct(topics)| != 0 {
        assert Distinct(topics)[0] in topics;
        TopicsOfMembers(Select(docs.value, IsEnabled), Distinct(topics)[0]);
      }
    }
  }

  /**
   * A topic other than the default is in the listener's list exactly when
   * `hasEnabledConfigurations` holds for it; the listed topics are the
   * topics the dynamic processor is asked to consume.
   */
  lemma ListedIffEnabled(d: seq<NotifierConfiguration>, topic: string)
    requires topic != DefaultTopic
    ensures topic in GetAllTopics(Some(d)) <==> HasEnabledConfigurations(Some(d), topic)
    ensures topic in GetAllTopics(Some(d)) <==> topic in DynamicProcessor.EnabledTopics(d)
  {
    if exists c :: c in d && c.enabled {
      GetAllTopicsSpec(d);
    } else {
      GetAllTopicsFallback(Some(d));
    }
  }

  /** The topics including disabled ones are those of every configuration, each once, in first-occurrence order. */
  lemma GetAllTopicsIncludingDisabledSpec(d: seq<NotifierConfiguration>)
    ensures var r := GetAllTopicsIncludingDisabled(Some(d));
      (forall t :: t in r <==> exists c :: c in d && c.topic == t)
      && (forall i, j :: 0 <= i < j < |r| ==> r[i] != r[j])
      && (forall i, j :: 0 <= i < j < |r| ==> FirstIndex(TopicsOf(d), r[i]) < FirstIndex(TopicsOf(d), r[j]))
  {
    DistinctSpec(TopicsOf(d));
    forall t
      ensures t in Distinct(TopicsOf(d)) <==> exists c :: c in d && c.topic == t
    {
      TopicsOfMembers(d, t);
    }
  }
}
