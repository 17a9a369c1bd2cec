# spring-kafka-notifier, modelled in Dafny

spring-kafka-notifier watches Kafka topics and sends Slack notifications. Each
stored *notifier configuration* names a topic, a rule, a list of actions, an
enabled flag and optional throttle settings. A record arriving on a topic is
checked against the rule of every enabled configuration on that topic. When
the rule matches and the notifier's rate limiter allows it, every `call`
action of the configuration renders its message template from the record and
posts it to a Slack webhook.

The model covers the logic between Kafka, MongoDB and HTTP:

- **Rule interpreters** (`rule_engine.dfy`, `legacy_rule_engine.dfy`). Both
  versions of `RuleEvaluationService` are total functions. A rule map is read
  as a conjunction of operator entries: `$and`, `$or`, `$gt`, `$gte`, `$lt`,
  `$lte`, `$eq`, `$ne`, `$in` and `$contains`. Every Java exception on the way
  (a bad cast, a null `$value`, an unparsable number) is a `Thrown` value that
  the top level turns into `false`. The current version also accepts plain-text
  messages, parsing them into numbers, booleans or text. The legacy version
  only accepts JSON, and its `$in` and `$contains` need a `$field`.
- **Throttling** (`throttling.dfy`). `NotificationThrottlingService` is a class
  with two fields:
  - the map from the key `name-permits-period` to a limiter;
  - the registry's map, for limiters with the default settings.

  A limiter is a fixed-window counter. `Duration.toString` is written out, so
  the key text is exact.
- **Subscription bookkeeping** (`dynamic_processor.dfy`,
  `simple_processor.dfy`, `kafka_service.dfy`). Each processor is a class
  holding `subscribedTopics` and `topicContainers`. A container is a value
  with a `running` flag. In the dynamic processor, the container also carries
  the configuration list captured when its topic was subscribed. A start or
  stop that throws is a nondeterministic choice.
- **Template rendering** (`notification.dfy`). A message is flattened into
  dotted keys. `${name}` placeholders are substituted, and an unknown
  placeholder stays as written. Sending is an append to the `sent` log.
- **Configuration lifecycle** (`model.dfy`, `configuration_service.dfy`):
  - create, update, toggle and delete on the repository, a sequence of
    records in collection order;
  - uniqueness of (notifier, topic);
  - the subscribe and unsubscribe side effects of each operation.
- **The legacy pipeline** (`legacy_processor.dfy`, `legacy_topic_service.dfy`):
  - the unthrottled static listener;
  - the topic list it is declared with, with its `default-topic` fallback.

Shared pieces:
- `text.dfy`: Java string operations: `trim`, `contains`, `Long.parseLong`,
  `split("\\.")`, decimal text, and case folding and digits restricted to
  ASCII (Java folds and recognises the full Unicode range).
- `json.dfy`: the JSON tree, Jackson's `asText` and `toString`, and
  `Object.toString` of rule values.

`readTree` (Jackson's parser) is a parameter of type `string -> Option<Json>`:
`None` means the text is not JSON. The clock is a parameter `now`, in seconds.

The source disagrees with itself in one place. The copy of
`model/NotifierConfiguration.java` has no throttle fields, but the services and
the DTOs read and write `throttlePeriodMinutes` and
`throttlePermitsPerPeriod`. The model follows the services: the record has both
fields, as optional values.

## Model

| member | source | states |
|---|---|---|
| Text.TrimEmptyIffBlank | src/main/java/com/hoatv/kafka/notifier/service/RuleEvaluationService.java:53-55 | `trim()` gives the empty string exactly when every character is at most U+0020 |
| Text.Trim | src/main/java/com/hoatv/kafka/notifier/service/RuleEvaluationService.java:57 | the trimmed text starts and ends with a character above U+0020, or is empty |
| Text.ContainsIff | src/main/java/com/hoatv/kafka/notifier/service/RuleEvaluationService.java:272-275 | `String.contains` holds exactly when the needle occurs at some position |
| Text.ParseLong | src/main/java/com/hoatv/kafka/notifier/service/RuleEvaluationService.java:76 | `Long.parseLong` only yields values in the 64-bit range, and only for text without a `.` |
| Text.ParseLongOfIntText | src/main/java/com/hoatv/kafka/notifier/service/RuleEvaluationService.java:76-81 | the decimal text of any 64-bit integer parses back to that integer |
| Text.SplitOnDotJoin | src/main/java/com/hoatv/kafka/notifier/service/RuleEvaluationService.java:313-315 | `split("\\.")` of dot-joined dot-free segments, the last non-empty, gives back the segments |
| Json.Lookup | src/main/java/com/hoatv/kafka/notifier/service/RuleEvaluationService.java:327 | `get(field)` finds nothing exactly when no member has that name, and otherwise finds a member with that name |
| Json.Get | src/main/java/com/hoatv/kafka/notifier/service/RuleEvaluationService.java:327 | only an object node has members |
| RuleEngine.Member | src/main/java/com/hoatv/kafka/notifier/service/RuleEvaluationService.java:287-288 | a rule value that is JSON null reads as a missing key (`Map.get` gives null) |
| RuleEngine.ParseSimpleValue | src/main/java/com/hoatv/kafka/notifier/service/RuleEvaluationService.java:70-94 | non-JSON text becomes a number exactly when it parses as one (as a decimal when it has a dot, as a long otherwise); failing that a boolean exactly when it is `true` or `false` in any case, with `parseBoolean`'s value; and itself as text exactly when neither applies |
| RuleEngine.ParseSimpleLong | src/main/java/com/hoatv/kafka/notifier/service/RuleEvaluationService.java:76-81 | the text of a 64-bit integer becomes that integer's number node |
| RuleEngine.ParseSimpleBoolean | src/main/java/com/hoatv/kafka/notifier/service/RuleEvaluationService.java:88-90 | `true`/`false` in any case become the boolean `parseBoolean` reads |
| RuleEngine.ParseMessageBlank | src/main/java/com/hoatv/kafka/notifier/service/RuleEvaluationService.java:53-55 | a blank message becomes the null node |
| RuleEngine.EvaluateRulesAll | src/main/java/com/hoatv/kafka/notifier/service/RuleEvaluationService.java:36-47 | `evaluateRules` is true exactly when every entry evaluates to true on the parsed message; an exception anywhere gives false |
| RuleEngine.EvalNodeAll | src/main/java/com/hoatv/kafka/notifier/service/RuleEvaluationService.java:100-173 | a rule map holds exactly when every entry holds, so the empty map holds |
| RuleEngine.UnsupportedEntryFails | src/main/java/com/hoatv/kafka/notifier/service/RuleEvaluationService.java:166-168 | an unknown operator key evaluates to false |
| RuleEngine.UnsupportedOperatorFails | src/main/java/com/hoatv/kafka/notifier/service/RuleEvaluationService.java:100-173 | a rule map with an unknown operator at the top level of the rule map never matches |
| RuleEngine.UnsupportedOperatorReachedFails | src/main/java/com/hoatv/kafka/notifier/service/RuleEvaluationService.java:100-191 | a rule map never matches when an unknown operator is reached on every path: in an entry of the map, in some `$and` condition, or in every `$or` condition, at any depth |
| RuleEngine.UnsupportedAfterHoldingBranch | src/main/java/com/hoatv/kafka/notifier/service/RuleEvaluationService.java:184-191 | an unknown operator in an `$or` condition after one that holds is never evaluated, so `{$or: [{}, {$bad: 1}]}` matches every message |
| RuleEngine.SingleRule | src/main/java/com/hoatv/kafka/notifier/service/RuleEvaluationService.java:100-173 | a one-entry rule map holds exactly when its entry holds |
| RuleEngine.ComparisonEntry | src/main/java/com/hoatv/kafka/notifier/service/RuleEvaluationService.java:193-211 | `$gt`, `$gte`, `$lt` and `$lte` each dispatch to the comparison with their own operator |
| RuleEngine.AllHoldIff | src/main/java/com/hoatv/kafka/notifier/service/RuleEvaluationService.java:175-182 | `$and` holds exactly when every child map holds, so the empty list holds |
| RuleEngine.AnyHoldsIff | src/main/java/com/hoatv/kafka/notifier/service/RuleEvaluationService.java:184-191 | `$or` holding means some child holds; without exceptions it holds exactly when some child holds, so the empty list fails |
| RuleEngine.EvalComparison | src/main/java/com/hoatv/kafka/notifier/service/RuleEvaluationService.java:285-307 | a comparison can only hold when the condition has a non-null `$value` |
| RuleEngine.NumberBound | src/main/java/com/hoatv/kafka/notifier/service/RuleEvaluationService.java:290-306 | against any numeric bound, integer or decimal, a comparison holds exactly when the subject is a number standing in that relation to the bound, and is false otherwise |
| RuleEngine.FieldThreshold | src/main/java/com/hoatv/kafka/notifier/service/RuleEvaluationService.java:290-296 | with `$field` and a numeric `$value`, the entry holds exactly when the field is a number in that relation to the bound; a missing or non-numeric field gives false with no fallback to the whole message |
| RuleEngine.DirectThreshold | src/main/java/com/hoatv/kafka/notifier/service/RuleEvaluationService.java:299-306 | without `$field`, a numeric `$value` is compared with the whole message, and only when it is a number |
| RuleEngine.IntegerMessageThreshold | src/main/java/com/hoatv/kafka/notifier/service/RuleEvaluationService.java:36-94 | a bare integer message against an integer bound matches exactly when the numeric relation holds |
| RuleEngine.ParseDoubleOfIntText | src/main/java/com/hoatv/kafka/notifier/service/RuleEvaluationService.java:294 | `Double.parseDouble(value.toString())` of an integer bound is that integer |
| RuleEngine.ParseDoubleOfNumberText | src/main/java/com/hoatv/kafka/notifier/service/RuleEvaluationService.java:294 | `Double.parseDouble(value.toString())` of any number bound, integer or decimal, is that number's value |
| Json.DoubleTextValue | src/main/java/com/hoatv/kafka/notifier/service/RuleEvaluationService.java:294 | `Double.toString` of a decimal is plain decimal text that `Double.parseDouble` reads back as the same value |
| Text.ParseDecimalOfParts | src/main/java/com/hoatv/kafka/notifier/service/RuleEvaluationService.java:71-73 | an optional minus, digits, a dot and digits parse as the signed digits with the fraction's length as scale |
| RuleEngine.ParseSimpleDecimal | src/main/java/com/hoatv/kafka/notifier/service/RuleEvaluationService.java:71-73 | a message of digits, a dot and digits becomes a double node whose value is the decimal those digits write |
| RuleEngine.DecimalMessageValue | src/main/java/com/hoatv/kafka/notifier/service/RuleEvaluationService.java:36-94 | a message of digits, a dot and digits that the JSON reader rejects or reads alike is read as a number node whose value is the decimal it writes |
| RuleEngine.ThresholdOnValue | src/main/java/com/hoatv/kafka/notifier/service/RuleEvaluationService.java:299-306 | a message read as a number of value x meets `{op: {$value: b}}` exactly when x stands in relation op to b |
| RuleEngine.ScalarSelfEquality | src/main/java/com/hoatv/kafka/notifier/service/RuleEvaluationService.java:334-349 | a number, boolean or text compares equal to itself as the expected value |
| RuleEngine.NumberEqualsItsText | src/main/java/com/hoatv/kafka/notifier/service/RuleEvaluationService.java:334-349 | a number node equals the text of that number, because their string forms are compared |
| RuleEngine.NullExpectedThrows | src/main/java/com/hoatv/kafka/notifier/service/RuleEvaluationService.java:334-349 | comparing with a null expected value throws |
| RuleEngine.NotEqualsMissingField | src/main/java/com/hoatv/kafka/notifier/service/RuleEvaluationService.java:213-236 | on a missing field `$eq` is false and `$ne` is true |
| RuleEngine.AnyEqualIff | src/main/java/com/hoatv/kafka/notifier/service/RuleEvaluationService.java:248-259 | the `$values` loop succeeding means some element compares equal; with non-null elements it succeeds exactly then |
| RuleEngine.InFieldMembership | src/main/java/com/hoatv/kafka/notifier/service/RuleEvaluationService.java:239-263 | `$in` on a field is false for a missing field, and otherwise true exactly when some listed value compares equal |
| RuleEngine.ContainsOnField | src/main/java/com/hoatv/kafka/notifier/service/RuleEvaluationService.java:265-272 | `$contains` on a field holds exactly when the field is text containing the search text, ignoring case |
| RuleEngine.ResolvePathAppend | src/main/java/com/hoatv/kafka/notifier/service/RuleEvaluationService.java:316-325 | following a path in two parts is following the first part, then the second, and any missing segment gives nothing |
| RuleEngine.DottedFieldFollowsPath | src/main/java/com/hoatv/kafka/notifier/service/RuleEvaluationService.java:312-329 | a dotted `$field` resolves segment by segment along its parts |
| LegacyRuleEngine.EvaluateRules | src/main/java/hoatv/kafka/notifier/service/RuleEvaluationService.java:21-31 | a message that is not JSON never matches |
| LegacyRuleEngine.EvalIn | src/main/java/hoatv/kafka/notifier/service/RuleEvaluationService.java:174-190 | `$in` can only hold when the condition has a `$field` |
| LegacyRuleEngine.EvalContains | src/main/java/hoatv/kafka/notifier/service/RuleEvaluationService.java:192-204 | `$contains` can only hold when the condition has a `$field` |
| LegacyRuleEngine.NodeAgrees | src/main/java/hoatv/kafka/notifier/service/RuleEvaluationService.java:34-107 | on rules whose `$in` and `$contains` all have a `$field`, the legacy map evaluation equals the current one, with the same conjunction and unknown-operator results |
| LegacyRuleEngine.EntryAgrees | src/main/java/hoatv/kafka/notifier/service/RuleEvaluationService.java:34-107 | the same agreement, entry by entry, including comparison, `$eq`/`$ne`, dotted fields and `compareValues` |
| LegacyRuleEngine.ConditionsAgree | src/main/java/hoatv/kafka/notifier/service/RuleEvaluationService.java:110-127 | the legacy `$and` and `$or` loops equal the current ones |
| LegacyRuleEngine.AgreesWithCurrent | src/main/java/hoatv/kafka/notifier/service/RuleEvaluationService.java:21-31 | for trimmed JSON messages and such rules, both `evaluateRules` give the same answer |
| LegacyRuleEngine.FieldlessInDiffers | src/main/java/hoatv/kafka/notifier/service/RuleEvaluationService.java:174-190 | a field-less `$in` is false in the legacy version but true in the current one on a matching text message |
| Throttling.DurationTextRoundTrip | src/main/java/com/hoatv/kafka/notifier/service/NotificationThrottlingService.java:112 | the number of seconds can be read back from `Duration.toString` |
| Throttling.DurationTextInjective | src/main/java/com/hoatv/kafka/notifier/service/NotificationThrottlingService.java:112 | different periods have different `Duration.toString` texts |
| Throttling.SplitLimiterKey | src/main/java/com/hoatv/kafka/notifier/service/NotificationThrottlingService.java:112 | the key `name-permits-period` splits at its last two dashes back into its three parts |
| Throttling.LimiterKeyInjective | src/main/java/com/hoatv/kafka/notifier/service/NotificationThrottlingService.java:112-114 | two keys are equal only for the same name, permits and period, so a changed setting gets a fresh limiter |
| Throttling.Acquire | src/main/java/com/hoatv/kafka/notifier/service/NotificationThrottlingService.java:91 | `acquirePermission` succeeds exactly when a permit is left in the current window, and then takes one |
| Throttling.AcquireFor | src/main/java/com/hoatv/kafka/notifier/service/NotificationThrottlingService.java:89-91 | taking a permit changes only the limiter of that key, wherever it lives |
| Throttling.ComputeIfAbsent | src/main/java/com/hoatv/kafka/notifier/service/NotificationThrottlingService.java:114-134 | the map gains at most the one key, only when absent; present keys are reused; it fails only when absent custom settings are invalid |
| Throttling.Admit | src/main/java/com/hoatv/kafka/notifier/service/NotificationThrottlingService.java:88-101 | every limiter stays within its permit limit |
| Throttling.AdmitInWindow | src/main/java/com/hoatv/kafka/notifier/service/NotificationThrottlingService.java:88-101 | within the current window a call is allowed exactly when a permit is left, and takes it |
| Throttling.WindowOfExisting | src/main/java/com/hoatv/kafka/notifier/service/NotificationThrottlingService.java:88-101 | calls within the current window of an existing limiter: as many are allowed as it has permits left, then all are throttled |
| Throttling.FirstCall | src/main/java/com/hoatv/kafka/notifier/service/NotificationThrottlingService.java:114-124 | the first call for a new key with valid settings is allowed |
| Throttling.FirstPermitsThenThrottled | src/main/java/com/hoatv/kafka/notifier/service/NotificationThrottlingService.java:88-101 | with N permits, the first N calls within one period are allowed and the later ones throttled |
| Throttling.NextWindowAllows | src/main/java/com/hoatv/kafka/notifier/service/NotificationThrottlingService.java:88-101 | once a window has passed the next call is allowed |
| Throttling.OtherNotifiersUntouched | src/main/java/com/hoatv/kafka/notifier/service/NotificationThrottlingService.java:112 | a call for one notifier leaves every other notifier's limiters as they were |
| Throttling.ThrottleConfig | src/main/java/com/hoatv/kafka/notifier/service/NotificationThrottlingService.java:54-67 | every limiter stays within its permit limit |
| Throttling.ThrottleAllIsAdmitAll | src/main/java/com/hoatv/kafka/notifier/service/NotificationThrottlingService.java:54-67 | calls for a configuration are calls for its notifier with its effective period and permits |
| Throttling.ConfigBurst | src/main/java/com/hoatv/kafka/notifier/service/NotificationThrottlingService.java:54-67 | a configuration's own permits and period (minutes) apply, each falling back on its default when absent |
| Throttling.ClearByNameKeepsLimiter | src/main/java/com/hoatv/kafka/notifier/service/NotificationThrottlingService.java:142-145 | as written, clearing by name keeps the composite-keyed limiter, so an exhausted notifier stays throttled |
| Throttling.ClearNotifier | src/main/java/com/hoatv/kafka/notifier/service/NotificationThrottlingService.java:142-145 | corrected clear: exactly the keys of that notifier go |
| Throttling.ClearNotifierResets | src/main/java/com/hoatv/kafka/notifier/service/NotificationThrottlingService.java:142-145 | after the corrected clear the notifier's next call with valid settings is allowed |
| Throttling.ClearAllKeepsRegistryLimiter | src/main/java/com/hoatv/kafka/notifier/service/NotificationThrottlingService.java:150-153 | `clearAllRateLimiters` empties the map, but a default-settings limiter comes back from the registry with its permits spent |
| Throttling.NotificationThrottlingService.constructor | src/main/java/com/hoatv/kafka/notifier/service/NotificationThrottlingService.java:35-45 | no limiters yet; the defaults are the registry's |
| Throttling.NotificationThrottlingService.ShouldSendNotificationFor | src/main/java/com/hoatv/kafka/notifier/service/NotificationThrottlingService.java:54-67 | the decision and new state are those of the configuration's effective settings |
| Throttling.NotificationThrottlingService.ShouldSendNotificationDefault | src/main/java/com/hoatv/kafka/notifier/service/NotificationThrottlingService.java:76-78 | equal to the three-argument call with the default period and permits |
| Throttling.NotificationThrottlingService.ShouldSendNotification | src/main/java/com/hoatv/kafka/notifier/service/NotificationThrottlingService.java:88-101 | find or create the limiter, then take a permit |
| Throttling.NotificationThrottlingService.GetRateLimiterForNotifier | src/main/java/com/hoatv/kafka/notifier/service/NotificationThrottlingService.java:111-135 | the state becomes that of `computeIfAbsent`; a builder failure changes nothing |
| Throttling.NotificationThrottlingService.ClearRateLimiter | src/main/java/com/hoatv/kafka/notifier/service/NotificationThrottlingService.java:142-145 | removes only the entry whose key is exactly the name |
| Throttling.NotificationThrottlingService.ClearNotifierLimiters | src/main/java/com/hoatv/kafka/notifier/service/NotificationThrottlingService.java:142-145 | corrected clear: removes every entry of that notifier |
| Throttling.NotificationThrottlingService.ClearAllRateLimiters | src/main/java/com/hoatv/kafka/notifier/service/NotificationThrottlingService.java:150-153 | the map becomes empty; the registry is kept |
| Notification.MessageNode | src/main/java/com/hoatv/kafka/notifier/service/NotificationService.java:64-72 | text that is not JSON becomes a text node of itself |
| Notification.Outgoing | src/main/java/com/hoatv/kafka/notifier/service/NotificationService.java:29-62 | at most one post, exactly when the provider is `SLACK` and both the webhook URL and the template are present; it goes to that URL with the rendered template |
| Notification.ScalarMessageVariables | src/main/java/com/hoatv/kafka/notifier/service/NotificationService.java:86-89 | a scalar message gives exactly `{value: text}` |
| Notification.TextMessageVariables | src/main/java/com/hoatv/kafka/notifier/service/NotificationService.java:64-89 | a message that is not JSON gives exactly `{value: message}` |
| Notification.ArrayMessageUnchanged | src/main/java/com/hoatv/kafka/notifier/service/NotificationService.java:86-95 | a top-level array gives no variables, so the template is sent as written |
| Notification.FlatObjectVariables | src/main/java/com/hoatv/kafka/notifier/service/NotificationService.java:101-115 | under any prefix, a flat object maps each dotted member name to its text, adds no other key, and keeps the others |
| Notification.FlattenAddsBelow | src/main/java/com/hoatv/kafka/notifier/service/NotificationService.java:101-115 | flattening under a prefix adds only keys below that prefix |
| Notification.FlattenMemberAddsBelow | src/main/java/com/hoatv/kafka/notifier/service/NotificationService.java:105-112 | one member flattened under a prefix adds only keys below that prefix |
| Notification.NestedObjectHasNoOwnKey | src/main/java/com/hoatv/kafka/notifier/service/NotificationService.java:108-109 | a nested object contributes no key of its own, only dotted keys below it |
| Notification.NestedObjectVariables | src/main/java/com/hoatv/kafka/notifier/service/NotificationService.java:101-115 | a flat object nested under `name` gives exactly the variables `name.key`, each holding its leaf's text |
| Notification.MemberLeaves | src/main/java/com/hoatv/kafka/notifier/service/NotificationService.java:105-112 | one member flattened under a prefix puts every leaf reached through it, at any depth, under the key of its path with its text, adds no other key and keeps every other key |
| Notification.FieldsLeaves | src/main/java/com/hoatv/kafka/notifier/service/NotificationService.java:101-115 | the members of an object flattened under a prefix put every leaf, at any depth, under the key of its path with its text, add no other key and keep every other key, provided member names are non-empty, dot-free and distinct at every level |
| Notification.KeyDistinct | src/main/java/com/hoatv/kafka/notifier/service/NotificationService.java:106 | leaves reached through two members with different plain names get different keys, so no leaf overwrites another |
| Notification.ObjectVariables | src/main/java/com/hoatv/kafka/notifier/service/NotificationService.java:83-115 | an object message with plain member names gives, for every leaf however deep, the variable named by its dot-joined path holding its text, and no other variable |
| Notification.VariablesReadFields | src/main/java/com/hoatv/kafka/notifier/service/NotificationService.java:83-115 | every variable of such a message is the text of the leaf a rule's `$field` of the same name reads, so `${a.b}` and `{"$field": "a.b"}` see the same value |
| Notification.CpuMessageVariables | src/test/java/com/hoatv/kafka/notifier/service/NotificationServiceTest.java:142-170 | `{"system": {"cpu": {"usage": 90}}}` gives exactly the variable `system.cpu.usage`, holding "90" |
| Notification.NestedLeafRendered | src/test/java/com/hoatv/kafka/notifier/service/NotificationServiceTest.java:142-170 | the template `CPU usage: ${system.cpu.usage}%` renders as `CPU usage: 90%` for that message |
| Notification.NoPlaceholderUnchanged | src/main/java/com/hoatv/kafka/notifier/service/NotificationService.java:74-78 | a template without `${` is unchanged |
| Notification.EmptyMapUnchanged | src/main/java/com/hoatv/kafka/notifier/service/NotificationService.java:74-78 | with no variables every template is unchanged |
| Notification.KnownPlaceholder | src/main/java/com/hoatv/kafka/notifier/service/NotificationService.java:74-78 | a known `${key}` is replaced by its value |
| Notification.UnknownPlaceholder | src/main/java/com/hoatv/kafka/notifier/service/NotificationService.java:74-78 | an unknown `${key}` stays verbatim |
| Notification.PlainPrefix | src/main/java/com/hoatv/kafka/notifier/service/NotificationService.java:74-78 | text without placeholders passes through unchanged ahead of the rest |
| Notification.OnePlaceholder | src/main/java/com/hoatv/kafka/notifier/service/NotificationService.java:74-78 | a template with one placeholder renders as its text with the value, or the placeholder, in place |
| Notification.NotificationService.ExecuteNotificationAction | src/main/java/com/hoatv/kafka/notifier/service/NotificationService.java:29-41 | the log gains exactly the posts of `Outgoing` |
| Notification.NotificationService.SendNotification | src/main/java/com/hoatv/kafka/notifier/service/NotificationService.java:118-120 | the same as `executeNotificationAction` |
| Notification.NotificationService.SendSlackNotification | src/main/java/com/hoatv/kafka/notifier/service/NotificationService.java:43-62 | one post to the webhook with the rendered template when both parameters are present, none otherwise |
| Notification.NotificationService.ReplaceVariables | src/main/java/com/hoatv/kafka/notifier/service/NotificationService.java:74-78 | the template substituted with the message's variables |
| Notification.NotificationService.CreateVariableMap | src/main/java/com/hoatv/kafka/notifier/service/NotificationService.java:83-96 | the message's variable map: `value` for a scalar, nothing for an array, and for an object every leaf at any depth under its dot-joined path (ObjectVariables) |
| Notification.NotificationService.FlattenJsonToMap | src/main/java/com/hoatv/kafka/notifier/service/NotificationService.java:101-115 | an object's members flattened under the prefix are added, every leaf at any depth under the key of its path (FieldsLeaves); any other node adds nothing |
| Model.MapToResponse | src/main/java/com/hoatv/kafka/notifier/service/NotifierConfigurationService.java:182-198 | the response carries every field of the record |
| Model.Upsert | src/main/java/com/hoatv/kafka/notifier/service/NotifierConfigurationService.java:88 | `save` stores the record under its id, replacing the old one and keeping the others |
| Model.Remove | src/main/java/com/hoatv/kafka/notifier/service/NotifierConfigurationService.java:149 | `deleteById` removes exactly the records with that id |
| Model.UpsertKeepsIdsDistinct | src/main/java/com/hoatv/kafka/notifier/service/NotifierConfigurationService.java:88 | saving keeps ids unique |
| Model.RemoveKeepsIdsDistinct | src/main/java/com/hoatv/kafka/notifier/service/NotifierConfigurationService.java:149 | deleting keeps ids unique |
| Model.NotifierConfigurationRepository.FindById | src/main/java/com/hoatv/kafka/notifier/service/NotifierConfigurationService.java:64-65 | finds a stored record with that id, or reports that none exists |
| Model.NotifierConfigurationRepository.ExistsByNotifierAndTopic | src/main/java/com/hoatv/kafka/notifier/service/NotifierConfigurationService.java:34 | true exactly when a stored record has that notifier and topic |
| Model.NotifierConfigurationRepository.FindByTopic | src/main/java/com/hoatv/kafka/notifier/service/NotifierConfigurationService.java:124 | exactly the stored records on the topic |
| Model.NotifierConfigurationRepository.FindByEnabledTrue | src/main/java/com/hoatv/kafka/notifier/service/DynamicKafkaMessageProcessor.java:69 | exactly the stored enabled records |
| Model.NotifierConfigurationRepository.FindByTopicAndEnabledTrue | src/main/java/com/hoatv/kafka/notifier/service/NotifierConfigurationService.java:139 | exactly the stored enabled records on the topic |
| Model.NotifierConfigurationRepository.Insert | src/main/java/com/hoatv/kafka/notifier/service/NotifierConfigurationService.java:52 | a new record is appended with its generated id |
| Model.NotifierConfigurationRepository.Save | src/main/java/com/hoatv/kafka/notifier/service/NotifierConfigurationService.java:88 | the collection becomes the upsert of the record |
| Model.NotifierConfigurationRepository.DeleteById | src/main/java/com/hoatv/kafka/notifier/service/NotifierConfigurationService.java:149 | the collection loses the records with that id |
| ConfigurationService.NewConfiguration | src/main/java/com/hoatv/kafka/notifier/service/NotifierConfigurationService.java:40-50 | `enabled` defaults to true when the request leaves it null; the creation time is now |
| ConfigurationService.Edited | src/main/java/com/hoatv/kafka/notifier/service/NotifierConfigurationService.java:78-86 | a null `enabled` keeps the old flag; id, creation time and authors are kept; the update time is now |
| ConfigurationService.Toggled | src/main/java/com/hoatv/kafka/notifier/service/NotifierConfigurationService.java:163-164 | only `enabled` (flipped) and the update time change |
| ConfigurationService.MapAllToResponse | src/main/java/com/hoatv/kafka/notifier/service/NotifierConfigurationService.java:124-126 | one response per record, in order, each describing its record |
| ConfigurationService.AppendKeepsPairsUnique | src/main/java/com/hoatv/kafka/notifier/service/NotifierConfigurationService.java:34-52 | saving a new record after the duplicate check keeps (notifier, topic) unique |
| ConfigurationService.ReplaceKeepsPairsUnique | src/main/java/com/hoatv/kafka/notifier/service/NotifierConfigurationService.java:68-88 | the update's duplicate check, run only when the pair changes, keeps (notifier, topic) unique |
| ConfigurationService.RemoveKeepsPairsUnique | src/main/java/com/hoatv/kafka/notifier/service/NotifierConfigurationService.java:149 | deleting keeps (notifier, topic) unique |
| ConfigurationService.NotifierConfigurationService.constructor | src/main/java/com/hoatv/kafka/notifier/service/NotifierConfigurationService.java:27-28 | the service starts over a repository whose pairs are unique |
| ConfigurationService.NotifierConfigurationService.Create | src/main/java/com/hoatv/kafka/notifier/service/NotifierConfigurationService.java:30-59 | a duplicate pair fails and changes nothing; otherwise the record is saved and its topic subscribed only if enabled; a container on a topic that stays subscribed is left as it was |
| ConfigurationService.NotifierConfigurationService.Update | src/main/java/com/hoatv/kafka/notifier/service/NotifierConfigurationService.java:61-102 | an unknown id or a duplicate new pair fails and changes nothing; otherwise the edited record is saved, the new topic subscribed if enabled, and the old one unsubscribed only when the topic changed and nothing enabled is left on it; a container on a topic that stays subscribed is left as it was |
| ConfigurationService.NotifierConfigurationService.FindById | src/main/java/com/hoatv/kafka/notifier/service/NotifierConfigurationService.java:104-112 | the response of the stored record with that id, or not-found |
| ConfigurationService.NotifierConfigurationService.FindByTopic | src/main/java/com/hoatv/kafka/notifier/service/NotifierConfigurationService.java:121-127 | the responses of exactly the records on the topic |
| ConfigurationService.NotifierConfigurationService.FindEnabledConfigurations | src/main/java/com/hoatv/kafka/notifier/service/NotifierConfigurationService.java:129-135 | the responses of exactly the enabled records |
| ConfigurationService.NotifierConfigurationService.FindEnabledConfigurationsByTopic | src/main/java/com/hoatv/kafka/notifier/service/NotifierConfigurationService.java:137-140 | exactly the enabled records on the topic |
| ConfigurationService.NotifierConfigurationService.Delete | src/main/java/com/hoatv/kafka/notifier/service/NotifierConfigurationService.java:142-154 | an unknown id fails and changes nothing; otherwise the record goes and its topic is unsubscribed when nothing enabled is left on it; a container on a topic that stays subscribed is left as it was |
| ConfigurationService.NotifierConfigurationService.ToggleEnabled | src/main/java/com/hoatv/kafka/notifier/service/NotifierConfigurationService.java:156-180 | an unknown id fails and changes nothing; otherwise the flag flips, then the topic is subscribed if now enabled, or unsubscribed when nothing enabled is left on it; a container on a topic that stays subscribed is left as it was |
| Kafka.KafkaService.constructor | src/main/java/com/hoatv/kafka/notifier/service/KafkaService.java:15-19 | the service holds only the processor reference |
| Kafka.KafkaService.AddTopicSubscription | src/main/java/com/hoatv/kafka/notifier/service/KafkaService.java:24-27 | `subscribeToTopic`, so a subscribed topic is left as it is |
| Kafka.KafkaService.RemoveTopicSubscriptionIfUnused | src/main/java/com/hoatv/kafka/notifier/service/KafkaService.java:32-37 | with enabled configurations left nothing changes; otherwise the topic is unsubscribed |
| DynamicProcessor.EnabledTopics | src/main/java/com/hoatv/kafka/notifier/service/DynamicKafkaMessageProcessor.java:69-72 | the required topics are exactly those of the enabled configurations |
| DynamicProcessor.Calls | src/main/java/com/hoatv/kafka/notifier/service/DynamicKafkaMessageProcessor.java:209-214 | the actions dispatched are exactly those whose type is `call` in any case |
| DynamicProcessor.DispatchAppend | src/main/java/com/hoatv/kafka/notifier/service/DynamicKafkaMessageProcessor.java:158 | configurations are processed one after the other, each seeing the throttle state the earlier ones left |
| DynamicProcessor.NoMatchNoEffect | src/main/java/com/hoatv/kafka/notifier/service/DynamicKafkaMessageProcessor.java:170-195 | when no rule matches, no limiter is touched and nothing is sent |
| DynamicProcessor.ExecutedAreMatchingCalls | src/main/java/com/hoatv/kafka/notifier/service/DynamicKafkaMessageProcessor.java:170-190 | every action run is a `call` action of a listed configuration whose rules matched and whose throttle check, in the state the earlier configurations left, allowed it |
| DynamicProcessor.ExecutedInOrder | src/main/java/com/hoatv/kafka/notifier/service/DynamicKafkaMessageProcessor.java:170-190 | the actions run are, in list order, exactly the `call` actions of each configuration whose rules matched and whose throttle check allowed it |
| DynamicProcessor.MatchingCallsExecuted | src/main/java/com/hoatv/kafka/notifier/service/DynamicKafkaMessageProcessor.java:170-190 | every `call` action of a configuration whose rules matched and whose throttle check allowed it is run |
| DynamicProcessor.CurrentDeliveryOnlyEnabled | src/main/java/com/hoatv/kafka/notifier/service/DynamicKafkaMessageProcessor.java:148-190 | dispatching the enabled configurations stored for a topic runs only `call` actions of stored, enabled configurations on that topic whose rules matched |
| DynamicProcessor.RejectedConfigSkipped | src/main/java/com/hoatv/kafka/notifier/service/DynamicKafkaMessageProcessor.java:164-201 | a configuration whose throttle check throws is skipped and the later ones run as if it were absent |
| DynamicProcessor.DynamicKafkaMessageProcessor.constructor | src/main/java/com/hoatv/kafka/notifier/service/DynamicKafkaMessageProcessor.java:32-38 | no topics and no containers |
| DynamicProcessor.DynamicKafkaMessageProcessor.GetSubscribedTopics | src/main/java/com/hoatv/kafka/notifier/service/DynamicKafkaMessageProcessor.java:225-227 | a copy of the topics, which are exactly those with a container |
| DynamicProcessor.DynamicKafkaMessageProcessor.IsSubscribedToTopic | src/main/java/com/hoatv/kafka/notifier/service/DynamicKafkaMessageProcessor.java:232-234 | subscribed exactly when a container is kept for the topic |
| DynamicProcessor.DynamicKafkaMessageProcessor.SubscribeToTopic | src/main/java/com/hoatv/kafka/notifier/service/DynamicKafkaMessageProcessor.java:91-117 | a subscribed topic is left as it is; success adds the topic and a running container holding the topic's enabled configurations; a failed start changes nothing |
| DynamicProcessor.DynamicKafkaMessageProcessor.UnsubscribeFromTopic | src/main/java/com/hoatv/kafka/notifier/service/DynamicKafkaMessageProcessor.java:122-142 | an unsubscribed topic is left as it is; success removes it from both; a failed stop changes nothing; a stopped container always goes |
| DynamicProcessor.DynamicKafkaMessageProcessor.UnsubscribeEach | src/main/java/com/hoatv/kafka/notifier/service/DynamicKafkaMessageProcessor.java:75-77 | every listed topic is unsubscribed except those whose stop failed |
| DynamicProcessor.DynamicKafkaMessageProcessor.SubscribeEach | src/main/java/com/hoatv/kafka/notifier/service/DynamicKafkaMessageProcessor.java:79-81 | every listed topic is subscribed except those whose start failed |
| DynamicProcessor.DynamicKafkaMessageProcessor.RefreshTopicSubscriptions | src/main/java/com/hoatv/kafka/notifier/service/DynamicKafkaMessageProcessor.java:65-86 | afterwards the topics are the required ones, except failed stops and starts; with no failures they equal the enabled topics; when they already do, nothing changes |
| DynamicProcessor.DynamicKafkaMessageProcessor.Cleanup | src/main/java/com/hoatv/kafka/notifier/service/DynamicKafkaMessageProcessor.java:50-59 | on success no topics and no containers; a failed stop leaves all tracked, some stopped |
| DynamicProcessor.DynamicKafkaMessageProcessor.ProcessConfigurationForMessage | src/main/java/com/hoatv/kafka/notifier/service/DynamicKafkaMessageProcessor.java:164-201 | throttle only when the rules match; the `call` actions are posted only when the throttle allows |
| DynamicProcessor.DynamicKafkaMessageProcessor.ExecuteActions | src/main/java/com/hoatv/kafka/notifier/service/DynamicKafkaMessageProcessor.java:182-184 | the posts of every `call` action, in order |
| DynamicProcessor.DynamicKafkaMessageProcessor.ExecuteAction | src/main/java/com/hoatv/kafka/notifier/service/DynamicKafkaMessageProcessor.java:203-220 | a `call` action in any case is handed to the notification service; others post nothing |
| DynamicProcessor.DynamicKafkaMessageProcessor.ProcessMessage | src/main/java/com/hoatv/kafka/notifier/service/DynamicKafkaMessageProcessor.java:148-162 | the throttle state and the posts are those of dispatching the listed configurations in order |
| DynamicProcessor.DynamicKafkaMessageProcessor.Deliver | src/main/java/com/hoatv/kafka/notifier/service/DynamicKafkaMessageProcessor.java:102-105 | a record is processed against the configurations captured when its topic was subscribed |
| DynamicProcessor.DynamicKafkaMessageProcessor.DeliverCurrent | src/main/java/com/hoatv/kafka/notifier/service/DynamicKafkaMessageProcessor.java:102-105 | the corrected listener: a record is processed against the enabled configurations stored for its topic when it arrives |
| ConfigurationService.StaleContainerStillFires | src/main/java/com/hoatv/kafka/notifier/service/DynamicKafkaMessageProcessor.java:92-105 | after an update that changes the rule of an enabled record on its topic, the captured list still fires the old actions for a record the new rule rejects, and the stored list fires nothing |
| SimpleProcessor.SimpleDynamicKafkaProcessor.constructor | src/main/java/com/hoatv/kafka/notifier/service/SimpleDynamicKafkaProcessor.java:45-46 | no topics and no containers |
| SimpleProcessor.SimpleDynamicKafkaProcessor.GetSubscribedTopics | src/main/java/com/hoatv/kafka/notifier/service/SimpleDynamicKafkaProcessor.java:157-159 | a copy of the topics, which are exactly those with a container |
| SimpleProcessor.SimpleDynamicKafkaProcessor.IsSubscribedToTopic | src/main/java/com/hoatv/kafka/notifier/service/SimpleDynamicKafkaProcessor.java:164-166 | subscribed exactly when a container is kept |
| SimpleProcessor.SimpleDynamicKafkaProcessor.SubscribeToTopic | src/main/java/com/hoatv/kafka/notifier/service/SimpleDynamicKafkaProcessor.java:71-103 | a subscribed topic is left as it is; success adds the topic with a running container; a failed start changes nothing |
| SimpleProcessor.SimpleDynamicKafkaProcessor.UnsubscribeFromTopic | src/main/java/com/hoatv/kafka/notifier/service/SimpleDynamicKafkaProcessor.java:109-131 | an unsubscribed topic is left as it is; success removes it from both; a failed stop changes nothing |
| SimpleProcessor.SimpleDynamicKafkaProcessor.Cleanup | src/main/java/com/hoatv/kafka/notifier/service/SimpleDynamicKafkaProcessor.java:56-65 | on success no topics and no containers; a failed stop leaves all tracked |
| SimpleProcessor.SimpleDynamicKafkaProcessor.OnNotifierConfigurationCreated | src/main/java/com/hoatv/kafka/notifier/service/SimpleDynamicKafkaProcessor.java:172-177 | subscribes only for an enabled configuration; otherwise nothing changes |
| SimpleProcessor.SimpleDynamicKafkaProcessor.OnNotifierConfigurationDeleted | src/main/java/com/hoatv/kafka/notifier/service/SimpleDynamicKafkaProcessor.java:183-191 | unsubscribes the topic whatever other configurations use it |
| LegacyProcessor.TriggeredAppend | src/main/java/hoatv/kafka/notifier/service/KafkaMessageProcessor.java:47-49 | configurations are processed independently, one after the other |
| LegacyProcessor.CallsOfFollowsCalls | src/main/java/hoatv/kafka/notifier/service/KafkaMessageProcessor.java:71-73 | a matching configuration hands over its `call` actions, in order |
| LegacyProcessor.CallsOfMembers | src/main/java/hoatv/kafka/notifier/service/KafkaMessageProcessor.java:85-104 | a hand-over is exactly a `call` action of the configuration, with the record |
| LegacyProcessor.TriggeredExactly | src/main/java/hoatv/kafka/notifier/service/KafkaMessageProcessor.java:29-83 | a record causes a hand-over exactly for each `call` action of each listed configuration whose rules match; there is no throttling |
| LegacyProcessor.NoMatchNoCalls | src/main/java/hoatv/kafka/notifier/service/KafkaMessageProcessor.java:56-83 | with no matching configuration, or none at all, nothing is handed over |
| LegacyProcessor.KafkaMessageProcessor.constructor | src/main/java/hoatv/kafka/notifier/service/KafkaMessageProcessor.java:23-25 | no hand-overs yet |
| LegacyProcessor.KafkaMessageProcessor.ProcessMessage | src/main/java/hoatv/kafka/notifier/service/KafkaMessageProcessor.java:29-54 | the hand-overs are those of every listed configuration, in order |
| LegacyProcessor.KafkaMessageProcessor.ProcessConfigurationForMessage | src/main/java/hoatv/kafka/notifier/service/KafkaMessageProcessor.java:56-83 | all `call` actions are handed over exactly when the legacy rules match |
| LegacyProcessor.KafkaMessageProcessor.ExecuteActions | src/main/java/hoatv/kafka/notifier/service/KafkaMessageProcessor.java:71-73 | every action runs, in order |
| LegacyProcessor.KafkaMessageProcessor.ExecuteAction | src/main/java/hoatv/kafka/notifier/service/KafkaMessageProcessor.java:85-104 | the lower-cased type `call` hands over; other types are skipped |
| LegacyTopicService.DistinctSpec | src/main/java/hoatv/kafka/notifier/service/KafkaTopicService.java:30 | `distinct()` keeps exactly the elements, each once, in first-occurrence order |
| LegacyTopicService.GetAllTopics | src/main/java/hoatv/kafka/notifier/service/KafkaTopicService.java:25-47 | the topic list is never empty |
| LegacyTopicService.GetAllTopicsSpec | src/main/java/hoatv/kafka/notifier/service/KafkaTopicService.java:27-31 | with an enabled configuration: the topics of the enabled configurations, each once, in first-occurrence order |
| LegacyTopicService.GetAllTopicsFallback | src/main/java/hoatv/kafka/notifier/service/KafkaTopicService.java:33-46 | with no enabled configuration, or a failed read, `["default-topic"]` |
| LegacyTopicService.GetAllTopicsIncludingDisabled | src/main/java/hoatv/kafka/notifier/service/KafkaTopicService.java:60-63 | a failed read gives the empty list |
| LegacyTopicService.GetAllTopicsIncludingDisabledSpec | src/main/java/hoatv/kafka/notifier/service/KafkaTopicService.java:52-58 | the topics of all configurations, each once, in first-occurrence order |
| LegacyTopicService.HasEnabledConfigurations | src/main/java/hoatv/kafka/notifier/service/KafkaTopicService.java:69-77 | true exactly when an enabled configuration is on the topic; false on a failed read |
| LegacyTopicService.ListedIffEnabled | src/main/java/hoatv/kafka/notifier/service/KafkaTopicService.java:25-77 | a topic other than the default is listed exactly when `hasEnabledConfigurations` holds for it, and exactly when the dynamic processor requires it |

## Left out

- Logging, Spring wiring, the HTTP controllers and the Kafka consumer internals are not modelled. A container is a value with a running flag, and its listener is the `Deliver` method.
- `findAll(Pageable)` is not modelled: paging belongs to the database.
- The `com.hoatv.kafka.notifier.repository.NotifierConfigurationRepository` interface is not part of this model. The repository class models the derived queries the services call, over a sequence of records in collection order.
- The legacy `hoatv` `NotificationService` and `NotifierConfigurationService` are not part of this model. The legacy listener records each hand-over to the notification service, and it receives the result of `findEnabledConfigurationsByTopic` as a parameter.
- `SlackWebhookClient` and the HTTP post are not modelled: a post is appended to the `sent` log, and a failed post is not modelled.
- Jackson's `readTree` is a parameter, so the JSON grammar is not modelled. `valueToTree` of a string is a text node.
- Floating point is not modelled. A number is an integer, or a decimal mantissa with a scale, compared as an exact rational. `Double.toString` is modelled only for plain decimal notation; exponent notation, NaN and infinities are not. `Double.parseDouble` accepts only plain decimal text.
- Java `null` fields in records, requests and actions are not modelled, except where the code tests for null (`enabled`, the throttle settings, rule values, action parameters).
- The Resilience4j limiter is a fixed-window counter over whole seconds, counted from its creation. The 100 ms wait in `timeoutDuration` is not modelled: a call with no permit left is throttled at once.
- Durations are whole seconds, and `Duration.toString` is written out for them; fractions of a second are not modelled.
- `recordNotificationSent` does not exist in `NotificationThrottlingService.java`, so its call in the dynamic processor is modelled as doing nothing.
- `SimpleDynamicKafkaProcessor.processMessage` only logs, so it is not modelled.
- Concurrency is not modelled: each method runs alone, and so do the concurrent map and set.
- The generated id of a new record and the clock are parameters of the methods that need them.
- `StringSubstitutor` is modelled as one pass with the default `${` and `}` markers. Substitution inside values, escapes (`$${`), default values (`:-`) and nested names are not modelled.
- ConfigurationService.NotifierConfigurationService.Create: states the subscribed topic set and that existing containers are kept, not the contents of a new container, because the container is created by the processor's own contract.
- ConfigurationService.NotifierConfigurationService.Update: states the subscribed topic set, and that existing containers are kept, not the contents of a new container, for the same reason.
- ConfigurationService.NotifierConfigurationService.Delete: states the subscribed topic set, and that existing containers are kept, not the contents of a new container, for the same reason.
- ConfigurationService.NotifierConfigurationService.ToggleEnabled: states the subscribed topic set, and that existing containers are kept, not the contents of a new container, for the same reason.
- RuleEngine.UnsupportedOperatorFails: covers an unknown operator at the top level of the rule map only. Nested ones are covered by UnsupportedOperatorReachedFails, and an unknown operator in an `$or` condition after one that holds is never evaluated (UnsupportedAfterHoldingBranch).
- Text.Lower, Text.EqualsIgnoreCase, Text.IsDigit, Text.ParseLong: ASCII only. Java's `equalsIgnoreCase` and `toLowerCase` fold the whole Unicode range, and `Long.parseLong` accepts any Unicode decimal digit; non-ASCII letters and digits are not modelled.
- Json.Lookup: object member names are assumed distinct. Lookup returns the first member with a name, while Jackson and Java maps keep the last of duplicate names. Nothing constrains the JSON reader to give distinct names, so on a message with a repeated name the variable map (FlattenInto) can differ from Jackson's too: a leaf `a` followed by an object `a` keeps a key `a` that Jackson's tree would not have. The lemmas about the variable map at every depth (Notification.FieldsLeaves, Notification.ObjectVariables) therefore require non-empty, dot-free, distinct member names at every level.
- Notification.FieldsLeaves, Notification.ObjectVariables: state the variable map only when member names are non-empty and dot-free at every level. With a dotted name (`{"a.b": 1, "a": {"b": 2}}`) or an empty one, two leaves share a key and the later one wins; FlattenInto computes that case as the source does, but no lemma describes it.
- Throttling.Admit: its own contract states only that limiters stay within their limits. What it decides is stated by the lemmas about it (AdmitInWindow, FirstCall, FirstPermitsThenThrottled, NextWindowAllows, OtherNotifiersUntouched).
- Throttling.ThrottleConfig: its own contract states only that limiters stay within their limits. The fallback to defaults is stated by ThrottleAllIsAdmitAll and ConfigBurst.

## Findings

| source | as written | input that shows it | evidently intended | confidence | as-written member | corrected member |
|---|---|---|---|---|---|---|
| src/main/java/com/hoatv/kafka/notifier/service/NotificationThrottlingService.java:142-145 | `clearRateLimiter(name)` removes the map entry whose key is exactly `name`. Every entry is stored under `name-permits-period` (line 112), so nothing is removed. | Exhaust notifier `a` with its own settings, then call `clearRateLimiter("a")`: the next call in the same window is still throttled. | Clearing a notifier removes all of its limiters, so its next call is allowed. | not executed | Throttling.ClearByNameKeepsLimiter | Throttling.ClearNotifierResets |
| src/main/java/com/hoatv/kafka/notifier/service/DynamicKafkaMessageProcessor.java:92-105 | `subscribeToTopic` returns at once for a topic already subscribed, and the listener it installs processes every record with the list `findByTopicAndEnabledTrue(topic)` read when the container was built. `update`, `delete` and `toggleEnabled` only subscribe or unsubscribe, so a topic that stays subscribed keeps its old list. | An enabled configuration on topic `t`, subscribed; update its rule, keeping the topic, so that it no longer accepts record `r`: `t` stays subscribed, its container is kept, and `r` still fires the old actions. With a second enabled configuration on `t`, deleting or disabling the first behaves the same way. | Each record is checked against the enabled configurations stored for its topic when it arrives, so an edit takes effect at once. | not executed | ConfigurationService.StaleContainerStillFires | DynamicProcessor.CurrentDeliveryOnlyEnabled |
