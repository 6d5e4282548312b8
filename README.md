# SpectatorRequestMetricCollector in Dafny

The AWS SDK calls `SpectatorRequestMetricCollector.collectMetrics` once for every request
it has finished. The collector turns that request's measurement bag (`AwsRequestMetrics`)
into updates on a Spectator registry:

- one counter increment for each of the three counter fields whose value is present and
  strictly positive;
- one timer record, of `end - start` nanoseconds, for each of the nine timer fields
  whose last interval is present and has ended;
- one increment of `aws.request.throttling` for each throttle exception, tagged with the
  exception's simple class name.

Every metric carries the same base tags:

- `serviceEndpoint` (the host of the endpoint URI), `serviceName`, `statusCode` and
  `requestType`;
- `AWSErrorCode` and `exception`, only when the request failed;
- `error`, which says whether the request failed.

When the request's metrics are disabled, nothing is emitted.

The model has one module per concern:

- `Wrappers`: `Option`, with `GetOr` for `Optional.orElse`.
- `Introspector`: `java.beans.Introspector.decapitalize`, the rule of section 8.8 of the
  JavaBeans 1.01 specification, with its properties.
- `AwsSdk`: the measurement bag: counters, timing intervals and property lists. It also
  holds the Java `long` subtraction.
- `Spectator`: metric ids, updates, and a `Registry` class that keeps the ordered log of
  the updates it was asked to make.
- `Aws2`: the collector itself.
  - The field tables `TIMERS`, `COUNTERS`, `TAGS` and `ERRORS`.
  - The pure helpers `IdName`, `NotEmpty`, `FirstValue`, `GetHost` and
    `TagField.GetName`/`GetValue`.
  - The specification functions `BaseTags` and `Updates`.
  - A class `SpectatorRequestMetricCollector`. Its imperative methods (`CollectMetrics`,
    its three loops, `GetBaseTags`, `IsError`) are proved against those functions.
- `MetricNames`: metric and tag names. This covers `idName`, its injectivity on field
  names, and the distinctness of every metric the collector emits.
- `Emission`: what the update log contains, metric by metric:
  - exactly one update or none per counter and timer field;
  - the throttling fan-out;
  - the order counters, then timers, then throttling.
- `BaseTagSet`: the keys and values of the base-tag map, and when a request counts as
  failed.
- `Scenario`: one S3 request worked through to its complete update log and base tags.

## Behaviour notes

- Tag keys and metric names use `Introspector.decapitalize`.
  - A name whose first two characters are both capitals stays as it is, so
    `AWSErrorCode` stays `AWSErrorCode`.
  - Any other name has only its first character lower-cased. The leading run of capitals
    is not lowered.
  - `IdName` is not idempotent: every application adds `aws.request.` again, as
    `MetricNames.IdNameNotIdempotent` shows.
- The throttle forEach calls `getClass()` on each element.
  - A null element therefore throws `NullPointerException`.
  - The increments for the elements before it have already been made.
  - `CollectMetrics` returns that outcome as `ThrewNullPointer`, with the log holding the
    earlier increments.
- A timer's duration is Java `long` subtraction, which wraps around (`AwsSdk.LongSub`).

## Model

Source paths are relative to the repository root.

| member | source | states |
|---|---|---|
| Aws2.SpectatorRequestMetricCollector.CollectMetrics | spectator-ext-aws2/src/main/java/com/netflix/spectator/aws2/SpectatorRequestMetricCollector.java:84-110 | the registry log grows by exactly `Updates(request)`; the call ends with a NullPointerException exactly when the request is enabled and its throttle list holds a null; a disabled request leaves the registry unchanged |
| Aws2.SpectatorRequestMetricCollector.IncrementCounters | spectator-ext-aws2/src/main/java/com/netflix/spectator/aws2/SpectatorRequestMetricCollector.java:90-94 | the counter loop appends the counter sweep's updates, in field order (loop invariant over the prefix swept) |
| Aws2.SpectatorRequestMetricCollector.IncrementCounter | spectator-ext-aws2/src/main/java/com/netflix/spectator/aws2/SpectatorRequestMetricCollector.java:91-93 | one counter field appends an increment by its value exactly when it is present and > 0, and nothing otherwise |
| Aws2.SpectatorRequestMetricCollector.RecordTimers | spectator-ext-aws2/src/main/java/com/netflix/spectator/aws2/SpectatorRequestMetricCollector.java:96-101 | the timer loop appends the timer sweep's updates, in field order |
| Aws2.SpectatorRequestMetricCollector.RecordTimer | spectator-ext-aws2/src/main/java/com/netflix/spectator/aws2/SpectatorRequestMetricCollector.java:97-100 | one timer field appends a record of end - start exactly when its last interval is present and its end is known |
| Aws2.SpectatorRequestMetricCollector.IncrementThrottling | spectator-ext-aws2/src/main/java/com/netflix/spectator/aws2/SpectatorRequestMetricCollector.java:103-108 | the forEach appends one throttleException-tagged increment per element up to the first null; it reports the NullPointerException exactly when some element is null |
| Aws2.SpectatorRequestMetricCollector.GetBaseTags | spectator-ext-aws2/src/main/java/com/netflix/spectator/aws2/SpectatorRequestMetricCollector.java:120-135 | the map built by successive puts equals `BaseTags`, whose keys and values the BaseTagSet lemmas state |
| Aws2.SpectatorRequestMetricCollector.PutTagValues | spectator-ext-aws2/src/main/java/com/netflix/spectator/aws2/SpectatorRequestMetricCollector.java:123-125 | the put loop over a tag list gives `PutTags`, whose keys and values `BaseTagSet.PutTagsKeys`/`PutTagsValues` state |
| Aws2.SpectatorRequestMetricCollector.IsError | spectator-ext-aws2/src/main/java/com/netflix/spectator/aws2/SpectatorRequestMetricCollector.java:174-181 | the early-return loop answers true exactly when some ERRORS field has a value |
| Aws2.SpectatorRequestMetricCollector.constructor | spectator-ext-aws2/src/main/java/com/netflix/spectator/aws2/SpectatorRequestMetricCollector.java:78-81 | the collector keeps the registry it is given |
| Aws2.NotEmpty | spectator-ext-aws2/src/main/java/com/netflix/spectator/aws2/SpectatorRequestMetricCollector.java:150-152 | present exactly when the list is non-null and non-empty, and then it is that list |
| Aws2.FirstValue | spectator-ext-aws2/src/main/java/com/netflix/spectator/aws2/SpectatorRequestMetricCollector.java:170-172 | present exactly when the list is non-null and non-empty, its element 0 is non-null and the transform of it is non-null; then it is the transform of element 0 |
| Aws2.GetHost | spectator-ext-aws2/src/main/java/com/netflix/spectator/aws2/SpectatorRequestMetricCollector.java:183-190 | a string that does not parse as a URI gives UNKNOWN instead of an exception; otherwise the URI's host, which may be absent |
| Aws2.SweepPrefixStep | spectator-ext-aws2/src/main/java/com/netflix/spectator/aws2/SpectatorRequestMetricCollector.java:90-101 | sweeping one more field appends exactly that field's update |
| Aws2.ThrottleUpdatesStopAtNull | spectator-ext-aws2/src/main/java/com/netflix/spectator/aws2/SpectatorRequestMetricCollector.java:105-107 | the increments stop at the first null element: nothing after it contributes |
| AwsSdk.LongSub | spectator-ext-aws2/src/main/java/com/netflix/spectator/aws2/SpectatorRequestMetricCollector.java:100 | the duration is the exact difference when it fits a long, and congruent to it modulo 2^64 always |
| AwsSdk.GetProperty | spectator-ext-aws2/src/main/java/com/netflix/spectator/aws2/SpectatorRequestMetricCollector.java:212 | the property list is present exactly when the field has one, and is that list |
| Spectator.Registry.Increment | spectator-ext-aws2/src/main/java/com/netflix/spectator/aws2/SpectatorRequestMetricCollector.java:93 | a counter increment appends one CounterInc to the log |
| Spectator.Registry.Record | spectator-ext-aws2/src/main/java/com/netflix/spectator/aws2/SpectatorRequestMetricCollector.java:99-100 | a timer record appends one TimerRecord to the log |
| Introspector.DecapitalizeRule | spectator-ext-aws2/src/main/java/com/netflix/spectator/aws2/SpectatorRequestMetricCollector.java:204 | decapitalize keeps the length and every character after the first; a name starting with two capitals is unchanged; otherwise the first character is lower-cased |
| Introspector.DecapitalizeIdempotent | spectator-ext-aws2/src/main/java/com/netflix/spectator/aws2/SpectatorRequestMetricCollector.java:204 | decapitalizing twice gives the same name as decapitalizing once |
| Introspector.DecapitalizeInjective | spectator-ext-aws2/src/main/java/com/netflix/spectator/aws2/SpectatorRequestMetricCollector.java:204 | two capitalized names with the same decapitalization are equal |
| Introspector.DecapitalizeKeepsAcronyms | spectator-ext-aws2/src/main/java/com/netflix/spectator/aws2/SpectatorRequestMetricCollector.java:69 | "AWSErrorCode" and "URL" are left as they are |
| Introspector.DecapitalizeLowersFirst | spectator-ext-aws2/src/main/java/com/netflix/spectator/aws2/SpectatorRequestMetricCollector.java:204 | "" stays "", "FooBah" becomes "fooBah", "X" becomes "x" |
| MetricNames.IdNameExample | spectator-ext-aws2/src/main/java/com/netflix/spectator/aws2/SpectatorRequestMetricCollector.java:146-148 | idName("ClientExecuteTime") is "aws.request.clientExecuteTime" |
| MetricNames.ThrottlingName | spectator-ext-aws2/src/main/java/com/netflix/spectator/aws2/SpectatorRequestMetricCollector.java:104 | the throttling counter is named "aws.request.throttling" |
| MetricNames.IdNameInjective | spectator-ext-aws2/src/main/java/com/netflix/spectator/aws2/SpectatorRequestMetricCollector.java:146-148 | two capitalized field names with the same metric name are the same field |
| MetricNames.IdNameNotIdempotent | spectator-ext-aws2/src/main/java/com/netflix/spectator/aws2/SpectatorRequestMetricCollector.java:146-148 | applying idName to a metric name never gives that name back |
| MetricNames.FieldTables | spectator-ext-aws2/src/main/java/com/netflix/spectator/aws2/SpectatorRequestMetricCollector.java:44-60 | every counter and timer field name is capitalized; the names are distinct within and across the two tables |
| MetricNames.CounterNamesDistinct | spectator-ext-aws2/src/main/java/com/netflix/spectator/aws2/SpectatorRequestMetricCollector.java:56-60 | the three counter fields give three different metric names |
| MetricNames.TimerNamesDistinct | spectator-ext-aws2/src/main/java/com/netflix/spectator/aws2/SpectatorRequestMetricCollector.java:44-54 | the nine timer fields give nine different metric names |
| MetricNames.SweepNamesDisjoint | spectator-ext-aws2/src/main/java/com/netflix/spectator/aws2/SpectatorRequestMetricCollector.java:44-60 | no counter metric is a timer metric, and neither is aws.request.throttling |
| MetricNames.SuccessTagNames | spectator-ext-aws2/src/main/java/com/netflix/spectator/aws2/SpectatorRequestMetricCollector.java:62-66 | the TAGS keys are serviceEndpoint, serviceName and statusCode, the decapitalized field names |
| MetricNames.ErrorTagNames | spectator-ext-aws2/src/main/java/com/netflix/spectator/aws2/SpectatorRequestMetricCollector.java:68-71 | the ERRORS keys are AWSErrorCode (unchanged) and exception |
| Emission.SweepElements | spectator-ext-aws2/src/main/java/com/netflix/spectator/aws2/SpectatorRequestMetricCollector.java:90-101 | every update of a sweep is named after one of its fields, carries the base tags, and is an increment exactly in the counter sweep |
| Emission.SweepNamed | spectator-ext-aws2/src/main/java/com/netflix/spectator/aws2/SpectatorRequestMetricCollector.java:90-101 | when the fields' metric names are distinct, the updates of a sweep on field k's metric are exactly field k's own update, if any |
| Emission.ThrottleFanOut | spectator-ext-aws2/src/main/java/com/netflix/spectator/aws2/SpectatorRequestMetricCollector.java:105-107 | the i-th throttling update is the increment for the i-th element, which is non-null; there are at most as many updates as elements, and fewer only when a null element follows |
| Emission.ThrottlePartNamed | spectator-ext-aws2/src/main/java/com/netflix/spectator/aws2/SpectatorRequestMetricCollector.java:103-108 | every throttling update is an increment by one of aws.request.throttling |
| Emission.CounterEmission | spectator-ext-aws2/src/main/java/com/netflix/spectator/aws2/SpectatorRequestMetricCollector.java:90-94 | for each counter field, the log holds exactly one increment of its metric, by the counter's value with the base tags, when the counter is present and > 0, and none otherwise |
| Emission.TimerEmission | spectator-ext-aws2/src/main/java/com/netflix/spectator/aws2/SpectatorRequestMetricCollector.java:96-101 | for each timer field, the log holds exactly one record of its metric, of end - start with the base tags, when the interval is present and has ended, and none otherwise |
| Emission.ThrottlingIsThrottlePart | spectator-ext-aws2/src/main/java/com/netflix/spectator/aws2/SpectatorRequestMetricCollector.java:103-108 | the updates on aws.request.throttling come from the throttle forEach alone |
| Emission.ThrottlePartShape | spectator-ext-aws2/src/main/java/com/netflix/spectator/aws2/SpectatorRequestMetricCollector.java:103-108 | for any base tags: the throttling updates match the throttle list element by element, and all elements are covered exactly when none is null |
| Emission.ThrottlingEmission | spectator-ext-aws2/src/main/java/com/netflix/spectator/aws2/SpectatorRequestMetricCollector.java:103-108 | a null or empty throttle list gives no throttling update; otherwise the i-th update increments by one with the base tags plus throttleException = the i-th element's simple class name; the list is covered in full exactly when no NullPointerException is thrown |
| Emission.StageOfIndex | spectator-ext-aws2/src/main/java/com/netflix/spectator/aws2/SpectatorRequestMetricCollector.java:90-108 | in a concatenation of three parts, the stage of an element is the stage of the part it falls in |
| Emission.StageAt | spectator-ext-aws2/src/main/java/com/netflix/spectator/aws2/SpectatorRequestMetricCollector.java:90-108 | the updates are counter increments first, then timer records, then throttling increments, at the positions the part lengths give |
| Emission.UpdateOrder | spectator-ext-aws2/src/main/java/com/netflix/spectator/aws2/SpectatorRequestMetricCollector.java:84-110 | every update is one of the three kinds, and no counter follows a timer and no timer follows a throttling increment |
| BaseTagSet.PutTagsKeys | spectator-ext-aws2/src/main/java/com/netflix/spectator/aws2/SpectatorRequestMetricCollector.java:123-125 | putting tag fields adds exactly their keys and leaves the other entries alone |
| BaseTagSet.PutTagsValues | spectator-ext-aws2/src/main/java/com/netflix/spectator/aws2/SpectatorRequestMetricCollector.java:123-125 | when keys are distinct, each field's key maps to its value or UNKNOWN |
| BaseTagSet.SuccessTagKeys | spectator-ext-aws2/src/main/java/com/netflix/spectator/aws2/SpectatorRequestMetricCollector.java:62-66 | the TAGS fields write serviceEndpoint, serviceName and statusCode, each once |
| BaseTagSet.ErrorTagKeys | spectator-ext-aws2/src/main/java/com/netflix/spectator/aws2/SpectatorRequestMetricCollector.java:68-71 | the ERRORS fields write AWSErrorCode and exception, each once |
| BaseTagSet.FixedKeysApart | spectator-ext-aws2/src/main/java/com/netflix/spectator/aws2/SpectatorRequestMetricCollector.java:126-133 | requestType and error are not tag-field keys, and the success and error keys do not overlap, so no put overwrites another |
| BaseTagSet.HasErrorIff | spectator-ext-aws2/src/main/java/com/netflix/spectator/aws2/SpectatorRequestMetricCollector.java:174-181 | a request failed exactly when its AWSErrorCode or Exception list has a non-null element 0 |
| BaseTagSet.TagValue | spectator-ext-aws2/src/main/java/com/netflix/spectator/aws2/SpectatorRequestMetricCollector.java:211-213 | a tag's value with the UNKNOWN default: UNKNOWN without a non-null element 0, otherwise its string form, its simple class name, or its host (UNKNOWN when the URI has none) |
| BaseTagSet.BaseTagKeys | spectator-ext-aws2/src/main/java/com/netflix/spectator/aws2/SpectatorRequestMetricCollector.java:120-134 | the base tags always have serviceEndpoint, serviceName, statusCode, requestType and error, and also AWSErrorCode and exception exactly when the request failed |
| BaseTagSet.BaseTagRequest | spectator-ext-aws2/src/main/java/com/netflix/spectator/aws2/SpectatorRequestMetricCollector.java:126-133 | requestType is the original request's simple class name; error is "true" exactly when the request failed, else "false" |
| BaseTagSet.SuccessTagValues | spectator-ext-aws2/src/main/java/com/netflix/spectator/aws2/SpectatorRequestMetricCollector.java:122-125 | serviceEndpoint, serviceName and statusCode hold their field's value or UNKNOWN |
| BaseTagSet.ErrorTagValues | spectator-ext-aws2/src/main/java/com/netflix/spectator/aws2/SpectatorRequestMetricCollector.java:127-131 | on a failed request, AWSErrorCode holds the error code and exception the exception's simple class name, each or UNKNOWN |
| Scenario.SweepSingle | spectator-ext-aws2/src/main/java/com/netflix/spectator/aws2/SpectatorRequestMetricCollector.java:90-101 | a sweep in which only one field gives an update yields just that update |
| Scenario.S3BaseTags | spectator-ext-aws2/src/main/java/com/netflix/spectator/aws2/SpectatorRequestMetricCollector.java:120-134 | the S3 request's base tags are exactly serviceEndpoint = s3.amazonaws.com, serviceName = s3, statusCode = UNKNOWN, requestType and error = false |
| Scenario.S3Updates | spectator-ext-aws2/src/main/java/com/netflix/spectator/aws2/SpectatorRequestMetricCollector.java:84-110 | the S3 request's log is exactly one increment of 3 for aws.request.requestCount and then one 400ns record for aws.request.clientExecuteTime |

## Left out

- Introspector.Decapitalize: upper and lower case are the ASCII letters only. Java's
  Character methods follow Unicode, but every field name here is ASCII.
- AwsSdk.LongSub: the model subtracts Java longs, with their wrap-around. It does not
  model `Number.longValue()` truncating non-integral counters; counters are integers.
- Aws2.GetHost: `java.net.URI` parsing is a parameter (`parseUri`) saying whether a
  string throws or which host it has. URI syntax is not part of this model.
- Aws2.GetHost: the debug log line written on a parse failure is not modelled. It has
  no effect on the tags.
- Java reflection and `Object.toString` are the two strings a `Value` carries:
  `simpleName` and `text`.
- The Spectator registry (ids, counters, timers, aggregation, export, thread safety) is
  an ordered log of updates. The model does not capture that two equal ids denote one
  shared counter.
- Aws2.SpectatorRequestMetricCollector.constructor: the null check on the registry is
  not modelled. `Registry` is a non-null reference type in Dafny.
- The `RequestMetricCollector` superclass, how the SDK builds `Request` and
  `AwsRequestMetrics`, and the unused `response` argument are not part of this model.
- Concurrent calls for simultaneous requests are not modelled.
- The unmodifiable view `Collections.unmodifiableMap` returns is a Dafny `map` value,
  which is immutable.
