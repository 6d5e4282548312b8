/**
 * SpectatorRequestMetricCollector: turns the measurement bag of one AWS SDK request into
 * counter increments and timer records on a Spectator registry.
 */
module Aws2 {
  import opened Wrappers
  import opened Introspector
  import opened AwsSdk
  import opened Spectator

  const UNKNOWN := "UNKNOWN"
  const ID_PREFIX := "aws.request."

  /** Name of the throttling counter, before idName. */
  const THROTTLING := "throttling"
  /** Extra tag a throttling increment carries. */
  const THROTTLE_EXCEPTION_TAG := "throttleException"
  /** Property field holding the throttle exceptions of the request. */
  const THROTTLE_EXCEPTION := "ThrottleException"

  /** Timer fields swept, in order. */
  const TIMERS: seq<string> := [
    "ClientExecuteTime",
    "CredentialsRequestTime",
    "HttpClientReceiveResponseTime",
    "HttpClientSendRequestTime",
    "HttpRequestTime",
    "RequestMarshallTime",
    "RequestSigningTime",
    "ResponseProcessingTime",
    "RetryPauseTime"
  ]

  /** Counter fields swept, in order. */
  const COUNTERS: seq<string> := [
    "BytesProcessed",
    "HttpClientRetryCount",
    "RequestCount"
  ]

  /** Tags every metric carries. */
  const TAGS: seq<TagField> := [
    TagField("ServiceEndpoint", HostOf),
    TagField("ServiceName", ToStringOf),
    TagField("StatusCode", ToStringOf)
  ]

  /** Tags added when the request failed; their presence is what signals the failure. */
  const ERRORS: seq<TagField> := [
    TagField("AWSErrorCode", ToStringOf),
    TagField("Exception", SimpleNameOf)
  ]

  /** What java.net.URI.create(s).getHost() does with a string: throw, or return a host or null. */
  datatype UriParse = Malformed | Parsed(host: Option<string>)

  /** The transform a tag applies to the first value of its property list. */
  datatype Extractor = ToStringOf | HostOf | SimpleNameOf

  /** idName: the metric name of an SDK measurement name. */
  function IdName(name: string): string {
    ID_PREFIX + Decapitalize(name)
  }

  /** notEmpty: the list when it is neither null nor empty. */
  function NotEmpty(properties: Option<PropertyList>): (r: Option<PropertyList>)
    ensures r.Some? <==> properties.Some? && properties.value != []
    ensures r.Some? ==> r == properties
  {
    if properties.Some? && properties.value != [] then properties else None
  }

  /**
   * firstValue: the transform of the element at index 0, when the list is neither null
   * nor empty, that element is not null and the transform gives a non-null result.
   */
  function FirstValue<R>(properties: Option<PropertyList>, transform: Value -> Option<R>): (r: Option<R>)
    ensures r.Some? <==>
      properties.Some? && |properties.value| > 0 && properties.value[0].Some? &&
      transform(properties.value[0].value).Some?
    ensures r.Some? ==> r == transform(properties.value[0].value)
  {
    match NotEmpty(properties)
    case None => None
    case Some(list) => if list[0].None? then None else transform(list[0].value)
  }

  /**
   * getHost: the host of the value's string form; a string that does not parse as a URI
   * gives UNKNOWN instead of an exception, and a URI without a host gives null.
   */
  function GetHost(u: Value, parseUri: string -> UriParse): (r: Option<string>)
    ensures parseUri(u.text).Malformed? ==> r == Some(UNKNOWN)
    ensures parseUri(u.text).Parsed? ==> r == parseUri(u.text).host
  {
    match parseUri(u.text)
    case Malformed => Some(UNKNOWN)
    case Parsed(host) => host
  }

  function Extract(extractor: Extractor, v: Value, parseUri: string -> UriParse): Option<string> {
    match extractor
    case ToStringOf => Some(v.text)
    case HostOf => GetHost(v, parseUri)
    case SimpleNameOf => Some(v.simpleName)
  }

  /** A property field, the tag it feeds and how its first value becomes the tag value. */
  datatype TagField = TagField(field: string, extractor: Extractor) {

    /** The tag key: the decapitalized field name. */
    function GetName(): string {
      Decapitalize(field)
    }

    /** The tag value, when the field's first value yields one. */
    function GetValue(metrics: AwsRequestMetrics, parseUri: string -> UriParse): Option<string> {
      FirstValue(GetProperty(metrics, field), v => Extract(extractor, v, parseUri))
    }
  }

  /** The request failed: some error field has a value. */
  predicate HasError(metrics: AwsRequestMetrics, parseUri: string -> UriParse) {
    exists i | 0 <= i < |ERRORS| :: ERRORS[i].GetValue(metrics, parseUri).Some?
  }

  /** Boolean.toString */
  function BoolToString(b: bool): string {
    if b then "true" else "false"
  }

  /** `m` after putting, in order, each tag's value (or UNKNOWN) under its name. */
  function PutTags(m: map<string, string>, tags: seq<TagField>, metrics: AwsRequestMetrics,
                   parseUri: string -> UriParse): map<string, string>
    decreases |tags|
  {
    if tags == [] then m
    else
      var tag := tags[|tags| - 1];
      PutTags(m, tags[..|tags| - 1], metrics, parseUri)[tag.GetName() := tag.GetValue(metrics, parseUri).GetOr(UNKNOWN)]
  }

  /** The base tags every metric of a request carries (getBaseTags). */
  function BaseTags(request: Request, parseUri: string -> UriParse): map<string, string> {
    var metrics := request.metrics;
    var success := PutTags(map[], TAGS, metrics, parseUri)["requestType" := request.originalRequestType];
    var error := HasError(metrics, parseUri);
    var all := if error then PutTags(success, ERRORS, metrics, parseUri) else success;
    all["error" := BoolToString(error)]
  }

  /** Which fixed field list a sweep goes over. */
  datatype Sweep = CounterSweep | TimerSweep

  /** The increment a counter field gives: present and strictly positive. */
  function CounterUpdate(name: string, timing: TimingInfo, tags: map<string, string>): Option<Update> {
    if name in timing.counters && timing.counters[name] > 0
    then Some(CounterInc(MetricId(IdName(name), tags), timing.counters[name]))
    else None
  }

  /** The record a timer field gives: its last interval is present and has ended. */
  function TimerUpdate(name: string, timing: TimingInfo, tags: map<string, string>): Option<Update> {
    if name in timing.lastSubMeasurements && timing.lastSubMeasurements[name].endTimeKnown
    then
      var t := timing.lastSubMeasurements[name];
      Some(TimerRecord(MetricId(IdName(name), tags), LongSub(t.endTimeNano, t.startTimeNano)))
    else None
  }

  function FieldUpdate(sweep: Sweep, name: string, timing: TimingInfo, tags: map<string, string>): Option<Update> {
    match sweep
    case CounterSweep => CounterUpdate(name, timing, tags)
    case TimerSweep => TimerUpdate(name, timing, tags)
  }

  function OptionToSeq<T>(o: Option<T>): seq<T> {
    match o
    case None => []
    case Some(x) => [x]
  }

  /** The updates of a sweep over `names`, in the order of `names`. */
  function SweepUpdates(sweep: Sweep, names: seq<string>, timing: TimingInfo, tags: map<string, string>): seq<Update>
    decreases |names|
  {
    if names == [] then []
    else
      SweepUpdates(sweep, names[..|names| - 1], timing, tags)
      + OptionToSeq(FieldUpdate(sweep, names[|names| - 1], timing, tags))
  }

  /** Extending a sweep's prefix by one field appends that field's update. */
  lemma SweepPrefixStep(sweep: Sweep, names: seq<string>, i: int, timing: TimingInfo, tags: map<string, string>)
    requires 0 <= i < |names|
    ensures SweepUpdates(sweep, names[..i + 1], timing, tags)
         == SweepUpdates(sweep, names[..i], timing, tags) + OptionToSeq(FieldUpdate(sweep, names[i], timing, tags))
  {
    assert names[..i + 1][..i] == names[..i];
  }

  /** The increment for one throttle exception. */
  function ThrottleInc(throttling: MetricId, ex: Value): Update {
    CounterInc(throttling.WithTag(THROTTLE_EXCEPTION_TAG, ex.simpleName), 1)
  }

  /**
   * The throttling increments of a throttle-exception list: one per element, up to the
   * first null element (whose getClass() throws NullPointerException).
   */
  function ThrottleUpdates(exceptions: PropertyList, throttling: MetricId): seq<Update>
  {
    if exceptions == [] || exceptions[0].None? then []
    else [ThrottleInc(throttling, exceptions[0].value)] + ThrottleUpdates(exceptions[1..], throttling)
  }

  /** The throttling increments of an enabled request, with the given base tags. */
  function ThrottlePart(metrics: AwsRequestMetrics, tags: map<string, string>): seq<Update> {
    match NotEmpty(GetProperty(metrics, THROTTLE_EXCEPTION))
    case None => []
    case Some(list) => ThrottleUpdates(list, MetricId(IdName(THROTTLING), tags))
  }

  /** The updates of an enabled request with the given base tags: counters, timers, throttling. */
  function Emitted(metrics: AwsRequestMetrics, tags: map<string, string>): seq<Update> {
    SweepUpdates(CounterSweep, COUNTERS, metrics.timing, tags)
    + SweepUpdates(TimerSweep, TIMERS, metrics.timing, tags)
    + ThrottlePart(metrics, tags)
  }

  /** The update log collectMetrics appends for a request. */
  function Updates(request: Request, parseUri: string -> UriParse): seq<Update> {
    if !request.metrics.enabled then [] else Emitted(request.metrics, BaseTags(request, parseUri))
  }

  /** collectMetrics ends in a NullPointerException: the throttle list holds a null. */
  predicate ThrowsNullPointer(request: Request) {
    var list := GetProperty(request.metrics, THROTTLE_EXCEPTION);
    request.metrics.enabled && list.Some? && exists i | 0 <= i < |list.value| :: list.value[i].None?
  }

  lemma {:induction false} ThrottleUpdatesSnoc(exceptions: PropertyList, ex: Value, throttling: MetricId)
    requires forall k | 0 <= k < |exceptions| :: exceptions[k].Some?
    ensures ThrottleUpdates(exceptions + [Some(ex)], throttling)
         == ThrottleUpdates(exceptions, throttling) + [ThrottleInc(throttling, ex)]
  {
    if exceptions != [] {
      assert (exceptions + [Some(ex)])[1..] == exceptions[1..] + [Some(ex)];
      ThrottleUpdatesSnoc(exceptions[1..], ex, throttling);
    }
  }

  lemma {:induction false} ThrottleUpdatesStopAtNull(exceptions: PropertyList, j: nat, throttling: MetricId)
    requires j < |exceptions| && exceptions[j].None?
    ensures ThrottleUpdates(exceptions, throttling) == ThrottleUpdates(exceptions[..j], throttling)
  {
    if j > 0 && exceptions[0].Some? {
      assert exceptions[..j][1..] == exceptions[1..][..j - 1];
      ThrottleUpdatesStopAtNull(exceptions[1..], j - 1, throttling);
    }
  }

  lemma AppendAssociative3<T>(a: seq<T>, b: seq<T>, c: seq<T>)
    ensures a + b + c == a + (b + c)
  {
  }

  lemma AppendAssociative<T>(a: seq<T>, b: seq<T>, c: seq<T>, d: seq<T>)
    ensures a + b + c + d == a + (b + c + d)
  {
  }

  /** How collectMetrics ended: normally, or with a NullPointerException. */
  datatype Outcome = Returned | ThrewNullPointer

  class SpectatorRequestMetricCollector {
    const registry: Registry
    /** java.net.URI parsing, which this model does not describe. */
    const parseUri: string -> UriParse

    constructor (registry: Registry, parseUri: string -> UriParse)
      ensures this.registry == registry && this.parseUri == parseUri
    {
      this.registry := registry;
      this.parseUri := parseUri;
    }

    /**
     * Appends to the registry the updates of one request: nothing when its metrics are
     * disabled; otherwise the counters, then the timers, then the throttling increments.
     */
    method CollectMetrics(request: Request) returns (outcome: Outcome)
      modifies registry
      ensures registry.updates == old(registry.updates) + Updates(request, parseUri)
      ensures outcome == if ThrowsNullPointer(request) then ThrewNullPointer else Returned
      ensures !request.metrics.enabled ==> registry.updates == old(registry.updates) && outcome == Returned
    {
      outcome := Returned;
      var metrics := request.metrics;
      if !metrics.enabled {
        return;
      }
      var baseTags := GetBaseTags(request, parseUri);
      var timing := metrics.timing;
      ghost var start := registry.updates;
      IncrementCounters(COUNTERS, timing, baseTags);
      RecordTimers(TIMERS, timing, baseTags);
      ghost var afterTimers := registry.updates;
      var throttleExceptions := NotEmpty(GetProperty(metrics, THROTTLE_EXCEPTION));
      if throttleExceptions.Some? {
        outcome := IncrementThrottling(throttleExceptions.value, MetricId(IdName(THROTTLING), baseTags));
      }
      ghost var counterPart := SweepUpdates(CounterSweep, COUNTERS, timing, baseTags);
      ghost var timerPart := SweepUpdates(TimerSweep, TIMERS, timing, baseTags);
      ghost var throttlePart := ThrottlePart(metrics, baseTags);
      assert afterTimers == start + counterPart + timerPart;
      assert registry.updates == start + counterPart + timerPart + throttlePart;
      assert Updates(request, parseUri) == counterPart + timerPart + throttlePart;
      AppendAssociative(start, counterPart, timerPart, throttlePart);
    }

    /** The loop over COUNTERS: one increment per present, strictly positive counter. */
    method IncrementCounters(counters: seq<string>, timing: TimingInfo, baseTags: map<string, string>)
      modifies registry
      ensures registry.updates == old(registry.updates) + SweepUpdates(CounterSweep, counters, timing, baseTags)
    {
      var i := 0;
      while i < |counters|
        invariant 0 <= i <= |counters|
        invariant registry.updates == old(registry.updates) + SweepUpdates(CounterSweep, counters[..i], timing, baseTags)
      {
        var counter := counters[i];
        IncrementCounter(counter, timing, baseTags);
        SweepPrefixStep(CounterSweep, counters, i, timing, baseTags);
        AppendAssociative3(old(registry.updates), SweepUpdates(CounterSweep, counters[..i], timing, baseTags),
                           OptionToSeq(FieldUpdate(CounterSweep, counter, timing, baseTags)));
        i := i + 1;
      }
      assert counters[..i] == counters;
    }

    /** The loop over TIMERS: one record per present interval whose end time is known. */
    method RecordTimers(timers: seq<string>, timing: TimingInfo, baseTags: map<string, string>)
      modifies registry
      ensures registry.updates == old(registry.updates) + SweepUpdates(TimerSweep, timers, timing, baseTags)
    {
      var i := 0;
      while i < |timers|
        invariant 0 <= i <= |timers|
        invariant registry.updates == old(registry.updates) + SweepUpdates(TimerSweep, timers[..i], timing, baseTags)
      {
        var timer := timers[i];
        RecordTimer(timer, timing, baseTags);
        SweepPrefixStep(TimerSweep, timers, i, timing, baseTags);
        AppendAssociative3(old(registry.updates), SweepUpdates(TimerSweep, timers[..i], timing, baseTags),
                           OptionToSeq(FieldUpdate(TimerSweep, timer, timing, baseTags)));
        i := i + 1;
      }
      assert timers[..i] == timers;
    }

    /** One counter field: increment it when it is present and strictly positive. */
    method IncrementCounter(counter: string, timing: TimingInfo, baseTags: map<string, string>)
      modifies registry
      ensures registry.updates == old(registry.updates) + OptionToSeq(FieldUpdate(CounterSweep, counter, timing, baseTags))
    {
      if counter in timing.counters && timing.counters[counter] > 0 {
        registry.Increment(MetricId(IdName(counter), baseTags), timing.counters[counter]);
      }
    }

    /** One timer field: record its last interval when that has ended. */
    method RecordTimer(timer: string, timing: TimingInfo, baseTags: map<string, string>)
      modifies registry
      ensures registry.updates == old(registry.updates) + OptionToSeq(FieldUpdate(TimerSweep, timer, timing, baseTags))
    {
      if timer in timing.lastSubMeasurements && timing.lastSubMeasurements[timer].endTimeKnown {
        var t := timing.lastSubMeasurements[timer];
        registry.Record(MetricId(IdName(timer), baseTags), LongSub(t.endTimeNano, t.startTimeNano));
      }
    }

    /**
     * The forEach over the throttle exceptions: one increment per exception, tagged with
     * its simple class name; a null element ends the loop with a NullPointerException.
     */
    method IncrementThrottling(exceptions: PropertyList, throttling: MetricId) returns (outcome: Outcome)
      modifies registry
      ensures registry.updates == old(registry.updates) + ThrottleUpdates(exceptions, throttling)
      ensures outcome == if exists i | 0 <= i < |exceptions| :: exceptions[i].None? then ThrewNullPointer else Returned
    {
      var j := 0;
      while j < |exceptions|
        invariant 0 <= j <= |exceptions|
        invariant forall k | 0 <= k < j :: exceptions[k].Some?
        invariant registry.updates == old(registry.updates) + ThrottleUpdates(exceptions[..j], throttling)
      {
        var ex := exceptions[j];
        if ex.None? {
          ThrottleUpdatesStopAtNull(exceptions, j, throttling);
          return ThrewNullPointer;
        }
        registry.Increment(throttling.WithTag(THROTTLE_EXCEPTION_TAG, ex.value.simpleName), 1);
        ThrottleUpdatesSnoc(exceptions[..j], ex.value, throttling);
        assert exceptions[..j + 1] == exceptions[..j] + [ex];
        j := j + 1;
      }
      assert exceptions[..j] == exceptions;
      return Returned;
    }

    /** getBaseTags: fills a fresh map with the success tags, requestType, the error tags and error. */
    static method GetBaseTags(request: Request, parseUri: string -> UriParse) returns (baseTags: map<string, string>)
      ensures baseTags == BaseTags(request, parseUri)
    {
      var metrics := request.metrics;
      baseTags := PutTagValues(map[], TAGS, metrics, parseUri);
      baseTags := baseTags["requestType" := request.originalRequestType];
      var error := IsError(metrics, parseUri);
      if error {
        baseTags := PutTagValues(baseTags, ERRORS, metrics, parseUri);
      }
      baseTags := baseTags["error" := BoolToString(error)];
    }

    /** The loops of getBaseTags: put each tag's value, or UNKNOWN, under the tag's name. */
    static method PutTagValues(m: map<string, string>, tags: seq<TagField>, metrics: AwsRequestMetrics,
                               parseUri: string -> UriParse) returns (result: map<string, string>)
      ensures result == PutTags(m, tags, metrics, parseUri)
    {
      result := m;
      var i := 0;
      while i < |tags|
        invariant 0 <= i <= |tags|
        invariant result == PutTags(m, tags[..i], metrics, parseUri)
      {
        var tag := tags[i];
        result := result[tag.GetName() := tag.GetValue(metrics, parseUri).GetOr(UNKNOWN)];
        assert tags[..i + 1][..i] == tags[..i];
        i := i + 1;
      }
      assert tags[..i] == tags;
    }

    /** isError: whether some error field has a value; stops at the first one that does. */
    static method IsError(metrics: AwsRequestMetrics, parseUri: string -> UriParse) returns (error: bool)
      ensures error == HasError(metrics, parseUri)
    {
      var i := 0;
      while i < |ERRORS|
        invariant 0 <= i <= |ERRORS|
        invariant forall k | 0 <= k < i :: ERRORS[k].GetValue(metrics, parseUri).None?
      {
        if ERRORS[i].GetValue(metrics, parseUri).Some? {
          return true;
        }
        i := i + 1;
      }
      return false;
    }
  }
}
