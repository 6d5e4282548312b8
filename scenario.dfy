/**
 * One request worked through end to end: three requests counted, a client execution
 * from 100ns to 500ns, service s3 reached at https://s3.amazonaws.com, and no error.
 */
module Scenario {
  import opened Wrappers
  import opened Introspector
  import opened AwsSdk
  import opened Spectator
  import opened Aws2
  import opened MetricNames
  import opened BaseTagSet

  const ENDPOINT := "https://s3.amazonaws.com"

  /** The request of the scenario, whose original request class is `requestType`. */
  function S3Request(requestType: string): Request {
    Request(requestType,
      AwsRequestMetrics(
        true,
        TimingInfo(map["RequestCount" := 3], map["ClientExecuteTime" := TimingInterval(100, 500, true)]),
        map["ServiceName" := [Some(Value("String", "s3"))],
            "ServiceEndpoint" := [Some(Value("URI", ENDPOINT))]]))
  }

  /** The base tags the scenario expects. */
  function S3Tags(requestType: string): map<string, string> {
    map["serviceEndpoint" := "s3.amazonaws.com", "serviceName" := "s3", "statusCode" := UNKNOWN,
        "requestType" := requestType, "error" := "false"]
  }

  /** A sweep in which only the field at index k gives an update yields just that update. */
  lemma {:induction false} SweepSingle(sweep: Sweep, names: seq<string>, k: nat, timing: TimingInfo,
                                       tags: map<string, string>)
    requires k < |names|
    requires forall i | 0 <= i < |names| && i != k :: FieldUpdate(sweep, names[i], timing, tags).None?
    ensures SweepUpdates(sweep, names, timing, tags) == OptionToSeq(FieldUpdate(sweep, names[k], timing, tags))
    decreases |names|
  {
    var init := names[..|names| - 1];
    if k < |names| - 1 {
      SweepSingle(sweep, init, k, timing, tags);
      assert init[k] == names[k];
    } else {
      SweepNone(sweep, init, timing, tags);
    }
  }

  /** A sweep in which no field gives an update yields nothing. */
  lemma {:induction false} SweepNone(sweep: Sweep, names: seq<string>, timing: TimingInfo, tags: map<string, string>)
    requires forall i | 0 <= i < |names| :: FieldUpdate(sweep, names[i], timing, tags).None?
    ensures SweepUpdates(sweep, names, timing, tags) == []
    decreases |names|
  {
    if names != [] {
      SweepNone(sweep, names[..|names| - 1], timing, tags);
    }
  }

  lemma RequestCountName()
    ensures IdName("RequestCount") == "aws.request.requestCount"
  {
    assert Decapitalize("RequestCount") == ['r'] + "equestCount";
  }

  lemma S3Fields(requestType: string)
    ensures var p := S3Request(requestType).metrics.properties;
      "AWSErrorCode" !in p && "Exception" !in p && "StatusCode" !in p && THROTTLE_EXCEPTION !in p
  {
  }

  /** No error field is set, so the request did not fail. */
  lemma S3NoError(requestType: string, parseUri: string -> UriParse)
    ensures !HasError(S3Request(requestType).metrics, parseUri)
  {
    S3Fields(requestType);
    HasErrorIff(S3Request(requestType).metrics, parseUri);
  }

  /**
   * The base tags: the endpoint's host, the service name, UNKNOWN for the missing status
   * code, the request type and error = "false".
   */
  lemma S3BaseTags(requestType: string, parseUri: string -> UriParse)
    requires parseUri(ENDPOINT) == Parsed(Some("s3.amazonaws.com"))
    ensures BaseTags(S3Request(requestType), parseUri) == S3Tags(requestType)
  {
    var request := S3Request(requestType);
    var tags := BaseTags(request, parseUri);
    S3Fields(requestType);
    S3NoError(requestType, parseUri);
    BaseTagKeys(request, parseUri);
    BaseTagRequest(request, parseUri);
    SuccessTagValues(request, parseUri);
    assert tags.Keys == S3Tags(requestType).Keys;
  }

  /** The counters: only RequestCount is present, so it alone gives an increment. */
  lemma S3Counters(requestType: string, tags: map<string, string>)
    ensures SweepUpdates(CounterSweep, COUNTERS, S3Request(requestType).metrics.timing, tags)
         == [CounterInc(MetricId(IdName("RequestCount"), tags), 3)]
  {
    FieldTables();
    SweepSingle(CounterSweep, COUNTERS, 2, S3Request(requestType).metrics.timing, tags);
  }

  /** The timers: only ClientExecuteTime is present, and it ended, giving 400ns. */
  lemma S3Timers(requestType: string, tags: map<string, string>)
    ensures SweepUpdates(TimerSweep, TIMERS, S3Request(requestType).metrics.timing, tags)
         == [TimerRecord(MetricId(IdName("ClientExecuteTime"), tags), 400)]
  {
    FieldTables();
    SweepSingle(TimerSweep, TIMERS, 0, S3Request(requestType).metrics.timing, tags);
  }

  /**
   * The whole log: one increment of 3 for aws.request.requestCount, then one record of
   * 400ns for aws.request.clientExecuteTime, both with the expected base tags, and
   * nothing else.
   */
  lemma S3Updates(requestType: string, parseUri: string -> UriParse)
    requires parseUri(ENDPOINT) == Parsed(Some("s3.amazonaws.com"))
    ensures Updates(S3Request(requestType), parseUri) ==
      [CounterInc(MetricId("aws.request.requestCount", S3Tags(requestType)), 3),
       TimerRecord(MetricId("aws.request.clientExecuteTime", S3Tags(requestType)), 400)]
  {
    var request := S3Request(requestType);
    var tags := S3Tags(requestType);
    S3BaseTags(requestType, parseUri);
    S3Fields(requestType);
    S3Counters(requestType, tags);
    S3Timers(requestType, tags);
    RequestCountName();
    IdNameExample();
    assert ThrottlePart(request.metrics, tags) == [];
  }
}
