/**
 * The per-request measurement bag the AWS SDK hands to a request metric collector
 * (AwsRequestMetrics and its TimingInfo), reduced to what the collector reads.
 */
module AwsSdk {
  import opened Wrappers

  const LONG_MIN: int := -0x8000_0000_0000_0000
  const LONG_MAX: int := 0x7FFF_FFFF_FFFF_FFFF

  /** A Java `long`. */
  type Long = x: int | LONG_MIN <= x <= LONG_MAX

  /** Java `long` subtraction, which wraps around modulo 2^64. */
  function LongSub(a: Long, b: Long): (r: Long)
    ensures LONG_MIN <= a - b <= LONG_MAX ==> r == a - b
    ensures (a - b - r) % 0x1_0000_0000_0000_0000 == 0
  {
    var d := a - b;
    if d > LONG_MAX then d - 0x1_0000_0000_0000_0000
    else if d < LONG_MIN then d + 0x1_0000_0000_0000_0000
    else d
  }

  /**
   * A non-null Java object stored in a property list, seen through the two things the
   * collector asks of it: getClass().getSimpleName() and toString().
   */
  datatype Value = Value(simpleName: string, text: string)

  /** A property list; a `None` element is a null entry of the Java list. */
  type PropertyList = seq<Option<Value>>

  /** The last sub-measurement recorded under a timer name. */
  datatype TimingInterval = TimingInterval(startTimeNano: Long, endTimeNano: Long, endTimeKnown: bool)

  /**
   * TimingInfo: counters by field name (getCounter) and the last sub-measurement by
   * field name (getLastSubMeasurement); a name that is not a key reads as null.
   */
  datatype TimingInfo = TimingInfo(counters: map<string, Long>, lastSubMeasurements: map<string, TimingInterval>)

  /** AwsRequestMetrics: the enabled flag, the timing info and the property lists by field name. */
  datatype AwsRequestMetrics = AwsRequestMetrics(enabled: bool, timing: TimingInfo, properties: map<string, PropertyList>)

  /** A request: the simple class name of the original request object and its metrics. */
  datatype Request = Request(originalRequestType: string, metrics: AwsRequestMetrics)

  /** AwsRequestMetrics.getProperty: the list recorded under a field, or null. */
  function GetProperty(metrics: AwsRequestMetrics, field: string): (r: Option<PropertyList>)
    ensures r.Some? <==> field in metrics.properties
    ensures r.Some? ==> r.value == metrics.properties[field]
  {
    if field in metrics.properties then Some(metrics.properties[field]) else None
  }
}
