/** What collectMetrics emits for a request, field by field and in which order. */
module Emission {
  import opened Wrappers
  import opened AwsSdk
  import opened Spectator
  import opened Aws2
  import opened MetricNames

  /** The updates of `us` on the metric named `name`, in order. */
  function Named(us: seq<Update>, name: string): seq<Update>
    decreases |us|
  {
    if us == [] then []
    else Named(us[..|us| - 1], name) + (if us[|us| - 1].id.name == name then [us[|us| - 1]] else [])
  }

  lemma {:induction false} NamedAppend(a: seq<Update>, b: seq<Update>, name: string)
    ensures Named(a + b, name) == Named(a, name) + Named(b, name)
    decreases |b|
  {
    if b == [] {
      assert a + b == a;
    } else {
      var init := b[..|b| - 1];
      assert (a + b)[..|a + b| - 1] == a + init;
      NamedAppend(a, init, name);
    }
  }

  lemma {:induction false} NamedAll(us: seq<Update>, name: string)
    requires forall k | 0 <= k < |us| :: us[k].id.name == name
    ensures Named(us, name) == us
    decreases |us|
  {
    if us != [] {
      NamedAll(us[..|us| - 1], name);
    }
  }

  lemma {:induction false} NamedNone(us: seq<Update>, name: string)
    requires forall k | 0 <= k < |us| :: us[k].id.name != name
    ensures Named(us, name) == []
    decreases |us|
  {
    if us != [] {
      NamedNone(us[..|us| - 1], name);
    }
  }

  /**
   * Every update of a sweep comes from one of the swept fields, is named after it, and is
   * an increment for the counter sweep and a record for the timer sweep.
   */
  lemma {:induction false} SweepElements(sweep: Sweep, names: seq<string>, timing: TimingInfo, tags: map<string, string>)
    ensures forall k | 0 <= k < |SweepUpdates(sweep, names, timing, tags)| ::
      var u := SweepUpdates(sweep, names, timing, tags)[k];
      (exists i | 0 <= i < |names| :: u.id.name == IdName(names[i])) &&
      u.id.tags == tags &&
      u.CounterInc? == (sweep == CounterSweep)
    decreases |names|
  {
    if names != [] {
      var init := names[..|names| - 1];
      SweepElements(sweep, init, timing, tags);
      var us := SweepUpdates(sweep, names, timing, tags);
      forall k | 0 <= k < |us|
        ensures exists i | 0 <= i < |names| :: us[k].id.name == IdName(names[i])
      {
        if k < |SweepUpdates(sweep, init, timing, tags)| {
          var i :| 0 <= i < |init| && us[k].id.name == IdName(init[i]);
          assert names[i] == init[i];
        } else {
          assert us[k].id.name == IdName(names[|names| - 1]);
        }
      }
    }
  }

  /** With distinct metric names, field `names[k]` contributes exactly its own update, or none. */
  lemma {:induction false} SweepNamed(sweep: Sweep, names: seq<string>, timing: TimingInfo, tags: map<string, string>, k: nat)
    requires k < |names| && IdsDistinct(names)
    ensures Named(SweepUpdates(sweep, names, timing, tags), IdName(names[k]))
         == OptionToSeq(FieldUpdate(sweep, names[k], timing, tags))
    decreases |names|
  {
    var init := names[..|names| - 1];
    var last := names[|names| - 1];
    var name := IdName(names[k]);
    var before := SweepUpdates(sweep, init, timing, tags);
    var own := OptionToSeq(FieldUpdate(sweep, last, timing, tags));
    assert SweepUpdates(sweep, names, timing, tags) == before + own;
    NamedAppend(before, own, name);
    OwnUpdateNamed(sweep, last, timing, tags);
    if k == |names| - 1 {
      NoOtherName(sweep, names, timing, tags);
      NamedAll(own, name);
    } else {
      DistinctInit(names);
      assert names[k] == init[k];
      SweepNamed(sweep, init, timing, tags, k);
      assert IdName(last) != name;
      NamedNone(own, name);
    }
  }

  lemma DistinctInit(names: seq<string>)
    requires |names| > 0 && IdsDistinct(names)
    ensures IdsDistinct(names[..|names| - 1])
  {
    var init := names[..|names| - 1];
    forall i, j | 0 <= i < |init| && 0 <= j < |init| && i != j
      ensures IdName(init[i]) != IdName(init[j])
    {
      assert init[i] == names[i] && init[j] == names[j];
    }
  }

  /** The update a field gives, if any, is named after the field. */
  lemma OwnUpdateNamed(sweep: Sweep, name: string, timing: TimingInfo, tags: map<string, string>)
    ensures forall k | 0 <= k < |OptionToSeq(FieldUpdate(sweep, name, timing, tags))| ::
      OptionToSeq(FieldUpdate(sweep, name, timing, tags))[k].id.name == IdName(name)
  {
  }

  /** With distinct metric names, the fields before the last give no update named after it. */
  lemma NoOtherName(sweep: Sweep, names: seq<string>, timing: TimingInfo, tags: map<string, string>)
    requires |names| > 0 && IdsDistinct(names)
    ensures Named(SweepUpdates(sweep, names[..|names| - 1], timing, tags), IdName(names[|names| - 1])) == []
  {
    var init := names[..|names| - 1];
    var name := IdName(names[|names| - 1]);
    var before := SweepUpdates(sweep, init, timing, tags);
    SweepElements(sweep, init, timing, tags);
    forall j | 0 <= j < |before|
      ensures before[j].id.name != name
    {
      var i :| 0 <= i < |init| && before[j].id.name == IdName(init[i]);
      assert init[i] == names[i];
    }
    NamedNone(before, name);
  }

  /**
   * The forEach over the throttle exceptions: element i gives the i-th increment, tagged
   * with its simple class name, until the first null element, which ends the loop.
   */
  lemma {:induction false} ThrottleFanOut(exceptions: PropertyList, throttling: MetricId)
    ensures |ThrottleUpdates(exceptions, throttling)| <= |exceptions|
    ensures forall i | 0 <= i < |ThrottleUpdates(exceptions, throttling)| ::
      exceptions[i].Some? && ThrottleUpdates(exceptions, throttling)[i] == ThrottleInc(throttling, exceptions[i].value)
    ensures |ThrottleUpdates(exceptions, throttling)| < |exceptions| ==>
      exceptions[|ThrottleUpdates(exceptions, throttling)|].None?
    decreases |exceptions|
  {
    if exceptions != [] && exceptions[0].Some? {
      ThrottleFanOut(exceptions[1..], throttling);
    }
  }

  /** The counters, timers and throttling parts of an enabled request's updates. */
  function CounterPart(request: Request, parseUri: string -> UriParse): seq<Update> {
    SweepUpdates(CounterSweep, COUNTERS, request.metrics.timing, BaseTags(request, parseUri))
  }

  function TimerPart(request: Request, parseUri: string -> UriParse): seq<Update> {
    SweepUpdates(TimerSweep, TIMERS, request.metrics.timing, BaseTags(request, parseUri))
  }

  /** A sweep gives no update on a metric named after none of its fields. */
  lemma SweepSilent(sweep: Sweep, names: seq<string>, timing: TimingInfo, tags: map<string, string>, name: string)
    requires forall i | 0 <= i < |names| :: IdName(names[i]) != name
    ensures Named(SweepUpdates(sweep, names, timing, tags), name) == []
  {
    SweepElements(sweep, names, timing, tags);
    NamedNone(SweepUpdates(sweep, names, timing, tags), name);
  }

  /** The throttling part gives no update on any other metric. */
  lemma ThrottleSilent(metrics: AwsRequestMetrics, tags: map<string, string>, name: string)
    requires name != IdName(THROTTLING)
    ensures Named(ThrottlePart(metrics, tags), name) == []
  {
    ThrottlePartNamed(metrics, tags);
    NamedNone(ThrottlePart(metrics, tags), name);
  }

  /** The updates of an enabled request on one metric, part by part. */
  lemma NamedParts(request: Request, parseUri: string -> UriParse, name: string)
    requires request.metrics.enabled
    ensures Named(Updates(request, parseUri), name) ==
      Named(CounterPart(request, parseUri), name) + Named(TimerPart(request, parseUri), name)
      + Named(ThrottlePart(request.metrics, BaseTags(request, parseUri)), name)
  {
    var counters := CounterPart(request, parseUri);
    var timers := TimerPart(request, parseUri);
    var throttles := ThrottlePart(request.metrics, BaseTags(request, parseUri));
    assert Updates(request, parseUri) == counters + timers + throttles;
    NamedAppend(counters + timers, throttles, name);
    NamedAppend(counters, timers, name);
  }

  /** The throttling updates are all increments by one of the throttling counter. */
  lemma ThrottlePartNamed(metrics: AwsRequestMetrics, tags: map<string, string>)
    ensures forall k | 0 <= k < |ThrottlePart(metrics, tags)| ::
      ThrottlePart(metrics, tags)[k].id.name == IdName(THROTTLING) &&
      ThrottlePart(metrics, tags)[k].CounterInc? && ThrottlePart(metrics, tags)[k].amount == 1
  {
    match NotEmpty(GetProperty(metrics, THROTTLE_EXCEPTION))
    case None =>
    case Some(list) => ThrottleFanOut(list, MetricId(IdName(THROTTLING), tags));
  }

  /**
   * Counter fields: a field whose counter is present and strictly positive gives exactly
   * one increment, named after it, carrying the base tags and the counter's value; any
   * other field gives none.
   */
  lemma CounterEmission(request: Request, parseUri: string -> UriParse, k: nat)
    requires request.metrics.enabled && k < |COUNTERS|
    ensures Named(Updates(request, parseUri), IdName(COUNTERS[k])) ==
      if COUNTERS[k] in request.metrics.timing.counters && request.metrics.timing.counters[COUNTERS[k]] > 0
      then [CounterInc(MetricId(IdName(COUNTERS[k]), BaseTags(request, parseUri)), request.metrics.timing.counters[COUNTERS[k]])]
      else []
  {
    var tags := BaseTags(request, parseUri);
    var name := IdName(COUNTERS[k]);
    CounterNamesDistinct();
    SweepNamesDisjoint();
    NamedParts(request, parseUri, name);
    SweepNamed(CounterSweep, COUNTERS, request.metrics.timing, tags, k);
    SweepSilent(TimerSweep, TIMERS, request.metrics.timing, tags, name);
    ThrottleSilent(request.metrics, tags, name);
  }

  /**
   * Timer fields: a field whose last interval is present and has a known end gives
   * exactly one record, named after it, carrying the base tags and the duration
   * end - start in nanoseconds (a Java long difference); any other field gives none.
   */
  lemma TimerEmission(request: Request, parseUri: string -> UriParse, k: nat)
    requires request.metrics.enabled && k < |TIMERS|
    ensures Named(Updates(request, parseUri), IdName(TIMERS[k])) ==
      var intervals := request.metrics.timing.lastSubMeasurements;
      if TIMERS[k] in intervals && intervals[TIMERS[k]].endTimeKnown
      then [TimerRecord(MetricId(IdName(TIMERS[k]), BaseTags(request, parseUri)),
                        LongSub(intervals[TIMERS[k]].endTimeNano, intervals[TIMERS[k]].startTimeNano))]
      else []
  {
    var tags := BaseTags(request, parseUri);
    var name := IdName(TIMERS[k]);
    TimerNamesDistinct();
    SweepNamesDisjoint();
    NamedParts(request, parseUri, name);
    SweepNamed(TimerSweep, TIMERS, request.metrics.timing, tags, k);
    SweepSilent(CounterSweep, COUNTERS, request.metrics.timing, tags, name);
    ThrottleSilent(request.metrics, tags, name);
  }

  /** The updates of an enabled request on the throttling counter are its throttling part. */
  lemma ThrottlingIsThrottlePart(request: Request, parseUri: string -> UriParse)
    requires request.metrics.enabled
    ensures Named(Updates(request, parseUri), IdName(THROTTLING))
         == ThrottlePart(request.metrics, BaseTags(request, parseUri))
  {
    var tags := BaseTags(request, parseUri);
    var name := IdName(THROTTLING);
    SweepNamesDisjoint();
    NamedParts(request, parseUri, name);
    SweepSilent(CounterSweep, COUNTERS, request.metrics.timing, tags, name);
    SweepSilent(TimerSweep, TIMERS, request.metrics.timing, tags, name);
    ThrottlePartNamed(request.metrics, tags);
    NamedAll(ThrottlePart(request.metrics, tags), name);
  }

  /** The throttling part for given base tags, element by element. */
  lemma ThrottlePartShape(metrics: AwsRequestMetrics, tags: map<string, string>)
    ensures var list := GetProperty(metrics, THROTTLE_EXCEPTION);
      list.None? || list.value == [] ==> ThrottlePart(metrics, tags) == []
    ensures var list := GetProperty(metrics, THROTTLE_EXCEPTION);
      var us := ThrottlePart(metrics, tags);
      list.Some? ==>
        |us| <= |list.value| &&
        (forall i | 0 <= i < |us| ::
          list.value[i].Some? &&
          us[i] == CounterInc(MetricId(IdName(THROTTLING), tags[THROTTLE_EXCEPTION_TAG := list.value[i].value.simpleName]), 1)) &&
        (|us| < |list.value| ==> list.value[|us|].None?) &&
        (|us| == |list.value| <==> !exists i | 0 <= i < |list.value| :: list.value[i].None?)
  {
    var list := GetProperty(metrics, THROTTLE_EXCEPTION);
    if list.Some? && list.value != [] {
      ThrottleFanOut(list.value, MetricId(IdName(THROTTLING), tags));
    }
  }

  /**
   * The throttle exceptions: no list, or an empty one, gives no throttling update; a list
   * of N non-null exceptions gives exactly N increments by one of aws.request.throttling,
   * the i-th carrying the base tags plus throttleException set to the simple class name
   * of the i-th exception. A null element stops the fan-out there, and only then does
   * collectMetrics end with a NullPointerException.
   */
  lemma ThrottlingEmission(request: Request, parseUri: string -> UriParse)
    requires request.metrics.enabled
    ensures var list := GetProperty(request.metrics, THROTTLE_EXCEPTION);
      list.None? || list.value == [] ==> Named(Updates(request, parseUri), IdName(THROTTLING)) == []
    ensures var list := GetProperty(request.metrics, THROTTLE_EXCEPTION);
      var us := Named(Updates(request, parseUri), IdName(THROTTLING));
      list.Some? ==>
        |us| <= |list.value| &&
        (forall i | 0 <= i < |us| ::
          list.value[i].Some? &&
          us[i] == CounterInc(MetricId(IdName(THROTTLING),
                                       BaseTags(request, parseUri)[THROTTLE_EXCEPTION_TAG := list.value[i].value.simpleName]), 1)) &&
        (|us| < |list.value| ==> list.value[|us|].None?) &&
        (|us| == |list.value| <==> !ThrowsNullPointer(request))
  {
    ThrottlingIsThrottlePart(request, parseUri);
    ThrottlePartShape(request.metrics, BaseTags(request, parseUri));
  }

  /**
   * The stage of an update: 0 for a counter field's increment, 1 for a timer field's
   * record, 2 for a throttling increment by one, 3 for anything else.
   */
  function Stage(u: Update): nat {
    if u.CounterInc? && exists i | 0 <= i < |COUNTERS| :: u.id.name == IdName(COUNTERS[i]) then 0
    else if u.TimerRecord? && exists i | 0 <= i < |TIMERS| :: u.id.name == IdName(TIMERS[i]) then 1
    else if u.CounterInc? && u.id.name == IdName(THROTTLING) && u.amount == 1 then 2
    else 3
  }

  lemma CounterStage(timing: TimingInfo, tags: map<string, string>)
    ensures forall k | 0 <= k < |SweepUpdates(CounterSweep, COUNTERS, timing, tags)| ::
      Stage(SweepUpdates(CounterSweep, COUNTERS, timing, tags)[k]) == 0
  {
    SweepElements(CounterSweep, COUNTERS, timing, tags);
  }

  lemma TimerStage(timing: TimingInfo, tags: map<string, string>)
    ensures forall k | 0 <= k < |SweepUpdates(TimerSweep, TIMERS, timing, tags)| ::
      Stage(SweepUpdates(TimerSweep, TIMERS, timing, tags)[k]) == 1
  {
    SweepElements(TimerSweep, TIMERS, timing, tags);
  }

  lemma ThrottleStage(metrics: AwsRequestMetrics, tags: map<string, string>)
    ensures forall k | 0 <= k < |ThrottlePart(metrics, tags)| :: Stage(ThrottlePart(metrics, tags)[k]) == 2
  {
    ThrottlePartNamed(metrics, tags);
    SweepNamesDisjoint();
  }

  /** The stage of the k-th update follows from the part it falls in. */
  lemma StageOfIndex(counters: seq<Update>, timers: seq<Update>, throttles: seq<Update>, k: int)
    requires forall i | 0 <= i < |counters| :: Stage(counters[i]) == 0
    requires forall i | 0 <= i < |timers| :: Stage(timers[i]) == 1
    requires forall i | 0 <= i < |throttles| :: Stage(throttles[i]) == 2
    requires 0 <= k < |counters + timers + throttles|
    ensures Stage((counters + timers + throttles)[k]) ==
      if k < |counters| then 0 else if k < |counters| + |timers| then 1 else 2
  {
    var us := counters + timers + throttles;
    if k < |counters| {
      assert us[k] == counters[k];
    } else if k < |counters| + |timers| {
      assert us[k] == timers[k - |counters|];
    } else {
      assert us[k] == throttles[k - |counters| - |timers|];
    }
  }

  lemma StageAt(metrics: AwsRequestMetrics, tags: map<string, string>)
    ensures forall k | 0 <= k < |Emitted(metrics, tags)| ::
      Stage(Emitted(metrics, tags)[k]) ==
        if k < |SweepUpdates(CounterSweep, COUNTERS, metrics.timing, tags)| then 0
        else if k < |SweepUpdates(CounterSweep, COUNTERS, metrics.timing, tags)|
                  + |SweepUpdates(TimerSweep, TIMERS, metrics.timing, tags)| then 1
        else 2
  {
    var counters := SweepUpdates(CounterSweep, COUNTERS, metrics.timing, tags);
    var timers := SweepUpdates(TimerSweep, TIMERS, metrics.timing, tags);
    var throttles := ThrottlePart(metrics, tags);
    assert Emitted(metrics, tags) == counters + timers + throttles;
    CounterStage(metrics.timing, tags);
    TimerStage(metrics.timing, tags);
    ThrottleStage(metrics, tags);
    forall k | 0 <= k < |counters + timers + throttles| {
      StageOfIndex(counters, timers, throttles, k);
    }
  }

  /**
   * Every update is a counter field's increment, a timer field's record or a throttling
   * increment, and all counter increments come before all timer records, which come
   * before all throttling increments.
   */
  lemma UpdateOrder(request: Request, parseUri: string -> UriParse)
    ensures forall k | 0 <= k < |Updates(request, parseUri)| :: Stage(Updates(request, parseUri)[k]) < 3
    ensures forall i, j | 0 <= i < j < |Updates(request, parseUri)| ::
      Stage(Updates(request, parseUri)[i]) <= Stage(Updates(request, parseUri)[j])
  {
    if request.metrics.enabled {
      StageAt(request.metrics, BaseTags(request, parseUri));
    }
  }
}
