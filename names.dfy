/** Properties of the metric and tag names the collector derives from SDK field names. */
module MetricNames {
  import opened Introspector
  import opened Aws2

  /** An SDK field name: it starts with a capital letter. */
  predicate StartsWithCapital(name: string) {
    |name| > 0 && IsUpperCase(name[0])
  }

  /** No two of `names` give the same metric name. */
  predicate IdsDistinct(names: seq<string>) {
    forall i, j | 0 <= i < |names| && 0 <= j < |names| && i != j :: IdName(names[i]) != IdName(names[j])
  }

  lemma DecapitalizeClientExecuteTime()
    ensures Decapitalize("ClientExecuteTime") == "clientExecuteTime"
  {
    assert Decapitalize("ClientExecuteTime") == ['c'] + "lientExecuteTime";
  }

  lemma PrefixClientExecuteTime()
    ensures ID_PREFIX + "clientExecuteTime" == "aws.request.clientExecuteTime"
  {
  }

  /** idName is "aws.request." followed by the decapitalized name. */
  lemma IdNameExample()
    ensures IdName("ClientExecuteTime") == "aws.request.clientExecuteTime"
  {
    DecapitalizeClientExecuteTime();
    PrefixClientExecuteTime();
  }

  /** The throttling counter is aws.request.throttling. */
  lemma ThrottlingName()
    ensures IdName(THROTTLING) == "aws.request.throttling"
  {
    assert Decapitalize(THROTTLING) == THROTTLING;
  }

  /** Two field names give the same metric name only when they are the same name. */
  lemma IdNameInjective(a: string, b: string)
    requires StartsWithCapital(a) && StartsWithCapital(b)
    requires IdName(a) == IdName(b)
    ensures a == b
  {
    assert Decapitalize(a) == IdName(a)[|ID_PREFIX|..];
    assert Decapitalize(b) == IdName(b)[|ID_PREFIX|..];
    DecapitalizeInjective(a, b);
  }

  lemma FieldTables()
    ensures forall i | 0 <= i < |COUNTERS| :: StartsWithCapital(COUNTERS[i]) && |COUNTERS[i]| > |THROTTLING|
    ensures forall i | 0 <= i < |TIMERS| :: StartsWithCapital(TIMERS[i]) && |TIMERS[i]| > |THROTTLING|
    ensures forall i, j | 0 <= i < |COUNTERS| && 0 <= j < |COUNTERS| && i != j :: COUNTERS[i] != COUNTERS[j]
    ensures forall i, j | 0 <= i < |TIMERS| && 0 <= j < |TIMERS| && i != j :: TIMERS[i] != TIMERS[j]
    ensures forall i, j | 0 <= i < |COUNTERS| && 0 <= j < |TIMERS| :: COUNTERS[i] != TIMERS[j]
  {
  }

  /** No two counters share a metric name. */
  lemma CounterNamesDistinct()
    ensures IdsDistinct(COUNTERS)
  {
    FieldTables();
    forall i, j | 0 <= i < |COUNTERS| && 0 <= j < |COUNTERS| && i != j
      ensures IdName(COUNTERS[i]) != IdName(COUNTERS[j])
    {
      if IdName(COUNTERS[i]) == IdName(COUNTERS[j]) {
        IdNameInjective(COUNTERS[i], COUNTERS[j]);
      }
    }
  }

  /** No two timers share a metric name. */
  lemma TimerNamesDistinct()
    ensures IdsDistinct(TIMERS)
  {
    FieldTables();
    forall i, j | 0 <= i < |TIMERS| && 0 <= j < |TIMERS| && i != j
      ensures IdName(TIMERS[i]) != IdName(TIMERS[j])
    {
      if IdName(TIMERS[i]) == IdName(TIMERS[j]) {
        IdNameInjective(TIMERS[i], TIMERS[j]);
      }
    }
  }

  /**
   * Counters, timers and the throttling counter have different metric names, so every
   * update of a request can be traced back to the field it came from.
   */
  lemma SweepNamesDisjoint()
    ensures forall i, j | 0 <= i < |COUNTERS| && 0 <= j < |TIMERS| :: IdName(COUNTERS[i]) != IdName(TIMERS[j])
    ensures forall i | 0 <= i < |COUNTERS| :: IdName(COUNTERS[i]) != IdName(THROTTLING)
    ensures forall j | 0 <= j < |TIMERS| :: IdName(TIMERS[j]) != IdName(THROTTLING)
  {
    FieldTables();
    forall i, j | 0 <= i < |COUNTERS| && 0 <= j < |TIMERS|
      ensures IdName(COUNTERS[i]) != IdName(TIMERS[j])
    {
      if IdName(COUNTERS[i]) == IdName(TIMERS[j]) {
        IdNameInjective(COUNTERS[i], TIMERS[j]);
      }
    }
  }

  lemma DecapitalizeServiceEndpoint()
    ensures Decapitalize("ServiceEndpoint") == "serviceEndpoint"
  {
    assert Decapitalize("ServiceEndpoint") == ['s'] + "erviceEndpoint";
  }

  lemma DecapitalizeServiceName()
    ensures Decapitalize("ServiceName") == "serviceName"
  {
    assert Decapitalize("ServiceName") == ['s'] + "erviceName";
  }

  lemma DecapitalizeStatusCode()
    ensures Decapitalize("StatusCode") == "statusCode"
  {
    assert Decapitalize("StatusCode") == ['s'] + "tatusCode";
  }

  lemma DecapitalizeException()
    ensures Decapitalize("Exception") == "exception"
  {
    assert Decapitalize("Exception") == ['e'] + "xception";
  }

  /** The keys of the success tags: decapitalized field names. */
  lemma SuccessTagNames()
    ensures TAGS[0].GetName() == "serviceEndpoint"
    ensures TAGS[1].GetName() == "serviceName"
    ensures TAGS[2].GetName() == "statusCode"
  {
    DecapitalizeServiceEndpoint();
    DecapitalizeServiceName();
    DecapitalizeStatusCode();
  }

  /** The keys of the error tags; AWSErrorCode keeps its capitals. */
  lemma ErrorTagNames()
    ensures ERRORS[0].GetName() == "AWSErrorCode"
    ensures ERRORS[1].GetName() == "exception"
  {
    assert StartsWithTwoCapitals("AWSErrorCode");
    DecapitalizeException();
  }

  /** Unlike decapitalize, idName is not idempotent: every application adds the prefix again. */
  lemma IdNameNotIdempotent(name: string)
    ensures IdName(IdName(name)) != IdName(name)
  {
    assert |IdName(IdName(name))| == |ID_PREFIX| + |IdName(name)|;
  }
}
