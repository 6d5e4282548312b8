/**
 * The part of the Spectator registry the collector talks to. Storage, aggregation and
 * export are not modelled: the registry keeps the ordered log of the updates it was asked
 * to make.
 */
module Spectator {

  /** Id: a metric name and its tags (Registry.createId). */
  datatype MetricId = MetricId(name: string, tags: map<string, string>) {

    /** Id.withTag: the same name with one more tag. */
    function WithTag(key: string, value: string): MetricId {
      MetricId(name, tags[key := value])
    }
  }

  /** One update: Counter.increment(amount) or Timer.record(nanos, NANOSECONDS). */
  datatype Update =
    | CounterInc(id: MetricId, amount: int)
    | TimerRecord(id: MetricId, nanos: int)

  class Registry {
    var updates: seq<Update>

    constructor ()
      ensures updates == []
    {
      updates := [];
    }

    /** registry.counter(id).increment(amount) */
    method Increment(id: MetricId, amount: int)
      modifies this
      ensures updates == old(updates) + [CounterInc(id, amount)]
    {
      updates := updates + [CounterInc(id, amount)];
    }

    /** registry.timer(id).record(nanos, TimeUnit.NANOSECONDS) */
    method Record(id: MetricId, nanos: int)
      modifies this
      ensures updates == old(updates) + [TimerRecord(id, nanos)]
    {
      updates := updates + [TimerRecord(id, nanos)];
    }
  }
}
