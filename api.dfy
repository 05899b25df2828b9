/**
 * The parts of Spectator's public API that the modelled classes use: metric
 * identifiers with their tags, measurements, and the clock. Only what the
 * Atlas max gauge and the metrics3 reporter rely on is modelled.
 */
module Api {

  datatype Option<+T> = None | Some(value: T)

  /**
   * An identifier: a name plus a set of tags in which each key occurs at most
   * once. Adding a tag whose key is already present replaces its value.
   */
  datatype Id = Id(name: string, tags: map<string, string>) {

    /** `Id.withTag(k, v)`: the same id with tag `k` set to `v`. */
    function WithTag(key: string, value: string): (r: Id)
      ensures r.name == name
      ensures r.tags.Keys == tags.Keys + {key}
      ensures r.tags[key] == value
      ensures forall k | k in tags && k != key :: r.tags[k] == tags[k]
    {
      Id(name, tags[key := value])
    }

    /** `Id.withTags(ts)`: every tag of `ts` added in turn, so `ts` wins on a shared key. */
    function WithTags(ts: map<string, string>): (r: Id)
      ensures r.name == name
      ensures r.tags.Keys == tags.Keys + ts.Keys
      ensures forall k | k in ts :: r.tags[k] == ts[k]
      ensures forall k | k in tags && k !in ts :: r.tags[k] == tags[k]
    {
      Id(name, tags + ts)
    }
  }

  /** A sampled value of a meter: its identifier, the wall time of the sample and the value. */
  datatype Measurement = Measurement(id: Id, timestamp: int, value: real)

  /**
   * The clock shared by a registry and its meters. Only `wallTime()` is read by
   * the modelled code; time is moved forward by the environment.
   */
  class Clock {
    var now: int

    constructor (start: int)
      ensures now == start
    {
      now := start;
    }

    function WallTime(): (t: int)
      reads this
    {
      now
    }

    /** The environment lets time pass; wall time never goes backwards. */
    method Advance(delta: nat)
      modifies this
      ensures now == old(now) + delta
    {
      now := now + delta;
    }
  }
}
