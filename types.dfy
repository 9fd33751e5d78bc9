/** Value records of the queueing engine: sources, devices, the extended-real clock,
    the configuration, and a snapshot of the whole engine state. */
module Types {

  datatype Option<T> = None | Some(value: T)

  /** A point on the virtual clock, or +infinity (a device's `float('inf')` finish time). */
  datatype Time = Fin(t: real) | Inf

  /** `a <= b` on times, with Inf <= Inf, as Python compares float('inf'). */
  predicate Le(a: Time, b: Time) {
    match (a, b)
    case (_, Inf) => true
    case (Inf, Fin(_)) => false
    case (Fin(x), Fin(y)) => x <= y
  }

  /** `a < b` on times; Inf < Inf is false. */
  predicate Lt(a: Time, b: Time) {
    !Le(b, a)
  }

  /** One arrival process (class Source); its id is its index in the engine's source list. */
  datatype Source = Source(
    generated: nat,
    processed: nat,
    rejected: nat,
    totalWait: real,
    nextArrival: real)

  /** One service unit (class Device); `occupant` is the id of the source it serves. */
  datatype Device = Device(
    lambda: real,
    busy: bool,
    occupant: Option<nat>,
    processed: nat,
    finish: Time)

  /** One call of the step-mode hook: the event kind and the engine clock at that moment. */
  datatype Notice = Notice(kind: string, time: real)

  /** The configuration the engine reads once: buffer size, stopping threshold, the numbers of
      sources and devices, the service rate and the swept range of tau. */
  datatype Config = Config(
    capacity: nat,
    minRequests: int,
    sourceCount: nat,
    deviceCount: nat,
    lambda: real,
    tauMin: real,
    tauMax: real,
    tauStep: real)

  /** Snapshot of the mutable fields of the engine. `bufSource` is BUFN (-1 marks an empty slot),
      `bufTime` is BUFT, `occupied` is INDBUF, `rejects` is KOTK, `tog` is TOG, `drawn` counts the
      random draws consumed so far and `notices` records the step-mode hook calls of the current
      realization. */
  datatype State = State(
    sources: seq<Source>,
    devices: seq<Device>,
    bufSource: seq<int>,
    bufTime: seq<real>,
    occupied: nat,
    rejects: nat,
    tog: seq<real>,
    packet: int,
    packetEmpty: bool,
    time: real,
    drawn: nat,
    notices: seq<Notice>)

  /** Every draw of the random stream (the k-th generated interval or service time) is non-negative. */
  ghost predicate NonNegative(draws: nat -> real) {
    forall k: nat :: draws(k) >= 0.0
  }
}
