/**
 * The bookkeeping of the metrics3-to-Spectator reporter as pure functions over
 * its state: the value last set for each gauge name, the baseline kept for each
 * meter name, and the log of calls made on the Spectator registry. The
 * reporter class is proved against these functions; the lemmas below state
 * what the bookkeeping guarantees.
 */
module ReporterSpec {
  import opened Api

  const MinLong: int := -0x8000_0000_0000_0000
  const MaxLong: int := 0x7fff_ffff_ffff_ffff

  /** A Java `long`. */
  type Long = x: int | MinLong <= x <= MaxLong

  /** Java's `long` subtraction, which wraps around on overflow. */
  function LongSub(a: Long, b: Long): (r: Long)
    ensures MinLong <= a - b <= MaxLong ==> r == a - b
    ensures (r - (a - b)) % 0x1_0000_0000_0000_0000 == 0
  {
    (a - b - MinLong) % 0x1_0000_0000_0000_0000 + MinLong
  }

  /** Maps a metrics3 name to a Spectator id; `None` stands for `null` (skip the metric). */
  type NameFunction = string -> Option<Id>

  /** One entry of a metrics3 sorted map, in iteration order. */
  datatype Entry<T> = Entry(name: string, metric: T)

  /** What a metrics3 `Gauge.getValue()` returned: a `Number`, or anything else (null included). */
  datatype GaugeReading = NumberReading(value: real) | OtherReading

  /** A call made on the Spectator registry. */
  datatype Event =
    | GaugeRegistered(id: Id, cell: string)    // gauge(id, value): `cell` names the gaugeDoubles entry it reads
    | CounterIncremented(id: Id, amount: Long) // counter(id).increment(amount)
    | SummaryRecorded(id: Id, amount: Long)    // distributionSummary(id).record(amount)
    | TimerRecorded(id: Id, nanos: Long)       // timer(id).record(nanos, NANOSECONDS)

  /** The reporter's state: `gaugeDoubles`, `previousValues` and the registry log. */
  datatype Book = Book(gaugeDoubles: map<string, real>, previousValues: map<string, Long>, log: seq<Event>)

  const EmptyBook: Book := Book(map[], map[], [])

  // ---------------------------------------------------------------- gauges

  /** What `register(name, value)` asks of the registry. */
  function RegisterLog(nf: NameFunction, name: string): (events: seq<Event>)
  {
    match nf(name)
    case None => []
    case Some(id) => [GaugeRegistered(id, name)]
  }

  /**
   * `setGaugeValue(name, v)`: a name seen for the first time is stored and
   * registered; a known name only has its value replaced.
   */
  function SetGaugeValue(nf: NameFunction, b: Book, name: string, v: real): (after: Book)
  {
    if name in b.gaugeDoubles then
      b.(gaugeDoubles := b.gaugeDoubles[name := v])
    else
      Book(b.gaugeDoubles[name := v], b.previousValues, b.log + RegisterLog(nf, name))
  }

  /** The loop over the metrics3 gauges: entries whose value is not a number are skipped. */
  function GaugeLoop(nf: NameFunction, b: Book, gauges: seq<Entry<GaugeReading>>): (after: Book)
  {
    if gauges == [] then b
    else
      var before := GaugeLoop(nf, b, gauges[..|gauges| - 1]);
      var last := gauges[|gauges| - 1];
      match last.metric
      case NumberReading(v) => SetGaugeValue(nf, before, last.name, v)
      case OtherReading => before
  }

  /** The loop over the metrics3 counters: each count is set as a gauge value. */
  function CounterLoop(nf: NameFunction, b: Book, counters: seq<Entry<Long>>): (after: Book)
  {
    if counters == [] then b
    else
      var before := CounterLoop(nf, b, counters[..|counters| - 1]);
      var last := counters[|counters| - 1];
      SetGaugeValue(nf, before, last.name, last.metric as real)
  }

  // ---------------------------------------------------------------- meters

  /** The baseline kept for `name`: 0 until a first meter report stores one. */
  function Previous(previousValues: map<string, Long>, name: string): (prev: Long)
  {
    if name in previousValues then previousValues[name] else 0
  }

  /** The amount a meter's counter is incremented by, as the reporter computes it: `prev - curr`. */
  function MeterIncrement(prev: Long, curr: Long): (amount: Long)
  {
    LongSub(prev, curr)
  }

  function IncrementLog(nf: NameFunction, name: string, amount: Long): (events: seq<Event>)
  {
    match nf(name)
    case None => []
    case Some(id) => [CounterIncremented(id, amount)]
  }

  /**
   * One iteration of the meter loop: the baseline is swapped for the current
   * count whether or not the name maps to an id, and the counter is
   * incremented only when it does.
   */
  function MeterStep(nf: NameFunction, b: Book, name: string, curr: Long): (after: Book)
  {
    var prev := Previous(b.previousValues, name);
    Book(b.gaugeDoubles, b.previousValues[name := curr],
         b.log + IncrementLog(nf, name, MeterIncrement(prev, curr)))
  }

  function MeterLoop(nf: NameFunction, b: Book, meters: seq<Entry<Long>>): (after: Book)
  {
    if meters == [] then b
    else
      var last := meters[|meters| - 1];
      MeterStep(nf, MeterLoop(nf, b, meters[..|meters| - 1]), last.name, last.metric)
  }

  // ------------------------------------------------- histograms and timers

  function SummaryRecords(id: Id, vs: seq<Long>): (r: seq<Event>)
    ensures |r| == |vs|
    ensures forall j | 0 <= j < |vs| :: r[j] == SummaryRecorded(id, vs[j])
  {
    seq(|vs|, j requires 0 <= j < |vs| => SummaryRecorded(id, vs[j]))
  }

  function TimerRecords(id: Id, vs: seq<Long>): (r: seq<Event>)
    ensures |r| == |vs|
    ensures forall j | 0 <= j < |vs| :: r[j] == TimerRecorded(id, vs[j])
  {
    seq(|vs|, j requires 0 <= j < |vs| => TimerRecorded(id, vs[j]))
  }

  /** The histogram loop: every snapshot value is recorded when the name maps to an id. */
  function HistogramLoop(nf: NameFunction, log: seq<Event>, histograms: seq<Entry<seq<Long>>>): (after: seq<Event>)
  {
    if histograms == [] then log
    else
      var before := HistogramLoop(nf, log, histograms[..|histograms| - 1]);
      var last := histograms[|histograms| - 1];
      match nf(last.name)
      case None => before
      case Some(id) => before + SummaryRecords(id, last.metric)
  }

  /** The timer loop: every snapshot value, in nanoseconds, is recorded when the name maps to an id. */
  function TimerLoop(nf: NameFunction, log: seq<Event>, timers: seq<Entry<seq<Long>>>): (after: seq<Event>)
  {
    if timers == [] then log
    else
      var before := TimerLoop(nf, log, timers[..|timers| - 1]);
      var last := timers[|timers| - 1];
      match nf(last.name)
      case None => before
      case Some(id) => before + TimerRecords(id, last.metric)
  }

  /** `report(gauges, counters, histograms, meters, timers)`: the five loops in order. */
  function Report(nf: NameFunction, b: Book,
                  gauges: seq<Entry<GaugeReading>>, counters: seq<Entry<Long>>,
                  histograms: seq<Entry<seq<Long>>>, meters: seq<Entry<Long>>,
                  timers: seq<Entry<seq<Long>>>): (after: Book)
  {
    var afterCounters := CounterLoop(nf, GaugeLoop(nf, b, gauges), counters);
    var afterHistograms := afterCounters.(log := HistogramLoop(nf, afterCounters.log, histograms));
    var afterMeters := MeterLoop(nf, afterHistograms, meters);
    afterMeters.(log := TimerLoop(nf, afterMeters.log, timers))
  }
}
