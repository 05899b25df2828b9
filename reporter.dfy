/**
 * `SpectatorReporter`: maps the metrics of a metrics3 registry onto Spectator
 * once per reporting interval. The two tables it keeps are fields updated in
 * place; every call it makes on the Spectator registry is appended to `log`.
 */
module Reporter {
  import opened Api
  import opened ReporterSpec
  import opened ReporterProps

  class SpectatorReporter {
    const nameFunction: NameFunction
    /** The value last set for each gauge name; the registry's gauge for a name reads its entry. */
    var gaugeDoubles: map<string, real>
    /** The count seen by the previous report, per meter name. */
    var previousValues: map<string, Long>
    /** The calls made on the Spectator registry, oldest first. */
    var log: seq<Event>

    function State(): (b: Book)
      reads this
    {
      Book(gaugeDoubles, previousValues, log)
    }

    /** Every gauge name is registered once when its id is known, and never otherwise. */
    ghost predicate Valid()
      reads this
    {
      RegisteredOnce(nameFunction, State())
    }

    constructor (nameFunction: NameFunction)
      ensures this.nameFunction == nameFunction
      ensures State() == EmptyBook
      ensures Valid()
    {
      this.nameFunction := nameFunction;
      gaugeDoubles := map[];
      previousValues := map[];
      log := [];
      new;
      EmptyBookRegisteredOnce(nameFunction);
    }

    /**
     * `register(name, value)`: hands the gauge to the registry when the name maps
     * to an id. It is called only from `SetGaugeValue`, right after the name was
     * first stored, which is what keeps `Valid`.
     */
    method Register(name: string) returns (id: Option<Id>)
      modifies this
      ensures id == nameFunction(name)
      ensures gaugeDoubles == old(gaugeDoubles) && previousValues == old(previousValues)
      ensures log == old(log) + RegisterLog(nameFunction, name)
    {
      id := nameFunction(name);
      if id.Some? {
        log := log + [GaugeRegistered(id.value, name)];
      }
    }

    /** `setGaugeValue(name, v)`: a new name is stored and registered; the value is then set. */
    method SetGaugeValue(name: string, v: real)
      requires Valid()
      modifies this
      ensures State() == ReporterSpec.SetGaugeValue(nameFunction, old(State()), name, v)
      ensures Valid()
    {
      if name !in gaugeDoubles {
        // putIfAbsent: with one thread the name is still absent here
        gaugeDoubles := gaugeDoubles[name := v];
        var _ := Register(name);
      }
      gaugeDoubles := gaugeDoubles[name := v];
      SetGaugeValueKeepsRegisteredOnce(nameFunction, old(State()), name, v);
    }

    /** `getAndSetPrevious(name, v)`: the stored baseline (0 for a new name) is returned and replaced by `v`. */
    method GetAndSetPrevious(name: string, newValue: Long) returns (prev: Long)
      requires Valid()
      modifies this
      ensures prev == Previous(old(previousValues), name)
      ensures previousValues == old(previousValues)[name := newValue]
      ensures gaugeDoubles == old(gaugeDoubles) && log == old(log)
      ensures Valid()
    {
      if name !in previousValues {
        previousValues := previousValues[name := 0];
      }
      prev := previousValues[name];
      previousValues := previousValues[name := newValue];
    }

    /** `report(...)`: the gauge, counter, histogram, meter and timer loops, in that order. */
    method Report(gauges: seq<Entry<GaugeReading>>, counters: seq<Entry<Long>>,
                  histograms: seq<Entry<seq<Long>>>, meters: seq<Entry<Long>>,
                  timers: seq<Entry<seq<Long>>>)
      requires Valid()
      modifies this
      ensures State() == ReporterSpec.Report(nameFunction, old(State()), gauges, counters, histograms, meters, timers)
      ensures Valid()
    {
      ReportGauges(gauges);
      ReportCounters(counters);
      ReportHistograms(histograms);
      ReportMeters(meters);
      ReportTimers(timers);
    }

    /** The gauge loop of `report`: numeric readings are set, other readings skipped. */
    method ReportGauges(gauges: seq<Entry<GaugeReading>>)
      requires Valid()
      modifies this
      ensures State() == GaugeLoop(nameFunction, old(State()), gauges)
      ensures Valid()
    {
      for i := 0 to |gauges|
        invariant State() == GaugeLoop(nameFunction, old(State()), gauges[..i])
        invariant Valid()
      {
        var entry := gauges[i];
        if entry.metric.NumberReading? {
          SetGaugeValue(entry.name, entry.metric.value);
        }
        assert gauges[..i + 1][..i] == gauges[..i];
      }
      assert gauges[..|gauges|] == gauges;
    }

    /** The counter loop of `report`: each count is set as the gauge value of its name. */
    method ReportCounters(counters: seq<Entry<Long>>)
      requires Valid()
      modifies this
      ensures State() == CounterLoop(nameFunction, old(State()), counters)
      ensures Valid()
    {
      for i := 0 to |counters|
        invariant State() == CounterLoop(nameFunction, old(State()), counters[..i])
        invariant Valid()
      {
        var entry := counters[i];
        SetGaugeValue(entry.name, entry.metric as real);
        assert counters[..i + 1][..i] == counters[..i];
      }
      assert counters[..|counters|] == counters;
    }

    /** The histogram loop of `report`: snapshot values are recorded when the name maps to an id. */
    method ReportHistograms(histograms: seq<Entry<seq<Long>>>)
      requires Valid()
      modifies this
      ensures State() == old(State()).(log := HistogramLoop(nameFunction, old(log), histograms))
      ensures Valid()
    {
      for i := 0 to |histograms|
        invariant State() == old(State()).(log := HistogramLoop(nameFunction, old(log), histograms[..i]))
      {
        var entry := histograms[i];
        var id := nameFunction(entry.name);
        if id.Some? {
          var vs := entry.metric;
          ghost var before := log;
          for j := 0 to |vs|
            invariant gaugeDoubles == old(gaugeDoubles) && previousValues == old(previousValues)
            invariant log == before + SummaryRecords(id.value, vs[..j])
          {
            log := log + [SummaryRecorded(id.value, vs[j])];
          }
          assert vs[..|vs|] == vs;
        }
        assert histograms[..i + 1][..i] == histograms[..i];
      }
      assert histograms[..|histograms|] == histograms;
      forall n
        ensures RegCount(log, n) == RegCount(old(log), n)
      {
        HistogramLoopRegistersNothing(nameFunction, old(log), histograms, n);
      }
    }

    /**
     * The meter loop of `report`: the baseline is swapped for the current count,
     * then the counter is incremented by `prev - curr` when the name maps to an id.
     */
    method ReportMeters(meters: seq<Entry<Long>>)
      requires Valid()
      modifies this
      ensures State() == MeterLoop(nameFunction, old(State()), meters)
      ensures Valid()
    {
      for i := 0 to |meters|
        invariant State() == MeterLoop(nameFunction, old(State()), meters[..i])
        invariant Valid()
      {
        var entry := meters[i];
        var curr := entry.metric;
        var prev := GetAndSetPrevious(entry.name, curr);
        var id := nameFunction(entry.name);
        if id.Some? {
          ghost var before := State();
          log := log + [CounterIncremented(id.value, MeterIncrement(prev, curr))];
          AppendKeepsRegisteredOnce(nameFunction, before, CounterIncremented(id.value, MeterIncrement(prev, curr)));
        }
        assert meters[..i + 1][..i] == meters[..i];
      }
      assert meters[..|meters|] == meters;
    }

    /** The timer loop of `report`: snapshot values are recorded, in nanoseconds, when the name maps to an id. */
    method ReportTimers(timers: seq<Entry<seq<Long>>>)
      requires Valid()
      modifies this
      ensures State() == old(State()).(log := TimerLoop(nameFunction, old(log), timers))
      ensures Valid()
    {
      for i := 0 to |timers|
        invariant State() == old(State()).(log := TimerLoop(nameFunction, old(log), timers[..i]))
      {
        var entry := timers[i];
        var id := nameFunction(entry.name);
        if id.Some? {
          var vs := entry.metric;
          ghost var before := log;
          for j := 0 to |vs|
            invariant gaugeDoubles == old(gaugeDoubles) && previousValues == old(previousValues)
            invariant log == before + TimerRecords(id.value, vs[..j])
          {
            log := log + [TimerRecorded(id.value, vs[j])];
          }
          assert vs[..|vs|] == vs;
        }
        assert timers[..i + 1][..i] == timers[..i];
      }
      assert timers[..|timers|] == timers;
      forall n
        ensures RegCount(log, n) == RegCount(old(log), n)
      {
        TimerLoopRegistersNothing(nameFunction, old(log), timers, n);
      }
    }
  }
}
