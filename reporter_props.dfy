/**
 * What the reporter's bookkeeping guarantees: each gauge name is registered
 * with the Spectator registry at most once, exactly when it was first stored
 * and its name maps to an id; the gauge and counter loops leave each name with
 * the last numeric value reported for it; and the meter loop computes every
 * increment from the baseline left by the previous report.
 */
module ReporterProps {
  import opened Api
  import opened ReporterSpec

  // ------------------------------------------------------ registrations

  /** The number of gauge registrations in `log` for the cell `name`. */
  function RegCount(log: seq<Event>, name: string): (count: nat)
  {
    if log == [] then 0
    else
      var last := log[|log| - 1];
      RegCount(log[..|log| - 1], name) + (if last.GaugeRegistered? && last.cell == name then 1 else 0)
  }

  lemma {:induction false} RegCountAppend(a: seq<Event>, b: seq<Event>, name: string)
    ensures RegCount(a + b, name) == RegCount(a, name) + RegCount(b, name)
  {
    if b == [] {
      assert a + b == a;
    } else {
      assert (a + b)[..|a + b| - 1] == a + b[..|b| - 1];
      RegCountAppend(a, b[..|b| - 1], name);
    }
  }

  ghost predicate NoRegistrations(es: seq<Event>)
  {
    forall i | 0 <= i < |es| :: !es[i].GaugeRegistered?
  }

  lemma {:induction false} RegCountNone(es: seq<Event>, name: string)
    requires NoRegistrations(es)
    ensures RegCount(es, name) == 0
  {
    if es != [] {
      RegCountNone(es[..|es| - 1], name);
    }
  }

  /**
   * The registration invariant: a name has been registered once if it is stored
   * in `gaugeDoubles` and maps to an id, and never otherwise.
   */
  ghost predicate RegisteredOnce(nf: NameFunction, b: Book)
  {
    forall name :: RegCount(b.log, name) == if name in b.gaugeDoubles && nf(name).Some? then 1 else 0
  }

  lemma EmptyBookRegisteredOnce(nf: NameFunction)
    ensures RegisteredOnce(nf, EmptyBook)
  {
  }

  /** Logging any call other than a gauge registration keeps the registration invariant. */
  lemma AppendKeepsRegisteredOnce(nf: NameFunction, b: Book, e: Event)
    requires RegisteredOnce(nf, b)
    requires !e.GaugeRegistered?
    ensures RegisteredOnce(nf, b.(log := b.log + [e]))
  {
    forall n
      ensures RegCount(b.log + [e], n) == RegCount(b.log, n)
    {
      RegCountAppend(b.log, [e], n);
    }
  }

  /** `setGaugeValue` stores the value, changes no other entry, and logs only on first sight of a name. */
  lemma SetGaugeValueFrame(nf: NameFunction, b: Book, name: string, v: real)
    ensures SetGaugeValue(nf, b, name, v).gaugeDoubles == b.gaugeDoubles[name := v]
    ensures SetGaugeValue(nf, b, name, v).previousValues == b.previousValues
    ensures name in b.gaugeDoubles ==> SetGaugeValue(nf, b, name, v).log == b.log
  {
  }

  /** `setGaugeValue` keeps the registration invariant. */
  lemma SetGaugeValueKeepsRegisteredOnce(nf: NameFunction, b: Book, name: string, v: real)
    requires RegisteredOnce(nf, b)
    ensures RegisteredOnce(nf, SetGaugeValue(nf, b, name, v))
  {
    var after := SetGaugeValue(nf, b, name, v);
    if name !in b.gaugeDoubles {
      forall n
        ensures RegCount(after.log, n) == if n in after.gaugeDoubles && nf(n).Some? then 1 else 0
      {
        RegCountAppend(b.log, RegisterLog(nf, name), n);
        if nf(name).Some? {
          assert RegisterLog(nf, name)[..0] == [];
        }
      }
    }
  }

  /** A name whose id is `null` is stored but never registered, on this call or any later one. */
  lemma NullIdNeverRegistered(nf: NameFunction, b: Book, name: string, v: real)
    requires RegisteredOnce(nf, b)
    requires nf(name) == None
    ensures name in SetGaugeValue(nf, b, name, v).gaugeDoubles
    ensures RegCount(SetGaugeValue(nf, b, name, v).log, name) == 0
  {
    SetGaugeValueKeepsRegisteredOnce(nf, b, name, v);
  }

  lemma {:induction false} GaugeLoopKeepsRegisteredOnce(nf: NameFunction, b: Book, gauges: seq<Entry<GaugeReading>>)
    requires RegisteredOnce(nf, b)
    ensures RegisteredOnce(nf, GaugeLoop(nf, b, gauges))
  {
    if gauges != [] {
      var last := gauges[|gauges| - 1];
      GaugeLoopKeepsRegisteredOnce(nf, b, gauges[..|gauges| - 1]);
      if last.metric.NumberReading? {
        SetGaugeValueKeepsRegisteredOnce(nf, GaugeLoop(nf, b, gauges[..|gauges| - 1]), last.name, last.metric.value);
      }
    }
  }

  lemma {:induction false} CounterLoopKeepsRegisteredOnce(nf: NameFunction, b: Book, counters: seq<Entry<Long>>)
    requires RegisteredOnce(nf, b)
    ensures RegisteredOnce(nf, CounterLoop(nf, b, counters))
  {
    if counters != [] {
      var last := counters[|counters| - 1];
      CounterLoopKeepsRegisteredOnce(nf, b, counters[..|counters| - 1]);
      SetGaugeValueKeepsRegisteredOnce(nf, CounterLoop(nf, b, counters[..|counters| - 1]), last.name, last.metric as real);
    }
  }

  /** The meter loop registers nothing and leaves `gaugeDoubles` alone. */
  lemma {:induction false} MeterLoopRegistersNothing(nf: NameFunction, b: Book, meters: seq<Entry<Long>>, name: string)
    ensures MeterLoop(nf, b, meters).gaugeDoubles == b.gaugeDoubles
    ensures RegCount(MeterLoop(nf, b, meters).log, name) == RegCount(b.log, name)
  {
    if meters != [] {
      var last := meters[|meters| - 1];
      var before := MeterLoop(nf, b, meters[..|meters| - 1]);
      MeterLoopRegistersNothing(nf, b, meters[..|meters| - 1], name);
      var inc := IncrementLog(nf, last.name, MeterIncrement(Previous(before.previousValues, last.name), last.metric));
      RegCountAppend(before.log, inc, name);
      RegCountNone(inc, name);
    }
  }

  lemma {:induction false} HistogramLoopRegistersNothing(nf: NameFunction, log: seq<Event>, histograms: seq<Entry<seq<Long>>>, name: string)
    ensures RegCount(HistogramLoop(nf, log, histograms), name) == RegCount(log, name)
  {
    if histograms != [] {
      var last := histograms[|histograms| - 1];
      var before := HistogramLoop(nf, log, histograms[..|histograms| - 1]);
      HistogramLoopRegistersNothing(nf, log, histograms[..|histograms| - 1], name);
      if nf(last.name).Some? {
        var records := SummaryRecords(nf(last.name).value, last.metric);
        RegCountAppend(before, records, name);
        RegCountNone(records, name);
      }
    }
  }

  lemma {:induction false} TimerLoopRegistersNothing(nf: NameFunction, log: seq<Event>, timers: seq<Entry<seq<Long>>>, name: string)
    ensures RegCount(TimerLoop(nf, log, timers), name) == RegCount(log, name)
  {
    if timers != [] {
      var last := timers[|timers| - 1];
      var before := TimerLoop(nf, log, timers[..|timers| - 1]);
      TimerLoopRegistersNothing(nf, log, timers[..|timers| - 1], name);
      if nf(last.name).Some? {
        var records := TimerRecords(nf(last.name).value, last.metric);
        RegCountAppend(before, records, name);
        RegCountNone(records, name);
      }
    }
  }

  /** Recording a snapshot in two parts logs what recording it at once does. */
  lemma SummaryRecordsAppend(id: Id, a: seq<Long>, b: seq<Long>)
    ensures SummaryRecords(id, a + b) == SummaryRecords(id, a) + SummaryRecords(id, b)
  {
    forall j | 0 <= j < |a + b|
      ensures SummaryRecords(id, a + b)[j] == (SummaryRecords(id, a) + SummaryRecords(id, b))[j]
    {
      if j >= |a| {
        assert (a + b)[j] == b[j - |a|];
      }
    }
  }

  lemma TimerRecordsAppend(id: Id, a: seq<Long>, b: seq<Long>)
    ensures TimerRecords(id, a + b) == TimerRecords(id, a) + TimerRecords(id, b)
  {
    forall j | 0 <= j < |a + b|
      ensures TimerRecords(id, a + b)[j] == (TimerRecords(id, a) + TimerRecords(id, b))[j]
    {
      if j >= |a| {
        assert (a + b)[j] == b[j - |a|];
      }
    }
  }

  /** Distribution-summary and timer records are never gauge registrations. */
  lemma RecordsRegisterNothing(id: Id, vs: seq<Long>)
    ensures NoRegistrations(SummaryRecords(id, vs))
    ensures NoRegistrations(TimerRecords(id, vs))
  {
  }

  /** A whole report keeps the registration invariant: no gauge is ever registered twice. */
  lemma ReportKeepsRegisteredOnce(nf: NameFunction, b: Book,
                                  gauges: seq<Entry<GaugeReading>>, counters: seq<Entry<Long>>,
                                  histograms: seq<Entry<seq<Long>>>, meters: seq<Entry<Long>>,
                                  timers: seq<Entry<seq<Long>>>)
    requires RegisteredOnce(nf, b)
    ensures RegisteredOnce(nf, Report(nf, b, gauges, counters, histograms, meters, timers))
  {
    var afterGauges := GaugeLoop(nf, b, gauges);
    GaugeLoopKeepsRegisteredOnce(nf, b, gauges);
    var afterCounters := CounterLoop(nf, afterGauges, counters);
    CounterLoopKeepsRegisteredOnce(nf, afterGauges, counters);
    var afterHistograms := afterCounters.(log := HistogramLoop(nf, afterCounters.log, histograms));
    var afterMeters := MeterLoop(nf, afterHistograms, meters);
    var r := Report(nf, b, gauges, counters, histograms, meters, timers);
    assert r == afterMeters.(log := TimerLoop(nf, afterMeters.log, timers));
    forall n
      ensures RegCount(r.log, n) == if n in r.gaugeDoubles && nf(n).Some? then 1 else 0
    {
      HistogramLoopRegistersNothing(nf, afterCounters.log, histograms, n);
      MeterLoopRegistersNothing(nf, afterHistograms, meters, n);
      TimerLoopRegistersNothing(nf, afterMeters.log, timers, n);
    }
  }

  // ------------------------------------------------ gauge and counter values

  ghost predicate DistinctNames<T>(es: seq<Entry<T>>)
  {
    forall i, j | 0 <= i < j < |es| :: es[i].name != es[j].name
  }

  /** The numeric gauge readings of a report, a later entry winning over an earlier one. */
  function NumericValues(gauges: seq<Entry<GaugeReading>>): (values: map<string, real>)
  {
    if gauges == [] then map[]
    else
      var before := NumericValues(gauges[..|gauges| - 1]);
      var last := gauges[|gauges| - 1];
      match last.metric
      case NumberReading(v) => before[last.name := v]
      case OtherReading => before
  }

  /** The gauge loop overwrites exactly the names with a numeric reading. */
  lemma {:induction false} GaugeLoopSetsNumericValues(nf: NameFunction, b: Book, gauges: seq<Entry<GaugeReading>>)
    ensures GaugeLoop(nf, b, gauges).gaugeDoubles == b.gaugeDoubles + NumericValues(gauges)
    ensures GaugeLoop(nf, b, gauges).previousValues == b.previousValues
  {
    if gauges == [] {
      assert b.gaugeDoubles + map[] == b.gaugeDoubles;
    } else {
      GaugeLoopSetsNumericValues(nf, b, gauges[..|gauges| - 1]);
    }
  }

  /** With distinct names, a name has a numeric value iff its reading was a number, and it is that number. */
  lemma {:induction false} NumericValuesAt(gauges: seq<Entry<GaugeReading>>, i: nat)
    requires DistinctNames(gauges)
    requires i < |gauges|
    ensures gauges[i].name in NumericValues(gauges) <==> gauges[i].metric.NumberReading?
    ensures gauges[i].metric.NumberReading? ==> NumericValues(gauges)[gauges[i].name] == gauges[i].metric.value
  {
    var front := gauges[..|gauges| - 1];
    if i < |gauges| - 1 {
      assert DistinctNames(front) by {
        forall a, c | 0 <= a < c < |front| ensures front[a].name != front[c].name {
          assert front[a] == gauges[a] && front[c] == gauges[c];
        }
      }
      assert front[i] == gauges[i];
      NumericValuesAt(front, i);
    } else {
      NumericValuesKeys(front, gauges[i].name);
      forall k | 0 <= k < |front| ensures front[k].name != gauges[i].name {
        assert front[k] == gauges[k];
      }
    }
  }

  /** Only names that occur in the report get a numeric value. */
  lemma {:induction false} NumericValuesKeys(gauges: seq<Entry<GaugeReading>>, name: string)
    requires forall k | 0 <= k < |gauges| :: gauges[k].name != name
    ensures name !in NumericValues(gauges)
  {
    if gauges != [] {
      var front := gauges[..|gauges| - 1];
      forall k | 0 <= k < |front| ensures front[k].name != name {
        assert front[k] == gauges[k];
      }
      NumericValuesKeys(front, name);
    }
  }

  /** A counter is reported as a gauge whose reading is its count. */
  function CountersAsGauges(counters: seq<Entry<Long>>): (gauges: seq<Entry<GaugeReading>>)
    ensures |gauges| == |counters|
    ensures forall i | 0 <= i < |counters| ::
              gauges[i] == Entry(counters[i].name, NumberReading(counters[i].metric as real))
  {
    seq(|counters|, i requires 0 <= i < |counters| => Entry(counters[i].name, NumberReading(counters[i].metric as real)))
  }

  /** The counter loop is the gauge loop on the counts. */
  lemma {:induction false} CounterLoopIsGaugeLoop(nf: NameFunction, b: Book, counters: seq<Entry<Long>>)
    ensures CounterLoop(nf, b, counters) == GaugeLoop(nf, b, CountersAsGauges(counters))
  {
    if counters != [] {
      var front := counters[..|counters| - 1];
      CounterLoopIsGaugeLoop(nf, b, front);
      assert CountersAsGauges(counters)[..|counters| - 1] == CountersAsGauges(front);
    }
  }

  // ---------------------------------------------------------------- meters

  /** The baselines after a report: each meter's baseline becomes its current count. */
  function Rebase(previousValues: map<string, Long>, meters: seq<Entry<Long>>): (baselines: map<string, Long>)
  {
    if meters == [] then previousValues
    else
      var last := meters[|meters| - 1];
      Rebase(previousValues, meters[..|meters| - 1])[last.name := last.metric]
  }

  /**
   * The counter increments of a report, each computed from the baseline left
   * by the previous report (0 for a meter never reported before).
   */
  function MeterIncrements(nf: NameFunction, previousValues: map<string, Long>, meters: seq<Entry<Long>>): (events: seq<Event>)
  {
    if meters == [] then []
    else
      var last := meters[|meters| - 1];
      MeterIncrements(nf, previousValues, meters[..|meters| - 1])
        + IncrementLog(nf, last.name, MeterIncrement(Previous(previousValues, last.name), last.metric))
  }

  /** Baselines of names not in the report are untouched. */
  lemma {:induction false} RebaseElsewhere(previousValues: map<string, Long>, meters: seq<Entry<Long>>, name: string)
    requires forall k | 0 <= k < |meters| :: meters[k].name != name
    ensures Previous(Rebase(previousValues, meters), name) == Previous(previousValues, name)
    ensures name in Rebase(previousValues, meters) <==> name in previousValues
  {
    if meters != [] {
      var front := meters[..|meters| - 1];
      forall k | 0 <= k < |front| ensures front[k].name != name {
        assert front[k] == meters[k];
      }
      RebaseElsewhere(previousValues, front, name);
    }
  }

  /** With distinct names, every reported meter's baseline becomes its current count. */
  lemma {:induction false} RebaseAt(previousValues: map<string, Long>, meters: seq<Entry<Long>>, i: nat)
    requires DistinctNames(meters)
    requires i < |meters|
    ensures Previous(Rebase(previousValues, meters), meters[i].name) == meters[i].metric
  {
    var front := meters[..|meters| - 1];
    if i < |meters| - 1 {
      assert DistinctNames(front) by {
        forall a, c | 0 <= a < c < |front| ensures front[a].name != front[c].name {
          assert front[a] == meters[a] && front[c] == meters[c];
        }
      }
      assert front[i] == meters[i];
      RebaseAt(previousValues, front, i);
    }
  }

  /**
   * The meter loop against its reference: baselines are swapped for the current
   * counts whatever the name function says, and each increment is computed from
   * the baseline the previous report left.
   */
  lemma {:induction false} MeterLoopUsesPreviousReport(nf: NameFunction, b: Book, meters: seq<Entry<Long>>)
    requires DistinctNames(meters)
    ensures MeterLoop(nf, b, meters) ==
              Book(b.gaugeDoubles, Rebase(b.previousValues, meters),
                   b.log + MeterIncrements(nf, b.previousValues, meters))
  {
    if meters != [] {
      var front := meters[..|meters| - 1];
      var last := meters[|meters| - 1];
      assert DistinctNames(front) by {
        forall a, c | 0 <= a < c < |front| ensures front[a].name != front[c].name {
          assert front[a] == meters[a] && front[c] == meters[c];
        }
      }
      MeterLoopUsesPreviousReport(nf, b, front);
      forall k | 0 <= k < |front| ensures front[k].name != last.name {
        assert front[k] == meters[k];
      }
      RebaseElsewhere(b.previousValues, front, last.name);
      var inc := IncrementLog(nf, last.name, MeterIncrement(Previous(b.previousValues, last.name), last.metric));
      assert b.log + MeterIncrements(nf, b.previousValues, front) + inc
          == b.log + MeterIncrements(nf, b.previousValues, meters);
    }
  }

  /** Two `getAndSetPrevious` calls: the second sees the first's value; other names are unaffected. */
  lemma BaselineSwap(previousValues: map<string, Long>, name: string, other: string, v: Long)
    requires other != name
    ensures Previous(previousValues[name := v], name) == v
    ensures Previous(previousValues[name := v], other) == Previous(previousValues, other)
  {
  }

  // -------------------------------------------------------------- finding

  /** What the meter increment is evidently meant to be: the events counted since the previous report. */
  function IntendedMeterIncrement(prev: Long, curr: Long): (amount: Long)
  {
    LongSub(curr, prev)
  }

  /** The total added to a meter's counter over reports seeing `counts`, from baseline `prev`. */
  function SumIncrements(increment: (Long, Long) -> Long, prev: Long, counts: seq<Long>): (total: int)
    decreases |counts|
  {
    if counts == [] then 0
    else increment(prev, counts[0]) + SumIncrements(increment, counts[0], counts[1..])
  }

  ghost predicate NonNegative(counts: seq<Long>)
  {
    forall i | 0 <= i < |counts| :: counts[i] >= 0
  }

  /** As written: a meter that has counted 5 events decrements its counter by 5 on the first report. */
  lemma MeterIncrementIsNegated()
    ensures SumIncrements(MeterIncrement, 0, [5]) == -5
  {
  }

  /** As written, the counter's total is the first baseline minus the latest count (the negated count when the baseline is 0). */
  lemma {:induction false} AsWrittenIncrementsNegate(prev: Long, counts: seq<Long>)
    requires prev >= 0 && NonNegative(counts) && counts != []
    ensures SumIncrements(MeterIncrement, prev, counts) == prev - counts[|counts| - 1]
    decreases |counts|
  {
    if |counts| > 1 {
      AsWrittenIncrementsNegate(counts[0], counts[1..]);
    }
  }

  /** Corrected: the counter's total is the latest count minus the first baseline (the latest count when the baseline is 0). */
  lemma {:induction false} IntendedIncrementsTelescope(prev: Long, counts: seq<Long>)
    requires prev >= 0 && NonNegative(counts) && counts != []
    ensures SumIncrements(IntendedMeterIncrement, prev, counts) == counts[|counts| - 1] - prev
    decreases |counts|
  {
    if |counts| > 1 {
      IntendedIncrementsTelescope(counts[0], counts[1..]);
    }
  }
}
