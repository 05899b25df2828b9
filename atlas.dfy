/**
 * `AtlasMaxGauge`: a gauge that reports to Atlas the largest value submitted
 * during a step window. Writers call `Set`, which raises the cell of the
 * window in progress; readers call `Value` or `Measure`, which read the value
 * of the last completed window.
 */
module Atlas {
  import opened Api
  import opened Impl

  /** The `statistic` tag that `Statistic.max` stands for. */
  const StatisticKey: string := "statistic"
  const StatisticMax: string := "max"
  /** The tag that `DsType.gauge` stands for in the Atlas registry. */
  const DsTypeKey: string := "atlas.dstype"
  const DsTypeGauge: string := "gauge"

  function Max(a: real, b: real): (m: real)
  {
    if a >= b then a else b
  }

  /**
   * The identifier the gauge reports under: `statistic=max` is added first and
   * the id's own tags are added again after it, so a `statistic` tag already on
   * the id wins; `atlas.dstype=gauge` is added last and always wins.
   */
  function StatId(id: Id): (stat: Id)
    ensures stat.name == id.name
    ensures stat.tags.Keys == id.tags.Keys + {StatisticKey, DsTypeKey}
    ensures stat.tags[DsTypeKey] == DsTypeGauge
    ensures stat.tags[StatisticKey] ==
              if StatisticKey in id.tags then id.tags[StatisticKey] else StatisticMax
    ensures forall k | k in id.tags && k != DsTypeKey :: stat.tags[k] == id.tags[k]
  {
    id.WithTag(StatisticKey, StatisticMax).WithTags(id.tags).WithTag(DsTypeKey, DsTypeGauge)
  }

  /**
   * The value a window's cell reaches when it starts at `init` and the values
   * `vs` are set in that order, each `set` raising the cell to the larger of
   * the two.
   */
  function WindowMax(init: real, vs: seq<real>): (max: real)
  {
    if vs == [] then init else Max(WindowMax(init, vs[..|vs| - 1]), vs[|vs| - 1])
  }

  /** The window's cell is the maximum of its initial value and every submitted value. */
  lemma {:induction false} WindowMaxIsMaximum(init: real, vs: seq<real>)
    ensures WindowMax(init, vs) >= init
    ensures forall i | 0 <= i < |vs| :: WindowMax(init, vs) >= vs[i]
    ensures WindowMax(init, vs) == init || WindowMax(init, vs) in vs
  {
    if vs != [] {
      var front := vs[..|vs| - 1];
      WindowMaxIsMaximum(init, front);
      assert forall i | 0 <= i < |vs| - 1 :: vs[i] == front[i];
      assert WindowMax(init, front) in front ==> WindowMax(init, front) in vs;
    }
  }

  /** The order in which the values are set does not matter. */
  lemma WindowMaxIgnoresOrder(init: real, vs: seq<real>, ws: seq<real>)
    requires multiset(vs) == multiset(ws)
    ensures WindowMax(init, vs) == WindowMax(init, ws)
  {
    WindowMaxIsMaximum(init, vs);
    WindowMaxIsMaximum(init, ws);
    var a, b := WindowMax(init, vs), WindowMax(init, ws);
    if a != init {
      assert a in multiset(ws);
      var j :| 0 <= j < |ws| && ws[j] == a;
      assert b >= a;
    }
    if b != init {
      assert b in multiset(vs);
      var i :| 0 <= i < |vs| && vs[i] == b;
      assert a >= b;
    }
  }

  class AtlasMaxGauge {
    const id: Id
    const clock: Clock
    const ttl: int
    const value: StepDouble
    const stat: Id
    /** The last-modified time kept by `AtlasMeter` for expiry. */
    var lastModTime: int

    /** `AtlasMaxGauge(id, clock, ttl, step)`: both halves of the window start at 0.0. */
    constructor (id: Id, clock: Clock, ttl: int, step: int)
      ensures this.id == id && this.clock == clock && this.ttl == ttl
      ensures fresh(value) && fresh(value.current)
      ensures value.init == 0.0 && value.clock == clock && value.step == step
      ensures value.current.v == 0.0 && value.current.writes == 0 && value.previous == 0.0
      ensures stat == StatId(id)
      ensures lastModTime == clock.WallTime()
    {
      this.id := id;
      this.clock := clock;
      this.ttl := ttl;
      lastModTime := clock.WallTime();
      value := new StepDouble(0.0, clock, step);
      stat := StatId(id);
    }

    /** One measurement: the completed window's value, under `stat`, at the current wall time. */
    method Measure() returns (ms: seq<Measurement>)
      ensures |ms| == 1
      ensures ms[0].id == stat && ms[0].timestamp == clock.WallTime()
      ensures ms[0].value == value.previous
    {
      var v := Value();
      var m := Measurement(stat, clock.WallTime(), v);
      ms := [m];
    }

    /**
     * Raise the window's cell to `v` when `v` is larger; with a single writer the
     * compare-and-set succeeds on its first attempt. The last-modified time is
     * updated whatever `v` is.
     */
    method Set(v: real)
      modifies this, value.current
      ensures value.current.v == Max(old(value.current.v), v)
      ensures value.current.writes == old(value.current.writes) + (if v > old(value.current.v) then 1 else 0)
      ensures value.previous == old(value.previous)
      ensures lastModTime == clock.WallTime()
    {
      var current := value.GetCurrent();
      var max := current.Get();
      var swapped := false;
      while v > max && !swapped
        invariant !swapped ==> max == current.v && current.v == old(current.v)
        invariant !swapped ==> current.writes == old(current.writes)
        invariant swapped ==> v > old(current.v) && current.v == v
        invariant swapped ==> current.writes == old(current.writes) + 1
        decreases !swapped
      {
        swapped := current.CompareAndSet(max, v);
        if !swapped {
          // Java's `set` re-reads `max` and tries again here. Only another writer
          // could have changed the cell since it was read, so with one writer the
          // retry cannot happen.
          assert false;
        }
      }
      lastModTime := clock.WallTime();
    }

    /** The value of the last completed window; the window in progress is not touched. */
    method Value() returns (r: real)
      ensures r == value.previous
    {
      r := value.Poll();
    }
  }

  /**
   * A run of `set` calls within one window, in the order given: the window's
   * cell ends at `WindowMax` of its value before the run and the values, and the
   * completed window is untouched.
   */
  method SetAll(gauge: AtlasMaxGauge, vs: seq<real>)
    modifies gauge, gauge.value.current
    ensures gauge.value.current.v == WindowMax(old(gauge.value.current.v), vs)
    ensures gauge.value.previous == old(gauge.value.previous)
  {
    for i := 0 to |vs|
      invariant gauge.value.current.v == WindowMax(old(gauge.value.current.v), vs[..i])
      invariant gauge.value.previous == old(gauge.value.previous)
    {
      gauge.Set(vs[i]);
      assert vs[..i + 1][..i] == vs[..i];
    }
    assert vs[..|vs|] == vs;
  }

  /**
   * Two windows: 5, 3 and 9 are set in the first and 1 in the second; each
   * window, once completed, reads as its own maximum. The `Advance` calls only
   * mark when each call happens (and so the gauge's `lastModTime`); each
   * `Rotate` stands for the crossing of a ten-unit step boundary.
   */
  method TwoWindows() returns (first: real, second: real)
    ensures first == 9.0 && second == 1.0
  {
    var clock := new Clock(0);
    var gauge := new AtlasMaxGauge(Id("test", map[]), clock, 900000, 10);
    clock.Advance(1);
    gauge.Set(5.0);
    clock.Advance(1);
    gauge.Set(3.0);
    clock.Advance(1);
    gauge.Set(9.0);
    clock.Advance(7);
    gauge.value.Rotate();
    first := gauge.Value();
    clock.Advance(1);
    gauge.Set(1.0);
    clock.Advance(9);
    gauge.value.Rotate();
    second := gauge.Value();
  }
}
