/** The timing monitor of utils/performance.ts: running timers by name, the
    durations recorded per name, their averages, and the single shared
    instance. `performance.now()` is given to each operation as `now`. */
module Performance {

  /** The sum of recorded durations, as `reduce` adds them from the first. */
  function Sum(ts: seq<real>): real {
    if ts == [] then 0.0 else Sum(ts[..|ts| - 1]) + ts[|ts| - 1]
  }

  /** The average `getAverageTime` computes: 0 for no durations. */
  function Average(ts: seq<real>): (avg: real)
    ensures ts != [] ==> avg * |ts| as real == Sum(ts)
    ensures ts == [] ==> avg == 0.0
  {
    if ts == [] then 0.0 else Sum(ts) / |ts| as real
  }

  lemma {:induction false} SumBounds(ts: seq<real>, lo: real, hi: real)
    requires forall i :: 0 <= i < |ts| ==> lo <= ts[i] <= hi
    ensures lo * |ts| as real <= Sum(ts) <= hi * |ts| as real
  {
    if ts != [] {
      SumBounds(ts[..|ts| - 1], lo, hi);
    }
  }

  /** An average lies between the smallest and the largest duration. */
  lemma AverageBounds(ts: seq<real>, lo: real, hi: real)
    requires ts != []
    requires forall i :: 0 <= i < |ts| ==> lo <= ts[i] <= hi
    ensures lo <= Average(ts) <= hi
  {
    SumBounds(ts, lo, hi);
    var n := |ts| as real;
    assert Average(ts) * n == Sum(ts);
  }

  /** The shortest recorded duration. */
  function Lowest(ts: seq<real>): (lo: real)
    requires ts != []
    ensures lo in ts
    ensures forall i :: 0 <= i < |ts| ==> lo <= ts[i]
  {
    if |ts| == 1 then ts[0]
    else
      var rest := Lowest(ts[1..]);
      assert forall i :: 1 <= i < |ts| ==> ts[i] == ts[1..][i - 1];
      if ts[0] <= rest then ts[0] else rest
  }

  /** The longest recorded duration. */
  function Highest(ts: seq<real>): (hi: real)
    requires ts != []
    ensures hi in ts
    ensures forall i :: 0 <= i < |ts| ==> ts[i] <= hi
  {
    if |ts| == 1 then ts[0]
    else
      var rest := Highest(ts[1..]);
      assert forall i :: 1 <= i < |ts| ==> ts[i] == ts[1..][i - 1];
      if ts[0] >= rest then ts[0] else rest
  }

  /** Recording one more duration moves the sum by exactly that duration. */
  lemma SumAppend(ts: seq<real>, d: real)
    ensures Sum(ts + [d]) == Sum(ts) + d
  {
    assert (ts + [d])[..|ts|] == ts;
  }

  class PerformanceMonitor {
    /** Start time of each running timer. */
    var timers: map<string, real>
    /** The durations recorded per name, oldest first. */
    var metrics: map<string, seq<real>>

    constructor ()
      ensures timers == map[] && metrics == map[]
      ensures Valid()
    {
      timers := map[];
      metrics := map[];
    }

    /** Every recorded list holds at least one duration. */
    predicate Valid()
      reads this
    {
      forall name :: name in metrics ==> metrics[name] != []
    }

    /** `startTimer`: a second start of the same name replaces the first. */
    method StartTimer(name: string, now: real)
      modifies this`timers
      ensures timers == old(timers)[name := now]
    {
      timers := timers[name := now];
    }

    /** `endTimer`: a name never started, or started at time 0, gives 0 and
        changes nothing; otherwise the timer stops and its duration is recorded
        after the name's earlier ones. */
    method EndTimer(name: string, now: real) returns (duration: real)
      modifies this
      ensures name !in old(timers) || old(timers)[name] == 0.0 ==>
        duration == 0.0 && timers == old(timers) && metrics == old(metrics)
      ensures name in old(timers) && old(timers)[name] != 0.0 ==>
        && duration == now - old(timers)[name]
        && timers == old(timers) - {name}
        && metrics == old(metrics)[name := (if name in old(metrics) then old(metrics)[name] else []) + [duration]]
      ensures Valid() <== old(Valid())
    {
      if name !in timers || timers[name] == 0.0 {
        return 0.0;
      }
      duration := now - timers[name];
      timers := timers - {name};
      if name !in metrics {
        metrics := metrics[name := []];
      }
      metrics := metrics[name := metrics[name] + [duration]];
    }

    /** `getAverageTime` */
    function GetAverageTime(name: string): (avg: real)
      reads this
      ensures name !in metrics ==> avg == 0.0
      ensures name in metrics ==> avg == Average(metrics[name])
      ensures Valid() && name in metrics ==> Lowest(metrics[name]) <= avg <= Highest(metrics[name])
    {
      if name !in metrics || metrics[name] == [] then 0.0
      else
        AverageBounds(metrics[name], Lowest(metrics[name]), Highest(metrics[name]));
        Sum(metrics[name]) / |metrics[name]| as real
    }

    /** `clearMetrics` */
    method ClearMetrics()
      modifies this
      ensures timers == map[] && metrics == map[]
      ensures Valid()
    {
      metrics := map[];
      timers := map[];
    }

    /** `getMetrics`: the average of every name with recorded durations, built
        entry by entry. */
    method GetMetrics() returns (result: map<string, real>)
      ensures result.Keys == metrics.Keys
      ensures forall name :: name in result ==> result[name] == Average(metrics[name])
    {
      result := map[];
      var rest := metrics.Keys;
      while rest != {}
        invariant rest <= metrics.Keys
        invariant result.Keys == metrics.Keys - rest
        invariant forall name :: name in result ==> result[name] == Average(metrics[name])
        decreases rest
      {
        var name :| name in rest;
        result := result[name := GetAverageTime(name)];
        rest := rest - {name};
      }
    }
  }

  /** Where `getInstance` keeps the shared monitor (`PerformanceMonitor.instance`). */
  class MonitorRegistry {
    var instance: PerformanceMonitor?

    constructor ()
      ensures instance == null
    {
      instance := null;
    }

    /** `getInstance`: the first call creates the monitor, every later call
        returns that same object. */
    method GetInstance() returns (m: PerformanceMonitor)
      modifies this`instance
      ensures instance == m
      ensures old(instance) != null ==> m == old(instance)
      ensures old(instance) == null ==> fresh(m) && m.timers == map[] && m.metrics == map[]
    {
      if instance == null {
        instance := new PerformanceMonitor();
      }
      m := instance;
    }
  }

  /** Two calls in a row give the same monitor. */
  method GetInstanceTwice(registry: MonitorRegistry) returns (first: PerformanceMonitor, second: PerformanceMonitor)
    modifies registry
    ensures first == second
  {
    first := registry.GetInstance();
    second := registry.GetInstance();
  }
}
