/**
 What one polling cycle of the collector does, as a trace of abstract actions
 on the device and on the finish event, and what it does to the entities'
 states. The Collector class is proved to produce exactly these traces and
 states; the lemmas here state the schedule's properties.
 */
module Schedule {
  import opened Wrappers
  import opened Aggregation

  /** One observable step: a device call, a wait on the finish event, an entity update. */
  datatype Action =
    | WakeUp                              // sensor.sleep(sleep=False)
    | PowerDown                           // sensor.sleep()
    | Query                               // sensor.query()
    | Wait(seconds: real)                 // finish_event.wait(seconds)
    | Publish(channel: nat, value: real)  // entities[channel].state = value

  /** The collector's configuration, durations in seconds. */
  datatype Config = Config(measureInterval: real, warmupDelay: real, numberOfMeasurements: nat)
  {
    /** Whether the sensor is put to sleep between cycles. */
    predicate SleepsBetweenCycles() { warmupDelay > 0.0 }
  }

  /** What one cycle observed from the outside: the query replies, the work time, a stop request. */
  datatype CycleInput = CycleInput(replies: seq<Sample>, elapsed: real, stopRequested: bool)

  /** The end-of-cycle wait, `max(0, measure_interval - elapsed)`. */
  function EndWait(interval: real, elapsed: real): (d: real)
    ensures d >= 0.0
    ensures d == 0.0 <==> elapsed >= interval
    ensures elapsed < interval ==> d == interval - elapsed
    ensures elapsed + d >= interval
  {
    if interval - elapsed > 0.0 then interval - elapsed else 0.0
  }

  /** `round(v, 1)` on exact reals: to the nearest tenth, halves to the even tenth. */
  function Round1(v: real): (r: real)
    ensures -0.05 <= r - v <= 0.05
    ensures (r * 10.0).Floor as real == r * 10.0
  {
    var x := v * 10.0;
    var f := x.Floor;
    var frac := x - f as real;
    var n := if frac < 0.5 then f
             else if frac > 0.5 then f + 1
             else if f % 2 == 0 then f else f + 1;
    n as real / 10.0
  }

  /** At an exact tie between two tenths, `round` picks the even one. */
  lemma Round1TiesToEven(v: real)
    ensures var r := Round1(v); (r - v == 0.05 || v - r == 0.05) ==> (r * 10.0).Floor % 2 == 0
  {
    var x := v * 10.0;
    var f := x.Floor;
    var frac := x - f as real;
    var n := if frac < 0.5 then f
             else if frac > 0.5 then f + 1
             else if f % 2 == 0 then f else f + 1;
    assert Round1(v) * 10.0 == n as real;
  }

  /** Rounding a value that is already a whole number of tenths leaves it alone. */
  lemma Round1Idempotent(v: real)
    ensures Round1(Round1(v)) == Round1(v)
  {
    var r := Round1(v);
    var n := (r * 10.0).Floor;
    assert r * 10.0 == n as real;
    assert (r * 10.0 - n as real) == 0.0;
  }

  // ---- entity states ----

  /**
   The states after the publish loop: entity `i` takes the rounded column-`i`
   average when it is present, and keeps its state otherwise.
   */
  function PublishedStates(prev: seq<Option<real>>, avgs: seq<Option<real>>): (r: seq<Option<real>>)
    ensures |r| == |prev|
  {
    if |prev| == 0 then []
    else [if |avgs| > 0 && avgs[0].Some? then Some(Round1(avgs[0].value)) else prev[0]]
         + PublishedStates(prev[1..], if |avgs| > 0 then avgs[1..] else [])
  }

  /** Publishing writes only present averages; every other entity keeps its state. */
  lemma {:induction false} PublishedStatesAt(prev: seq<Option<real>>, avgs: seq<Option<real>>, i: nat)
    requires i < |prev|
    ensures |PublishedStates(prev, avgs)| == |prev|
    ensures i < |avgs| && avgs[i].Some? ==> PublishedStates(prev, avgs)[i] == Some(Round1(avgs[i].value))
    ensures i >= |avgs| || avgs[i].None? ==> PublishedStates(prev, avgs)[i] == prev[i]
    decreases i
  {
    if i > 0 {
      PublishedStatesAt(prev[1..], if |avgs| > 0 then avgs[1..] else [], i - 1);
    }
  }

  /** Publishing the same averages twice is the same as publishing them once. */
  lemma PublishIdempotent(prev: seq<Option<real>>, avgs: seq<Option<real>>)
    ensures PublishedStates(PublishedStates(prev, avgs), avgs) == PublishedStates(prev, avgs)
  {
    var once := PublishedStates(prev, avgs);
    forall i | 0 <= i < |prev|
      ensures PublishedStates(once, avgs)[i] == once[i]
    {
      PublishedStatesAt(prev, avgs, i);
      PublishedStatesAt(once, avgs, i);
    }
    if |prev| > 0 { PublishedStatesAt(once, avgs, 0); }
  }

  /** A cycle with no data at all leaves every entity as it was. */
  lemma PublishNothing(prev: seq<Option<real>>, avgs: seq<Option<real>>)
    requires forall i :: 0 <= i < |avgs| ==> avgs[i].None?
    ensures PublishedStates(prev, avgs) == prev
  {
    if |prev| > 0 { PublishedStatesAt(prev, avgs, 0); }
    forall i | 0 <= i < |prev|
      ensures PublishedStates(prev, avgs)[i] == prev[i]
    {
      PublishedStatesAt(prev, avgs, i);
    }
  }

  // ---- the trace of one cycle ----

  /** Lines 89-92: wake the sensor and wait out the warm-up when it sleeps between cycles. */
  function WarmUpTrace(cfg: Config): seq<Action>
  {
    if cfg.SleepsBetweenCycles() then [WakeUp, Wait(cfg.warmupDelay)] else []
  }

  /** Lines 95-97: `n` queries, each followed by a one-second wait. */
  function SamplingTrace(n: nat): seq<Action>
  {
    if n == 0 then [] else SamplingTrace(n - 1) + [Query, Wait(1.0)]
  }

  /** Lines 101-103: the updates the publish loop makes over its first `k` pairs. */
  function PublishTrace(avgs: seq<Option<real>>, k: nat): seq<Action>
    requires k <= |avgs|
  {
    if k == 0 then []
    else PublishTrace(avgs, k - 1)
         + (if avgs[k - 1].Some? then [Publish(k - 1, Round1(avgs[k - 1].value))] else [])
  }

  /** The publish loop's trace for `entities` entities: `zip` stops at the shorter list. */
  function PublishAll(avgs: seq<Option<real>>, entities: nat): seq<Action>
  {
    PublishTrace(avgs, if entities <= |avgs| then entities else |avgs|)
  }

  /** Lines 105-106: put the sensor back to sleep. */
  function CoolDownTrace(cfg: Config): seq<Action>
  {
    if cfg.SleepsBetweenCycles() then [PowerDown] else []
  }

  /** The sub-phases of a cycle. */
  datatype Phase = WarmingUp | Sampling | Publishing | PoweringDown | Idling

  /** What one phase of a cycle does. */
  function PhaseTrace(p: Phase, cfg: Config, avgs: seq<Option<real>>, entities: nat, elapsed: real): seq<Action>
  {
    match p
    case WarmingUp => WarmUpTrace(cfg)
    case Sampling => SamplingTrace(cfg.numberOfMeasurements)
    case Publishing => PublishAll(avgs, entities)
    case PoweringDown => CoolDownTrace(cfg)
    case Idling => [Wait(EndWait(cfg.measureInterval, elapsed))]   // lines 108-110
  }

  /** The phase that follows `p` in a cycle; `Idling` is the last. */
  function Next(p: Phase): Phase
    requires p != Idling
  {
    match p
    case WarmingUp => Sampling
    case Sampling => Publishing
    case Publishing => PoweringDown
    case PoweringDown => Idling
  }

  /** How many phases follow `p`. */
  function Remaining(p: Phase): nat
  {
    match p
    case WarmingUp => 4
    case Sampling => 3
    case Publishing => 2
    case PoweringDown => 1
    case Idling => 0
  }

  /** The rest of a cycle, from phase `p` on. */
  function CycleFrom(p: Phase, cfg: Config, avgs: seq<Option<real>>, entities: nat, elapsed: real): seq<Action>
    decreases Remaining(p)
  {
    PhaseTrace(p, cfg, avgs, entities, elapsed)
    + if p == Idling then [] else CycleFrom(Next(p), cfg, avgs, entities, elapsed)
  }

  /** One whole iteration of the loop in `run`, lines 88-110. */
  function CycleTrace(cfg: Config, avgs: seq<Option<real>>, entities: nat, elapsed: real): seq<Action>
  {
    CycleFrom(WarmingUp, cfg, avgs, entities, elapsed)
  }

  /** A cycle, phase by phase. */
  lemma CycleTraceParts(cfg: Config, avgs: seq<Option<real>>, entities: nat, elapsed: real)
    ensures CycleTrace(cfg, avgs, entities, elapsed)
      == WarmUpTrace(cfg) + SamplingTrace(cfg.numberOfMeasurements) + PublishAll(avgs, entities)
         + CoolDownTrace(cfg) + [Wait(EndWait(cfg.measureInterval, elapsed))]
  {
    var w, s, p, c := WarmUpTrace(cfg), SamplingTrace(cfg.numberOfMeasurements), PublishAll(avgs, entities), CoolDownTrace(cfg);
    var e := [Wait(EndWait(cfg.measureInterval, elapsed))];
    assert CycleFrom(Idling, cfg, avgs, entities, elapsed) == e;
    assert CycleFrom(PoweringDown, cfg, avgs, entities, elapsed) == c + e;
    assert CycleFrom(Publishing, cfg, avgs, entities, elapsed) == p + (c + e);
    assert CycleFrom(Sampling, cfg, avgs, entities, elapsed) == s + (p + (c + e));
    assert CycleFrom(WarmingUp, cfg, avgs, entities, elapsed) == w + (s + (p + (c + e)));
    assert w + (s + (p + (c + e))) == w + s + p + c + e;
  }

  // ---- facts about traces ----

  /** The number of occurrences of `a` in `t`. */
  function Count(t: seq<Action>, a: Action): nat
  {
    if |t| == 0 then 0 else (if t[0] == a then 1 else 0) + Count(t[1..], a)
  }

  lemma {:induction false} CountAppend(s: seq<Action>, t: seq<Action>, a: Action)
    ensures Count(s + t, a) == Count(s, a) + Count(t, a)
    decreases |s|
  {
    if |s| == 0 {
      assert s + t == t;
    } else {
      assert (s + t)[1..] == s[1..] + t;
      CountAppend(s[1..], t, a);
    }
  }

  lemma {:induction false} CountAbsent(t: seq<Action>, a: Action)
    requires a !in t
    ensures Count(t, a) == 0
    decreases |t|
  {
    if |t| > 0 {
      assert a !in t[1..] by { assert forall j :: 0 <= j < |t| - 1 ==> t[1..][j] == t[j + 1]; }
      CountAbsent(t[1..], a);
    }
  }

  /** The sampling burst: query, wait one second, `n` times, and nothing else. */
  lemma {:induction false} SamplingShape(n: nat)
    ensures |SamplingTrace(n)| == 2 * n
    ensures forall j :: 0 <= j < n ==> SamplingTrace(n)[2 * j] == Query && SamplingTrace(n)[2 * j + 1] == Wait(1.0)
  {
    if n > 0 { SamplingShape(n - 1); }
  }

  /** Exactly `n` queries are issued in a burst, and no other device call. */
  lemma {:induction false} SamplingCounts(n: nat)
    ensures Count(SamplingTrace(n), Query) == n
    ensures Count(SamplingTrace(n), WakeUp) == 0 && Count(SamplingTrace(n), PowerDown) == 0
  {
    if n > 0 {
      SamplingCounts(n - 1);
      CountAppend(SamplingTrace(n - 1), [Query, Wait(1.0)], Query);
      CountAppend(SamplingTrace(n - 1), [Query, Wait(1.0)], WakeUp);
      CountAppend(SamplingTrace(n - 1), [Query, Wait(1.0)], PowerDown);
    }
  }

  /** `a` publishes the rounded average of a present channel below `k`. */
  predicate PublishOf(avgs: seq<Option<real>>, k: nat, a: Action)
    requires k <= |avgs|
  {
    a.Publish? && a.channel < k && avgs[a.channel].Some? && a.value == Round1(avgs[a.channel].value)
  }

  /** Every action of `t` publishes the rounded average of a present channel below `k`. */
  predicate OnlyPublishesPresent(avgs: seq<Option<real>>, k: nat, t: seq<Action>)
    requires k <= |avgs|
  {
    forall j :: 0 <= j < |t| ==> PublishOf(avgs, k, t[j])
  }

  /** The publish actions of `t` name strictly increasing channels. */
  predicate ChannelsIncrease(t: seq<Action>)
  {
    forall j1, j2 :: 0 <= j1 < j2 < |t| && t[j1].Publish? && t[j2].Publish? ==> t[j1].channel < t[j2].channel
  }

  /** Every query in `t` is immediately followed by a one-second wait. */
  predicate EachQueryThenWait(t: seq<Action>)
  {
    forall j :: 0 <= j < |t| && t[j] == Query ==> j + 1 < |t| && t[j + 1] == Wait(1.0)
  }

  /**
   `t` wakes the sensor and waits `warmup` first, and puts it to sleep just before
   the final wait, with every query and publish in between.
   */
  predicate BracketedByPowerCalls(t: seq<Action>, warmup: real)
  {
    && |t| >= 3 && t[0] == WakeUp && t[1] == Wait(warmup) && t[|t| - 2] == PowerDown && t[|t| - 1].Wait?
    && forall j :: 0 <= j < |t| && (t[j] == Query || t[j].Publish?) ==> 1 < j < |t| - 2
  }

  /**
   The publish loop's updates: each is a present channel with its rounded average,
   every present channel among the first `k` is updated, and channels come once each, in order.
   */
  lemma {:induction false} PublishTraceSpec(avgs: seq<Option<real>>, k: nat)
    requires k <= |avgs|
    ensures OnlyPublishesPresent(avgs, k, PublishTrace(avgs, k))
    ensures forall i :: 0 <= i < k && avgs[i].Some? ==> Publish(i, Round1(avgs[i].value)) in PublishTrace(avgs, k)
    ensures ChannelsIncrease(PublishTrace(avgs, k))
  {
    if k > 0 {
      PublishTraceSpec(avgs, k - 1);
      var prev := PublishTrace(avgs, k - 1);
      var t := PublishTrace(avgs, k);
      if avgs[k - 1].Some? {
        var x := Publish(k - 1, Round1(avgs[k - 1].value));
        assert t == prev + [x];
        assert forall j :: 0 <= j < |prev| ==> t[j] == prev[j];
        assert t[|prev|] == x;
      } else {
        assert t == prev;
      }
    }
  }

  /** With no warm-up delay a cycle never wakes the sensor or puts it to sleep. */
  lemma NoPowerCallsWithoutWarmUp(cfg: Config, avgs: seq<Option<real>>, entities: nat, elapsed: real)
    requires cfg.warmupDelay <= 0.0
    ensures Count(CycleTrace(cfg, avgs, entities, elapsed), WakeUp) == 0
    ensures Count(CycleTrace(cfg, avgs, entities, elapsed), PowerDown) == 0
  {
    CyclePowerCounts(cfg, avgs, entities, elapsed);
  }

  lemma CyclePowerCounts(cfg: Config, avgs: seq<Option<real>>, entities: nat, elapsed: real)
    ensures Count(CycleTrace(cfg, avgs, entities, elapsed), WakeUp) == (if cfg.SleepsBetweenCycles() then 1 else 0)
    ensures Count(CycleTrace(cfg, avgs, entities, elapsed), PowerDown) == (if cfg.SleepsBetweenCycles() then 1 else 0)
    ensures Count(CycleTrace(cfg, avgs, entities, elapsed), Query) == cfg.numberOfMeasurements
  {
    var w, s, p, c, e := WarmUpTrace(cfg), SamplingTrace(cfg.numberOfMeasurements),
      PublishAll(avgs, entities), CoolDownTrace(cfg), [Wait(EndWait(cfg.measureInterval, elapsed))];
    var k := if entities <= |avgs| then entities else |avgs|;
    PublishTraceSpec(avgs, k);
    assert p == PublishTrace(avgs, k);
    SamplingCounts(cfg.numberOfMeasurements);
    CycleTraceParts(cfg, avgs, entities, elapsed);
    forall a | a == WakeUp || a == PowerDown || a == Query
      ensures Count(w, a) == (if cfg.SleepsBetweenCycles() && a == WakeUp then 1 else 0)
      ensures Count(c, a) == (if cfg.SleepsBetweenCycles() && a == PowerDown then 1 else 0)
      ensures Count(e, a) == 0
    {
      CountSingle(e[0], a);
      assert e == [e[0]];
      if cfg.SleepsBetweenCycles() {
        CountAppend([WakeUp], [Wait(cfg.warmupDelay)], a);
        assert w == [WakeUp] + [Wait(cfg.warmupDelay)];
        CountSingle(WakeUp, a);
        CountSingle(Wait(cfg.warmupDelay), a);
        CountSingle(PowerDown, a);
      }
    }
    CountCycle(w, s, p, c, e, WakeUp);
    CountCycle(w, s, p, c, e, PowerDown);
    CountCycle(w, s, p, c, e, Query);
    CountAbsent(p, WakeUp);
    CountAbsent(p, PowerDown);
    CountAbsent(p, Query);
  }

  lemma CountSingle(x: Action, a: Action)
    ensures Count([x], a) == if x == a then 1 else 0
  {
    assert [x][1..] == [];
  }

  lemma CountCycle(w: seq<Action>, s: seq<Action>, p: seq<Action>, c: seq<Action>, e: seq<Action>, a: Action)
    ensures Count(w + s + p + c + e, a) == Count(w, a) + Count(s, a) + Count(p, a) + Count(c, a) + Count(e, a)
  {
    CountAppend(w, s, a);
    CountAppend(w + s, p, a);
    CountAppend(w + s + p, c, a);
    CountAppend(w + s + p + c, e, a);
  }

  /**
   With a warm-up delay, a cycle starts by waking the sensor and waiting out the
   warm-up, before any query, and ends by putting it to sleep after every
   query and every publish, followed only by the end-of-cycle wait.
   */
  lemma PowerCallsWithWarmUp(cfg: Config, avgs: seq<Option<real>>, entities: nat, elapsed: real)
    requires cfg.warmupDelay > 0.0
    ensures Count(CycleTrace(cfg, avgs, entities, elapsed), WakeUp) == 1
    ensures Count(CycleTrace(cfg, avgs, entities, elapsed), PowerDown) == 1
    ensures BracketedByPowerCalls(CycleTrace(cfg, avgs, entities, elapsed), cfg.warmupDelay)
  {
    CyclePowerCounts(cfg, avgs, entities, elapsed);
    CycleTraceParts(cfg, avgs, entities, elapsed);
    var k := if entities <= |avgs| then entities else |avgs|;
    PublishTraceSpec(avgs, k);
    SamplingShape(cfg.numberOfMeasurements);
  }

  /** Every query of a cycle is immediately followed by a one-second wait. */
  lemma QueryThenWait(cfg: Config, avgs: seq<Option<real>>, entities: nat, elapsed: real)
    ensures EachQueryThenWait(CycleTrace(cfg, avgs, entities, elapsed))
  {
    var n := cfg.numberOfMeasurements;
    var w, s := WarmUpTrace(cfg), SamplingTrace(n);
    var k := if entities <= |avgs| then entities else |avgs|;
    var p, c := PublishAll(avgs, entities), CoolDownTrace(cfg);
    var t := CycleTrace(cfg, avgs, entities, elapsed);
    CycleTraceParts(cfg, avgs, entities, elapsed);
    assert t == w + s + (p + c + [Wait(EndWait(cfg.measureInterval, elapsed))]);
    PublishTraceSpec(avgs, k);
    assert p == PublishTrace(avgs, k);
    SamplingShape(n);
    forall j | 0 <= j < |t| && t[j] == Query
      ensures j + 1 < |t| && t[j + 1] == Wait(1.0)
    {
      var m := j - |w|;
      assert 0 <= m < |s|;
      assert t[j] == s[m];
      assert s[2 * (m / 2)] == Query && s[2 * (m / 2) + 1] == Wait(1.0);
    }
  }

  // ---- a run of cycles ----

  /**
   How many cycles `run` performs: none once the finish flag is set; otherwise
   cycles up to and including the one during which the stop was requested.
   */
  function CyclesRun(finished: bool, env: seq<CycleInput>): (c: nat)
    ensures c <= |env|
  {
    if finished || |env| == 0 then 0
    else if env[0].stopRequested then 1
    else 1 + CyclesRun(false, env[1..])
  }

  /** The trace of the cycles `env`, one after the other. */
  function RunTrace(cfg: Config, entities: nat, env: seq<CycleInput>): seq<Action>
  {
    if |env| == 0 then []
    else RunTrace(cfg, entities, env[..|env| - 1])
         + CycleTrace(cfg, Aggregate(env[|env| - 1].replies), entities, env[|env| - 1].elapsed)
  }

  /** The entity states after the cycles `env`. */
  function RunStates(prev: seq<Option<real>>, env: seq<CycleInput>): seq<Option<real>>
  {
    if |env| == 0 then prev
    else PublishedStates(RunStates(prev, env[..|env| - 1]), Aggregate(env[|env| - 1].replies))
  }

  /** One more cycle extends the trace and the states of a run by that cycle's. */
  lemma RunStep(cfg: Config, entities: nat, prev: seq<Option<real>>, env: seq<CycleInput>, i: nat)
    requires i < |env|
    ensures RunTrace(cfg, entities, env[..i + 1])
      == RunTrace(cfg, entities, env[..i]) + CycleTrace(cfg, Aggregate(env[i].replies), entities, env[i].elapsed)
    ensures RunStates(prev, env[..i + 1]) == PublishedStates(RunStates(prev, env[..i]), Aggregate(env[i].replies))
  {
    assert env[..i + 1][..i] == env[..i];
  }

  /** A set finish flag starts no cycle; a stop request lets its own cycle finish and starts no further one. */
  lemma {:induction false} StopEndsRun(finished: bool, env: seq<CycleInput>)
    ensures finished ==> CyclesRun(finished, env) == 0
    ensures !finished ==> forall k :: 0 <= k < CyclesRun(finished, env) - 1 ==> !env[k].stopRequested
    ensures !finished && (exists k :: 0 <= k < |env| && env[k].stopRequested) ==>
      CyclesRun(finished, env) > 0 && env[CyclesRun(finished, env) - 1].stopRequested
    ensures !finished && (forall k :: 0 <= k < |env| ==> !env[k].stopRequested) ==> CyclesRun(finished, env) == |env|
    decreases |env|
  {
    if !finished && |env| > 0 && !env[0].stopRequested {
      StopEndsRun(false, env[1..]);
      assert forall k :: 1 <= k < |env| ==> env[k] == env[1..][k - 1];
      if exists k :: 0 <= k < |env| && env[k].stopRequested {
        var k :| 0 <= k < |env| && env[k].stopRequested;
        assert env[1..][k - 1].stopRequested;
      }
    }
  }

  /**
   Where a loop that tests the flag before each cycle stands after `i` cycles:
   it started with the flag `f0`, and the flag is now `fin`.
   */
  predicate LoopAt(f0: bool, env: seq<CycleInput>, i: nat, fin: bool)
  {
    && i <= |env|
    && (f0 ==> i == 0 && fin)
    && (!f0 ==> forall k :: 0 <= k < i - 1 ==> !env[k].stopRequested)
    && (!f0 ==> (fin <==> i > 0 && env[i - 1].stopRequested))
  }

  /** Running one more cycle, and setting the flag when a stop came during it. */
  lemma LoopStep(f0: bool, env: seq<CycleInput>, i: nat)
    requires LoopAt(f0, env, i, false) && i < |env|
    ensures LoopAt(f0, env, i + 1, env[i].stopRequested)
  {
  }

  /** When the loop ends, it has run `CyclesRun(f0, env)` cycles, and the flag is set exactly when a stop came. */
  lemma LoopExit(f0: bool, env: seq<CycleInput>, i: nat, fin: bool)
    requires LoopAt(f0, env, i, fin) && (fin || i == |env|)
    ensures i == CyclesRun(f0, env)
    ensures fin == (f0 || exists k :: 0 <= k < |env| && env[k].stopRequested)
  {
    StopEndsRun(f0, env);
  }

  /** Cycles run to completion: a run of `c` cycles issues exactly `c` times the configured number of queries. */
  lemma {:induction false} RunQueries(cfg: Config, entities: nat, env: seq<CycleInput>)
    ensures Count(RunTrace(cfg, entities, env), Query) == |env| * cfg.numberOfMeasurements
    decreases |env|
  {
    if |env| > 0 {
      var last := env[|env| - 1];
      RunQueries(cfg, entities, env[..|env| - 1]);
      CountAppend(RunTrace(cfg, entities, env[..|env| - 1]),
                  CycleTrace(cfg, Aggregate(last.replies), entities, last.elapsed), Query);
      CyclePowerCounts(cfg, Aggregate(last.replies), entities, last.elapsed);
      assert (|env| - 1) * cfg.numberOfMeasurements + cfg.numberOfMeasurements == |env| * cfg.numberOfMeasurements;
    }
  }
}
