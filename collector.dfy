/**
 The `Collector` worker of sds011.py. Its `run` loop is modelled sequentially:
 every wait on the finish event and every device call is appended to `trace`,
 the replies of `query()` and the work time of each cycle are inputs, and a
 concurrent `terminate()` is a per-cycle stop request.
 */
module Collectors {
  import opened Wrappers
  import opened Aggregation
  import opened Schedule
  import opened Entities

  lemma AppendCycle(t0: seq<Action>, w: seq<Action>, s: seq<Action>, p: seq<Action>, c: seq<Action>, e: seq<Action>)
    ensures t0 + (w + s + p + c + e) == t0 + w + s + p + c + e
  {
  }

  lemma AppendAssoc(a: seq<Action>, b: seq<Action>, c: seq<Action>)
    ensures a + b + c == a + (b + c)
  {
  }

  class Collector {
    const config: Config
    /** `_sleep`: whether the sensor sleeps between cycles. */
    const sleep: bool
    /** `_entities`: the PM2.5 and PM10 sensors, in that order. */
    const entities: seq<Sensor>
    /** `_finish_event`: set once termination is requested. */
    var finished: bool
    /** Every call made on the device and every wait, in order. */
    var trace: seq<Action>

    predicate Valid()
    {
      && sleep == config.SleepsBetweenCycles()
      && |entities| == 2
      && entities[0].kind == "PM2.5" && entities[1].kind == "PM10"
      && entities[0] != entities[1]
    }

    /** The entities' states, in channel order. */
    function States(): (s: seq<Option<real>>)
      reads entities
      ensures |s| == |entities|
      ensures forall i :: 0 <= i < |entities| ==> s[i] == entities[i].state
    {
      seq(|entities|, i reads entities requires 0 <= i < |entities| => entities[i].state)
    }

    /**
     Lines 58-77: the sensor is opened and put to sleep (or woken) at once,
     and two entities with the configured name are created.
     */
    constructor (name: Option<string>, measureInterval: real, warmupDelay: real, numberOfMeasurements: nat)
      ensures Valid() && !finished
      ensures config == Config(measureInterval, warmupDelay, numberOfMeasurements)
      ensures sleep == (warmupDelay > 0.0)
      ensures trace == [if warmupDelay > 0.0 then PowerDown else WakeUp]
      ensures fresh(entities[0]) && fresh(entities[1])
      ensures entities[0].name == name && entities[1].name == name
      ensures States() == [None, None]
    {
      config := Config(measureInterval, warmupDelay, numberOfMeasurements);
      sleep := warmupDelay > 0.0;
      var pm25 := new Sensor(name, "PM2.5");
      var pm10 := new Sensor(name, "PM10");
      entities := [pm25, pm10];
      finished := false;
      trace := [if warmupDelay > 0.0 then PowerDown else WakeUp];
    }

    /** `get_entities`. */
    function GetEntities(): (r: seq<Sensor>)
      requires Valid()
      ensures |r| == 2 && r[0].kind == "PM2.5" && r[1].kind == "PM10"
    {
      entities
    }

    /** `_wait(t)`: a wait on the finish event, returning early once it is set. */
    method Wait(t: real)
      modifies this`trace
      ensures trace == old(trace) + [Action.Wait(t)]
    {
      trace := trace + [Action.Wait(t)];
    }

    /** `terminate`: sets the finish event; setting it again changes nothing. */
    method Terminate()
      modifies this`finished
      ensures finished
    {
      finished := true;
    }

    /** Lines 101-103: pair entity `i` with average `i` and store the present ones, rounded. */
    method Publish(avgs: seq<Option<real>>)
      requires Valid()
      modifies this`trace, entities
      ensures States() == PublishedStates(old(States()), avgs)
      ensures trace == old(trace) + PublishAll(avgs, |entities|)
    {
      ghost var prev := States();
      var n := if |entities| <= |avgs| then |entities| else |avgs|;
      for i := 0 to n
        invariant forall j :: 0 <= j < |entities| ==>
          entities[j].state == if j < i then PublishedStates(prev, avgs)[j] else prev[j]
        invariant trace == old(trace) + PublishTrace(avgs, i)
      {
        PublishedStatesAt(prev, avgs, i);
        if avgs[i].Some? {
          var v := Round1(avgs[i].value);
          entities[i].SetState(Some(v));
          trace := trace + [Action.Publish(i, v)];
        }
      }
      forall j | n <= j < |entities|
        ensures entities[j].state == PublishedStates(prev, avgs)[j]
      {
        PublishedStatesAt(prev, avgs, j);
      }
    }

    /** Lines 89-92: wake the sensor and wait out the warm-up, when it sleeps between cycles. */
    method WarmUp()
      requires Valid()
      modifies this`trace
      ensures trace == old(trace) + WarmUpTrace(config)
    {
      if sleep {
        trace := trace + [WakeUp];
        Wait(config.warmupDelay);
      }
    }

    /** Lines 105-106: put the sensor back to sleep, when it sleeps between cycles. */
    method CoolDown()
      requires Valid()
      modifies this`trace
      ensures trace == old(trace) + CoolDownTrace(config)
    {
      if sleep {
        trace := trace + [PowerDown];
      }
    }

    /** Lines 94-97: `number_of_measurements` queries, each followed by a one-second wait. */
    method Measure(replies: seq<Sample>) returns (measurements: seq<Sample>)
      requires |replies| == config.numberOfMeasurements
      modifies this`trace
      ensures measurements == replies
      ensures trace == old(trace) + SamplingTrace(config.numberOfMeasurements)
    {
      measurements := [];
      for k := 0 to config.numberOfMeasurements
        invariant measurements == replies[..k]
        invariant trace == old(trace) + SamplingTrace(k)
      {
        trace := trace + [Query];
        measurements := measurements + [replies[k]];
        Wait(1.0);
      }
    }

    /** One iteration of the loop in `run`, lines 88-110. */
    method RunCycle(replies: seq<Sample>, elapsed: real)
      requires Valid()
      requires |replies| == config.numberOfMeasurements
      modifies this`trace, entities
      ensures trace == old(trace) + CycleTrace(config, Aggregate(replies), |entities|, elapsed)
      ensures States() == PublishedStates(old(States()), Aggregate(replies))
    {
      ghost var t0 := trace;
      WarmUp();
      var measurements := Measure(replies);
      var avgs := Aggregate(measurements);
      Publish(avgs);
      CoolDown();
      Wait(EndWait(config.measureInterval, elapsed));
      CycleTraceParts(config, avgs, |entities|, elapsed);
      AppendCycle(t0, WarmUpTrace(config), SamplingTrace(config.numberOfMeasurements),
        PublishAll(avgs, |entities|), CoolDownTrace(config), [Action.Wait(EndWait(config.measureInterval, elapsed))]);
    }

    /** One pass through the loop body; `terminate()` called during it sets the flag. */
    method RunCycleOf(input: CycleInput)
      requires Valid()
      requires |input.replies| == config.numberOfMeasurements
      modifies this`trace, this`finished, entities
      ensures trace == old(trace) + CycleTrace(config, Aggregate(input.replies), |entities|, input.elapsed)
      ensures States() == PublishedStates(old(States()), Aggregate(input.replies))
      ensures finished == (old(finished) || input.stopRequested)
    {
      RunCycle(input.replies, input.elapsed);
      if input.stopRequested {
        Terminate();
      }
    }

    /**
     `run`, over the cycles `env` describes: the finish flag is tested only at the
     head of the loop, so a stop requested during a cycle lets that cycle finish.
     */
    method Run(env: seq<CycleInput>)
      requires Valid()
      requires forall k :: 0 <= k < |env| ==> |env[k].replies| == config.numberOfMeasurements
      modifies this`trace, this`finished, entities
      ensures finished == (old(finished) || exists k :: 0 <= k < |env| && env[k].stopRequested)
      ensures trace == old(trace) + RunTrace(config, |entities|, env[..CyclesRun(old(finished), env)])
      ensures States() == RunStates(old(States()), env[..CyclesRun(old(finished), env)])
    {
      ghost var start, states := trace, States();
      var i := 0;
      while !finished && i < |env|
        invariant LoopAt(old(finished), env, i, finished)
        invariant trace == start + RunTrace(config, |entities|, env[..i])
        invariant States() == RunStates(states, env[..i])
      {
        RunStep(config, |entities|, states, env, i);
        LoopStep(old(finished), env, i);
        AppendAssoc(start, RunTrace(config, |entities|, env[..i]),
          CycleTrace(config, Aggregate(env[i].replies), |entities|, env[i].elapsed));
        RunCycleOf(env[i]);
        i := i + 1;
      }
      LoopExit(old(finished), env, i, finished);
      assert !finished ==> env[..i] == env;
    }
  }
}
