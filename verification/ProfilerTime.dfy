/** Where the profiler's time comes from: in every run the time of a call path is the sum of the
    intervals between events in which that path was sampled. */
module ProfilerTime {
  import opened Profiler

  /** The call stack after an event. */
  function StackAfter(stack: seq<Frame>, s: Step): seq<Frame> {
    match s.ev
    case Enter => stack + [s.frame]
    case Exit => if stack == [] then [] else stack[..|stack| - 1]
    case _ => stack
  }

  /** The names of the frames that are being timed once the event has been seen: those on the call
      stack, and none during a pause. */
  function SampledAfter(stack: seq<Frame>, s: Step): seq<string> {
    if s.ev == Pause then [] else Names(StackAfter(stack, s))
  }

  /** Is the path being timed while these frames are? */
  predicate Within(key: seq<string>, sampled: seq<string>) {
    key != [] && key <= sampled
  }

  /** The time between events in which the path was being timed. */
  function Spent(key: seq<string>, stack: seq<Frame>, sampled: seq<string>, now: real, steps: seq<Step>): real
    decreases |steps|
  {
    if steps == [] then 0.0
    else
      (if Within(key, sampled) then steps[0].at - now else 0.0)
      + Spent(key, StackAfter(stack, steps[0]), SampledAfter(stack, steps[0]), steps[0].at, steps[1..])
  }

  /** After every event the profiler times these frames. */
  lemma SampledIs(w: World, s: Step)
    requires Inv(w) && Legal(w, s)
    ensures var v := Next(w, s);
            && v.stack == StackAfter(w.stack, s) && Names(Frames(v.items)) == SampledAfter(w.stack, s)
            && Frames(v.items) == if s.ev == Pause then [] else v.stack
  {
    hide Commit, Accounted;
    NextInv(w, s);
  }

  /** What the hook leaves (ProfData.Hook) is a list of items for these frames. */
  lemma HookSamples(ev: Event, stack: seq<Frame>, items: seq<Item>, tm: real)
    requires Expected(ev, stack, items)
    ensures var target := Target(ev, stack);
            var k := Keep(items, target);
            Frames(items[..k] + Start(target[k..], tm))
            == match ev case Enter => stack case Cont => stack case Exit => stack[..|stack| - 1] case Pause => []
  {
    hide Frames, Start;
    Resampled(items, if items == [] then [] else if ev == Enter then stack[..|stack| - 1] else stack,
        Target(ev, stack), tm);
  }

  /** An item that has just been started has no time. */
  lemma EventKeeps(ts: seq<Timing>, items: seq<Item>, k: nat, more: seq<Frame>, tm: real, key: seq<string>)
    requires k <= |items|
    ensures var items' := items[..k] + Start(more, tm);
            TimeOf(Commit(ts, items, k, tm), key) + OpenTime(items', key, tm)
            == TimeOf(ts, key) + OpenTime(items, key, tm)
  {
    hide TimeOf, ChildTime, Commit, Path;
    var items' := items[..k] + Start(more, tm);
    CommitTimeOf(ts, items, k, tm, key);
    if |key| <= k {
      PathKept(items, items', k, |key|);
    } else if |key| <= |items'| {
      assert items'[|key| - 1].startTime == tm;
    }
  }

  lemma OpenIs(items: seq<Item>, key: seq<string>, now: real, tm: real)
    ensures OpenTime(items, key, tm)
            == OpenTime(items, key, now) + if Within(key, Names(Frames(items))) then tm - now else 0.0
  {
    if |key| <= |items| { assert Path(items, |key|) == Names(Frames(items))[..|key|]; }
  }

  lemma StepSpends(w: World, s: Step, key: seq<string>)
    requires Inv(w) && Legal(w, s)
    ensures var v := Next(w, s);
            TimeOf(v.timings, key) + OpenTime(v.items, key, v.now)
            == TimeOf(w.timings, key) + OpenTime(w.items, key, w.now)
               + if Within(key, Names(Frames(w.items))) then s.at - w.now else 0.0
  {
    hide Commit, Accounted, TimeOf, OpenTime, Start;
    var target := Target(s.ev, Seen(w, s));
    var k := Keep(w.items, target);
    EventKeeps(w.timings, w.items, k, target[k..], s.at, key);
    OpenIs(w.items, key, w.now, s.at);
  }

  lemma {:induction false} RunSpends(w: World, steps: seq<Step>, key: seq<string>)
    requires Inv(w) && LegalRun(w, steps)
    ensures var v := Run(w, steps);
            TimeOf(v.timings, key) + OpenTime(v.items, key, v.now)
            == TimeOf(w.timings, key) + OpenTime(w.items, key, w.now)
               + Spent(key, w.stack, Names(Frames(w.items)), w.now, steps)
    decreases |steps|
  {
    hide Next, TimeOf, OpenTime;
    if steps != [] {
      NextInv(w, steps[0]);
      SampledIs(w, steps[0]);
      StepSpends(w, steps[0], key);
      NextNow(w, steps[0]);
      RunSpends(Next(w, steps[0]), steps[1..], key);
    }
  }

  lemma NextNow(w: World, s: Step)
    ensures Next(w, s).now == s.at
  {
    hide Commit;
  }

  /** The time of a path in a run from the start: recorded, plus still running, it is the sum of
      the intervals in which the path was sampled; so it is what has been recorded whenever
      nothing is being timed, and nothing is recorded for a pause. */
  lemma TimeIsSpent(now: real, steps: seq<Step>, key: seq<string>)
    requires LegalRun(World([], [], [], now), steps)
    ensures var v := Run(World([], [], [], now), steps);
            && TimeOf(v.timings, key) + OpenTime(v.items, key, v.now) == Spent(key, [], [], now, steps)
            && (v.items == [] ==> TimeOf(v.timings, key) == Spent(key, [], [], now, steps))
  {
    StartInv(now);
    RunSpends(World([], [], [], now), steps, key);
  }
}
