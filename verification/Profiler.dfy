/** The call-path profiler: which frames are being timed after every event of the VM, and
    where the time goes.  Times are real numbers; rounding is not modelled. */
module Profiler {

  /** A stack frame and the name of its function. */
  datatype Frame = Frame(id: int, name: string)

  /** mode1item */
  datatype Item = Item(frame: Frame, startTime: real)

  /** An entry of the timing table: a call path and the time spent in it. */
  datatype Timing = Timing(key: seq<string>, time: real)

  datatype Event = Enter | Exit | Pause | Cont

  function Frames(items: seq<Item>): (r: seq<Frame>)
    ensures |r| == |items| && forall i | 0 <= i < |items| :: r[i] == items[i].frame
  {
    seq(|items|, i requires 0 <= i < |items| => items[i].frame)
  }

  function Names(fs: seq<Frame>): (r: seq<string>)
    ensures |r| == |fs| && forall i | 0 <= i < |fs| :: r[i] == fs[i].name
  {
    seq(|fs|, i requires 0 <= i < |fs| => fs[i].name)
  }

  predicate Distinct(fs: seq<Frame>) {
    forall i, j | 0 <= i < j < |fs| :: fs[i] != fs[j]
  }

  function Start(fs: seq<Frame>, tm: real): (r: seq<Item>)
    ensures |r| == |fs| && forall i | 0 <= i < |fs| :: r[i] == Item(fs[i], tm)
  {
    seq(|fs|, i requires 0 <= i < |fs| => Item(fs[i], tm))
  }

  /** The frames that are to be timed after an event; `stack` is the call stack that it sees. */
  function Target(ev: Event, stack: seq<Frame>): seq<Frame> {
    match ev
    case Enter => stack
    case Cont => stack
    case Exit => if stack == [] then [] else stack[..|stack| - 1]
    case Pause => []
  }

  /** What the event can find: nothing is being timed, or the stack as it was before. */
  predicate Expected(ev: Event, stack: seq<Frame>, items: seq<Item>) {
    && stack != [] && Distinct(stack)
    && (items == [] || Frames(items) == if ev == Enter then stack[..|stack| - 1] else stack)
  }

  /* ---- the timing table ---- */

  /** Adds to the entry of a key, or appends one. */
  function AddTime(ts: seq<Timing>, key: seq<string>, dt: real): seq<Timing> {
    if ts == [] then [Timing(key, dt)]
    else if ts[0].key == key then [Timing(key, ts[0].time + dt)] + ts[1..]
    else [ts[0]] + AddTime(ts[1..], key, dt)
  }

  lemma {:induction false} AddTimeAt(ts: seq<Timing>, i: nat, key: seq<string>, dt: real)
    requires i < |ts| && ts[i].key == key && forall j | 0 <= j < i :: ts[j].key != key
    ensures AddTime(ts, key, dt) == ts[i := Timing(key, ts[i].time + dt)]
    decreases i
  {
    if i > 0 { AddTimeAt(ts[1..], i - 1, key, dt); }
  }

  lemma {:induction false} AddTimeNew(ts: seq<Timing>, key: seq<string>, dt: real)
    requires forall j | 0 <= j < |ts| :: ts[j].key != key
    ensures AddTime(ts, key, dt) == ts + [Timing(key, dt)]
    decreases ts
  {
    if ts != [] { AddTimeNew(ts[1..], key, dt); }
  }

  /** Commits the times of the items from number `i` on, outermost first. */
  function Commit(ts: seq<Timing>, items: seq<Item>, i: nat, tm: real): seq<Timing>
    decreases |items| - i
  {
    if i >= |items| then ts
    else Commit(AddTime(ts, Names(Frames(items[..i + 1])), tm - items[i].startTime), items, i + 1, tm)
  }

  /** How many items stay. */
  function Keep(items: seq<Item>, target: seq<Frame>): nat {
    if |target| < |items| then |target| else |items|
  }

  /* ---- the hook ---- */

  class ProfData {
    var items: seq<Item>
    var timings: seq<Timing>

    constructor ()
      ensures items == [] && timings == []
    {
      items, timings := [], [];
    }

    /** sgs_vht_get_str and what follows it: looks the key up, adds to it or appends it. */
    method CommitTime(key: seq<string>, dt: real)
      modifies `timings
      ensures timings == AddTime(old(timings), key, dt)
    {
      hide AddTime;
      var i := 0;
      while i < |timings|
        invariant i <= |timings| && timings == old(timings)
        invariant forall j | 0 <= j < i :: timings[j].key != key
      {
        if timings[i].key == key {
          AddTimeAt(timings, i, key, dt);
          timings := timings[i := Timing(key, timings[i].time + dt)];
          return;
        }
        i := i + 1;
      }
      AddTimeNew(timings, key, dt);
      timings := timings + [Timing(key, dt)];
    }

    /** The position of a frame in a list, or the length. */
    static method Search(fs: seq<Frame>, f: Frame) returns (i: nat)
      ensures i <= |fs| && (i < |fs| ==> fs[i] == f) && forall j | 0 <= j < i :: fs[j] != f
    {
      i := 0;
      while i < |fs|
        invariant i <= |fs| && forall j | 0 <= j < i :: fs[j] != f
      {
        if fs[i] == f { return; }
        i := i + 1;
      }
    }

    /** mode1hook */
    method Hook(ev: Event, stack: seq<Frame>, tm: real)
      requires Expected(ev, stack, items)
      modifies this
      ensures var target := Target(ev, stack);
              var k := Keep(old(items), target);
              && items == old(items)[..k] + Start(target[k..], tm)
              && timings == Commit(old(timings), old(items), k, tm)
    {
      hide Commit, Start, Names;
      ghost var path := Target(ev, stack);
      ghost var was, k := items, Keep(items, path);
      var n := |stack|;
      // Frames are named by their position in the stack; -1 is no frame.
      var target := if ev == Enter || ev == Cont then n - 1 else if ev == Exit then n - 2 else -1;
      assert |path| == target + 1 && path == stack[..target + 1];
      assert forall i | 0 <= i < |items| :: items[i].frame == stack[i];
      var itemcount := |items|;
      if itemcount > 0 && target >= 0 && items[itemcount - 1].frame == stack[target] {
        Same(stack, items, target);
        NothingMore(timings, items, path, tm);
        return;
      }
      var i, lastrec := FindCut(stack, target);
      assert i == k;
      CommitNone(timings, items, |items|, tm);
      if i < itemcount {
        Remove(i, stack, tm);
        itemcount := i;
      }
      assert items == was[..k];
      if lastrec >= 0 || (target >= 0 && itemcount == 0) {
        AddFrames(stack, if lastrec >= 0 then lastrec + 1 else 0, target, tm);
      }
      assert target >= 0 && k <= target ==> path[k..] == stack[k..target + 1];
      if k == |path| { NothingMore(timings, items, path, tm); }
    }

    /** Looks for the target among the items; if it is not there, for the last item in the
        stack.  From which item on to remove, and the last recorded frame. */
    method FindCut(stack: seq<Frame>, target: int) returns (i: nat, lastrec: int)
      requires Distinct(stack) && |items| <= |stack| && forall j | 0 <= j < |items| :: items[j].frame == stack[j]
      requires var m, n := |items|, |stack|;
               -1 <= target < n && (m == 0 || (m == n - 1 && target == n - 1)
                   || (m == n && (target == n - 2 || target == -1)))
      ensures i == if target + 1 < |items| then target + 1 else |items|
      ensures lastrec == if |items| > 0 && (target == |stack| - 1 || target == -1) then |items| - 1 else -1
    {
      var itemcount := |items|;
      i := itemcount;
      if target >= 0 { i := Search(Frames(items), stack[target]); }
      lastrec := -1;
      if i == itemcount {
        if itemcount > 0 {
          lastrec := Search(stack, items[itemcount - 1].frame);
          assert stack[itemcount - 1] == items[itemcount - 1].frame;
        }
        if lastrec < 0 || target < 0 { i := 0; }
      } else {
        i := i + 1;
      }
    }

    /** Starts timing the frames from number `first` up to the target, or all if it is not met. */
    method AddFrames(stack: seq<Frame>, first: nat, target: int, tm: real)
      requires first <= |stack| && target < |stack| && if target >= 0 then first <= target else first == |stack|
      modifies `items
      ensures items == old(items) + Start(stack[first..if target >= 0 then target + 1 else first], tm)
    {
      var sf := first;
      while sf < |stack|
        invariant first <= sf <= |stack| && (target >= 0 ==> sf <= target)
        invariant items == old(items) + Start(stack[first..sf], tm)
      {
        assert stack[first..sf + 1] == stack[first..sf] + [stack[sf]];
        StartMore(stack[first..sf], stack[sf], tm);
        items := items + [Item(stack[sf], tm)];
        if sf == target { break; }
        sf := sf + 1;
      }
    }

    /** Removes the items from number `i` on and commits their times. */
    method Remove(i: nat, stack: seq<Frame>, tm: real)
      requires i < |items| <= |stack| && Distinct(stack) && forall j | 0 <= j < |items| :: items[j].frame == stack[j]
      modifies this
      ensures items == old(items)[..i] && timings == Commit(old(timings), old(items), i, tm)
    {
      hide Names, Frames, Commit, AddTime;
      var key: seq<string>, sf := [], 0;
      while stack[sf] != items[i].frame
        invariant sf <= i && key == Names(stack[..sf]) && items == old(items) && timings == old(timings)
        decreases i - sf
      {
        NamesMore(stack, sf);
        key := key + [stack[sf].name];
        sf := sf + 1;
      }
      assert sf == i;
      var j := i;
      while j < |items|
        invariant i <= j <= |items| && items == old(items) && key == Names(stack[..j])
        invariant Commit(timings, items, j, tm) == Commit(old(timings), items, i, tm)
      {
        NamesMore(stack, j);
        ItemFrames(items, stack, j + 1);
        CommitFirst(timings, items, j, tm);
        key := key + [items[j].frame.name];
        CommitTime(key, tm - items[j].startTime);
        j := j + 1;
      }
      CommitNone(timings, items, j, tm);
      items := items[..i];
    }
  }

  lemma NamesMore(stack: seq<Frame>, n: nat)
    requires n < |stack|
    ensures Names(stack[..n + 1]) == Names(stack[..n]) + [stack[n].name]
  {
  }

  lemma ItemFrames(items: seq<Item>, stack: seq<Frame>, n: nat)
    requires n <= |items| <= |stack| && forall i | 0 <= i < |items| :: items[i].frame == stack[i]
    ensures Frames(items[..n]) == stack[..n]
  {
  }

  lemma CommitFirst(ts: seq<Timing>, items: seq<Item>, j: nat, tm: real)
    requires j < |items|
    ensures Commit(ts, items, j, tm)
            == Commit(AddTime(ts, Names(Frames(items[..j + 1])), tm - items[j].startTime), items, j + 1, tm)
  {
  }

  lemma Same(stack: seq<Frame>, items: seq<Item>, target: int)
    requires Distinct(stack) && 0 < |items| <= |stack| && 0 <= target < |stack|
             && items[|items| - 1].frame == stack[target]
    requires forall i | 0 <= i < |items| :: items[i].frame == stack[i]
    ensures target == |items| - 1
  {
  }

  lemma CommitNone(ts: seq<Timing>, items: seq<Item>, i: nat, tm: real)
    requires i >= |items|
    ensures Commit(ts, items, i, tm) == ts
  {
  }

  lemma NothingMore(ts: seq<Timing>, items: seq<Item>, path: seq<Frame>, tm: real)
    requires |path| == |items|
    ensures items[..|items|] + Start(path[|items|..], tm) == items && items + Start(path[|items|..], tm) == items
    ensures Commit(ts, items, |items|, tm) == ts
    ensures forall a: nat | a <= |path| :: Start(path[a..a], tm) == []
  {
  }

  lemma StartMore(fs: seq<Frame>, f: Frame, tm: real)
    ensures Start(fs + [f], tm) == Start(fs, tm) + [Item(f, tm)]
  {
  }

  /* ---- whole runs ---- */

  /** The call stack, what the profiler holds, and the time of the last event. */
  datatype World = World(stack: seq<Frame>, items: seq<Item>, timings: seq<Timing>, now: real)

  /** An event, the frame it enters if it does, and when it happens. */
  datatype Step = Step(ev: Event, frame: Frame, at: real)

  /** The stack that the hook sees: an entered frame is on it already, a left one still. */
  function Seen(w: World, s: Step): seq<Frame> {
    if s.ev == Enter then w.stack + [s.frame] else w.stack
  }

  /** The clock does not run backwards; what is left, paused or continued exists. */
  predicate Legal(w: World, s: Step) {
    s.at >= w.now && if s.ev == Enter then s.frame !in w.stack else w.stack != []
  }

  function Next(w: World, s: Step): World {
    var seen := Seen(w, s);
    var target := Target(s.ev, seen);
    var k := Keep(w.items, target);
    World(if s.ev == Exit then target
        else seen, w.items[..k] + Start(target[k..], s.at), Commit(w.timings, w.items, k, s.at), s.at)
  }

  function Run(w: World, steps: seq<Step>): World
    decreases |steps|
  {
    if steps == [] then w else Run(Next(w, steps[0]), steps[1..])
  }

  predicate LegalRun(w: World, steps: seq<Step>)
    decreases |steps|
  {
    steps != [] ==> Legal(w, steps[0]) && LegalRun(Next(w, steps[0]), steps[1..])
  }

  /* ---- where the time went ---- */

  /** The time recorded for a call path. */
  function TimeOf(ts: seq<Timing>, key: seq<string>): real {
    if ts == [] then 0.0 else (if ts[0].key == key then ts[0].time else 0.0) + TimeOf(ts[1..], key)
  }

  predicate IsChild(c: seq<string>, key: seq<string>) {
    |c| == |key| + 1 && c[..|key|] == key
  }

  /** The time recorded for all paths with one more call. */
  function ChildTime(ts: seq<Timing>, key: seq<string>): real {
    if ts == [] then 0.0 else (if IsChild(ts[0].key, key) then ts[0].time else 0.0) + ChildTime(ts[1..], key)
  }

  function Path(items: seq<Item>, n: nat): seq<string>
    requires n <= |items|
  {
    Names(Frames(items[..n]))
  }

  /** The time that is running for a path, or for one of its children, but not recorded yet. */
  function OpenTime(items: seq<Item>, key: seq<string>, now: real): real {
    if 0 < |key| <= |items| && Path(items, |key|) == key then now - items[|key| - 1].startTime else 0.0
  }

  function OpenChild(items: seq<Item>, key: seq<string>, now: real): real {
    if |key| < |items| && Path(items, |key|) == key then now - items[|key|].startTime else 0.0
  }

  ghost predicate Accounted(ts: seq<Timing>, items: seq<Item>, now: real) {
    forall key: seq<string> | key != [] ::
        TimeOf(ts, key) + OpenTime(items, key, now) >= ChildTime(ts, key) + OpenChild(items, key, now)
  }

  ghost predicate Inv(w: World) {
    && Distinct(w.stack) && (w.items == [] || Frames(w.items) == w.stack) && Accounted(w.timings, w.items, w.now)
  }

  lemma {:induction false} AddTimeOf(ts: seq<Timing>, key: seq<string>, dt: real, k: seq<string>)
    ensures TimeOf(AddTime(ts, key, dt), k) == TimeOf(ts, k) + if k == key then dt else 0.0
    ensures ChildTime(AddTime(ts, key, dt), k) == ChildTime(ts, k) + if IsChild(key, k) then dt else 0.0
    decreases |ts|
  {
    if ts != [] {
      var r := AddTime(ts, key, dt);
      if ts[0].key != key {
        AddTimeOf(ts[1..], key, dt, k);
        assert r[1..] == AddTime(ts[1..], key, dt);
      } else {
        assert r[1..] == ts[1..];
      }
    }
  }

  lemma PathChild(items: seq<Item>, j: nat, k: seq<string>)
    requires j < |items|
    ensures |Path(items, j + 1)| == j + 1 && (IsChild(Path(items, j + 1), k) <==> |k| == j && Path(items, j) == k)
  {
    assert Path(items, j + 1)[..j] == Path(items, j);
  }

  /** Committing turns running time into recorded time, path by path. */
  lemma {:induction false} CommitTimeOf(ts: seq<Timing>, items: seq<Item>, i: nat, tm: real, k: seq<string>)
    ensures var r := Commit(ts, items, i, tm);
            && TimeOf(r, k) == TimeOf(ts, k) + (if i < |k| then OpenTime(items, k, tm) else 0.0)
            && ChildTime(r, k) == ChildTime(ts, k) + (if i <= |k| then OpenChild(items, k, tm) else 0.0)
    decreases |items| - i
  {
    if i < |items| {
      var key, dt := Path(items, i + 1), tm - items[i].startTime;
      AddTimeOf(ts, key, dt, k);
      PathChild(items, i, k);
      CommitTimeOf(AddTime(ts, key, dt), items, i + 1, tm, k);
    }
  }

  /** Time passes: whatever runs in a child runs in its path. */
  lemma TimePasses(ts: seq<Timing>, items: seq<Item>, now: real, tm: real)
    requires Accounted(ts, items, now) && tm >= now
    ensures Accounted(ts, items, tm)
  {
    forall key: seq<string> | key != []
        ensures TimeOf(ts, key) + OpenTime(items, key, tm) >= ChildTime(ts, key) + OpenChild(items, key, tm) {
      assert TimeOf(ts, key) + OpenTime(items, key, now) >= ChildTime(ts, key) + OpenChild(items, key, now);
    }
  }

  /** An event only moves running time to the table. */
  lemma EventAccounted(ts: seq<Timing>, items: seq<Item>, k: nat, more: seq<Frame>, tm: real)
    requires Accounted(ts, items, tm) && k <= |items|
    ensures Accounted(Commit(ts, items, k, tm), items[..k] + Start(more, tm), tm)
  {
    hide TimeOf, ChildTime, Commit, Path, Start;
    var items' := items[..k] + Start(more, tm);
    forall key: seq<string> | key != []
      ensures TimeOf(Commit(ts, items, k, tm), key)
              + OpenTime(items', key, tm) >= ChildTime(Commit(ts, items, k, tm), key) + OpenChild(items', key, tm)
    {
      CommitTimeOf(ts, items, k, tm, key);
      if |key| <= k { PathKept(items, items', k, |key|); }
    }
  }

  lemma PathKept(items: seq<Item>, items': seq<Item>, k: nat, n: nat)
    requires n <= k <= |items| && k <= |items'| && items'[..k] == items[..k]
    ensures Path(items', n) == Path(items, n)
  {
    assert items'[..n] == items'[..k][..n] == items[..n];
  }

  /** After an event exactly the path from the first frame to the event's target is timed, and
      the invariant still holds. */
  lemma NextInv(w: World, s: Step)
    requires Inv(w) && Legal(w, s)
    ensures Expected(s.ev, Seen(w, s), w.items) && Inv(Next(w, s))
            && Frames(Next(w, s).items) == Target(s.ev, Seen(w, s))
  {
    hide Accounted, Commit, Frames, Start;
    var seen := Seen(w, s);
    var target := Target(s.ev, seen);
    var k := Keep(w.items, target);
    SeenDistinct(w, s);
    TimePasses(w.timings, w.items, w.now, s.at);
    EventAccounted(w.timings, w.items, k, target[k..], s.at);
    Resampled(w.items, if w.items == [] then [] else w.stack, target, s.at);
  }

  lemma SeenDistinct(w: World, s: Step)
    requires Distinct(w.stack) && Legal(w, s)
    ensures var seen := Seen(w, s);
            && seen != [] && Distinct(seen) && Distinct(Target(s.ev, seen))
               && (s.ev == Enter ==> seen[..|seen| - 1] == w.stack)
            && (forall i | 0 <= i < |w.stack| && i < |Target(s.ev, seen)| :: Target(s.ev, seen)[i] == w.stack[i])
  {
  }

  lemma Resampled(items: seq<Item>, was: seq<Frame>, target: seq<Frame>, tm: real)
    requires Frames(items) == was && forall i | 0 <= i < |was| && i < |target| :: target[i] == was[i]
    ensures var k := Keep(items, target); Frames(items[..k] + Start(target[k..], tm)) == target
  {
    assert forall i | 0 <= i < |items| :: items[i].frame == was[i];
  }

  /** Profiler accounting.  In every run with a clock that does not run backwards the sampled
      frames are, after each event, the path from the first frame to the current one; and
      whenever nothing is being timed, the time of every call path is at least the sum of the
      times of the paths one call longer. */
  lemma {:induction false} ProfilerAccounts(w: World, steps: seq<Step>)
    requires Inv(w) && LegalRun(w, steps)
    ensures var v := Run(w, steps);
            && Inv(v)
            && (v.items == [] ==> forall key: seq<string> | key != [] ::
               TimeOf(v.timings, key) >= ChildTime(v.timings, key))
    decreases |steps|
  {
    hide Next;
    if steps == [] {
      if w.items == [] {
        forall key: seq<string> | key != [] ensures TimeOf(w.timings, key) >= ChildTime(w.timings, key) {
          assert TimeOf(w.timings, key) + OpenTime(w.items, key, w.now) >= ChildTime(w.timings, key)
                 + OpenChild(w.items, key, w.now);
        }
      }
    } else {
      NextInv(w, steps[0]);
      ProfilerAccounts(Next(w, steps[0]), steps[1..]);
    }
  }

  lemma StartInv(now: real)
    ensures Inv(World([], [], [], now))
  {
  }

  /** So it is for every run of a profiler that has just been started. */
  lemma AccountsFromStart(now: real, steps: seq<Step>)
    requires LegalRun(World([], [], [], now), steps)
    ensures var v := Run(World([], [], [], now), steps);
            && Inv(v)
            && (v.items == [] ==> forall key: seq<string> | key != [] ::
               TimeOf(v.timings, key) >= ChildTime(v.timings, key))
  {
    StartInv(now);
    ProfilerAccounts(World([], [], [], now), steps);
  }
}
