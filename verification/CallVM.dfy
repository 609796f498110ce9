/** The call and return code of the VM, acting in place on the value stack and the frame
    list, proved against the specification in CallMachine.dfy. */
module CallVM {
  import opened CallMachine
  import opened CallProof

  /** Script frames run functions that have instructions. */
  predicate HaveCode(P: Program, fs: seq<Frame>) {
    forall i | 0 <= i < |fs| && !fs[i].native ::
        fs[i].fn < |P.fns| && P.fns[fs[i].fn].Script? && P.fns[fs[i].fn].code != []
  }

  predicate IsFn(P: Program, v: Val) {
    v.Func? && v.f < |P.fns|
  }

  /** The function that a call with this many arguments finds on the stack. */
  function Callee(stk: seq<Val>, args: nat, gotthis: bool): Val
    requires args + (if gotthis then 2 else 1) <= |stk|
  {
    stk[|stk| - args - (if gotthis then 2 else 1)]
  }

  lemma CalleeAt(stk: seq<Val>, args: nat, gotthis: bool)
    requires args + (if gotthis then 2 else 1) <= |stk|
    ensures Callee(stk, args, gotthis) == stk[|stk| - args - (if gotthis then 2 else 1)]
  {
  }

  predicate IsScript(P: Program, v: Val) {
    IsFn(P, v) && P.fns[v.f].Script?
  }

  /** Will vm_call run a native function? */
  predicate GoesNative(P: Program, S: State, args: nat, gotthis: bool)
    requires args + (if gotthis then 2 else 1) <= |S.stk|
  {
    var callee := Callee(S.stk, args, gotthis);
    |S.frames| < MAX_FRAMES && IsFn(P, callee) && P.fns[callee.f].Native? && S.inputs != []
  }

  /** What vm_call leaves: a script function entered, a native one's results in place of the
      function and its arguments, or nothing in their place if it cannot be called. */
  function Called(P: Program, S: State, args: nat, gotthis: bool): State
    requires args + (if gotthis then 2 else 1) <= |S.stk| && S.frames != []
  {
    var callee, below := Callee(S.stk, args, gotthis), |S.stk| - args - (if gotthis then 2 else 1);
    if |S.frames| >= MAX_FRAMES || !IsFn(P, callee) then S.(stk := S.stk[..below])
    else if P.fns[callee.f].Script? then Enter(P, S, callee.f, args, gotthis)
    else if S.inputs == [] then S.(status := Stuck)
    else CallNative(P, S, below, args, S.inputs[0]).(inputs := S.inputs[1..])
  }

  lemma CalledIs(P: Program, S: State, args: nat, gotthis: bool)
    requires args + (if gotthis then 2 else 1) <= |S.stk| && S.frames != []
    ensures var callee, T := Callee(S.stk, args, gotthis), Called(P, S, args, gotthis);
            var below := |S.stk| - args - (if gotthis then 2 else 1);
            && (|S.frames| >= MAX_FRAMES || !IsFn(P, callee) ==> T == S.(stk := S.stk[..below]))
            && (|S.frames| < MAX_FRAMES && IsScript(P, callee) ==> T == Enter(P, S, callee.f, args, gotthis))
            && (GoesNative(P, S, args, gotthis) ==>
               T == CallNative(P, S, below, args, S.inputs[0]).(inputs := S.inputs[1..]))
  {
    hide Enter, CallNative;
  }

  class VM {
    /** The live part of the value stack: stack_base up to stack_top. */
    var stk: seq<Val>
    /** stack_off, from stack_base */
    var off: nat
    var frames: seq<Frame>
    var inputs: seq<NatOutcome>
    var status: Status

    constructor (stk0: seq<Val>, inputs0: seq<NatOutcome>)
      ensures St() == State(stk0, 0, [], inputs0, Running)
    {
      stk, off, frames, inputs, status := stk0, 0, [], inputs0, Running;
    }

    function St(): State
      reads this
    {
      State(stk, off, frames, inputs, status)
    }

    /* ---- the value stack ---- */

    method StkPush(v: Val)
      modifies `stk
      ensures stk == old(stk) + [v]
    {
      stk := stk + [v];
    }

    method StkPushNulls(cnt: nat)
      modifies `stk
      ensures stk == old(stk) + Nulls(cnt)
    {
      var i := 0;
      while i < cnt
        invariant i <= cnt && stk == old(stk) + Nulls(i)
      {
        StkPush(Null);
        i := i + 1;
        assert Nulls(i) == Nulls(i - 1) + [Null];
      }
    }

    /** stk_insert_posn with a null: opens a gap `at` values below the top. */
    method StkInsertNull(at: nat)
      requires at <= |stk|
      modifies `stk
      ensures stk == old(stk[..|stk| - at] + [Null] + stk[|stk| - at..])
    {
      ghost var s := stk;
      var op, p := |stk| - at, |stk|;
      stk := stk + [Null];
      while p != op
        invariant op <= p <= |s| && |stk| == |s| + 1
        invariant forall i | 0 <= i <= |s| :: i < p ==> stk[i] == s[i]
        invariant forall i | 0 <= i <= |s| :: i > p ==> stk[i] == s[i - 1]
        decreases p
      {
        stk := stk[p := stk[p - 1]];
        p := p - 1;
      }
      stk := stk[op := Null];
    }

    /** fstk_clean: removes what lies from `from` to just below `to`. */
    method FstkClean(from: nat, to: nat)
      requires from <= to <= |stk|
      modifies `stk
      ensures stk == old(stk[..from] + stk[to..])
    {
      stk := stk[..from] + stk[to..];
    }

    method FstkPop(num: nat)
      requires num <= |stk|
      modifies `stk
      ensures stk == old(stk[..|stk| - num])
    {
      stk := stk[..|stk| - num];
    }

    /** stk_deltasize */
    method StkDeltasize(diff: int)
      requires -diff <= |stk|
      modifies `stk
      ensures stk == old(if diff < 0 then stk[..|stk| + diff] else stk + Nulls(diff))
    {
      if diff < 0 { FstkPop(-diff); } else { StkPushNulls(diff); }
    }

    /** varr_reverse, in place */
    method VarrReverse(beg: nat, end: nat)
      requires beg <= end <= |stk|
      modifies `stk
      ensures stk == old(stk[..beg] + Reversed(stk[beg..end]) + stk[end..])
    {
      ghost var s := stk;
      var i, j := beg, end - 1;
      while i < j
        invariant beg <= i <= j + 1 && i + j == beg + end - 1 && |stk| == |s|
        invariant forall k | 0 <= k < |s| :: (beg <= k < i || j < k < end) ==> stk[k] == s[beg + end - 1 - k]
        invariant forall k | 0 <= k < |s| :: (k < beg || i <= k <= j || end <= k) ==> stk[k] == s[k]
      {
        Swap(i, j);
        i, j := i + 1, j - 1;
      }
      ReversedPart(s, stk, beg, end);
    }

    method Swap(i: nat, j: nat)
      requires i < j < |stk|
      modifies `stk
      ensures |stk| == |old(stk)| && stk[i] == old(stk[j]) && stk[j] == old(stk[i])
      ensures forall k | 0 <= k < |stk| && k != i && k != j :: stk[k] == old(stk)[k]
    {
      var tmp := stk[i];
      stk := stk[i := stk[j]];
      stk := stk[j := tmp];
    }

    static lemma ReversedPart(s: seq<Val>, t: seq<Val>, beg: nat, end: nat)
      requires beg <= end <= |s| == |t|
      requires forall k | 0 <= k < |s| ::
               (beg <= k < end ==> t[k] == s[beg + end - 1 - k]) && (k < beg || end <= k ==> t[k] == s[k])
      ensures t == s[..beg] + Reversed(s[beg..end]) + s[end..]
    {
      var r := s[..beg] + Reversed(s[beg..end]) + s[end..];
      forall k | 0 <= k < |s| ensures t[k] == r[k] {
        if beg <= k < end {
          assert r[k] == Reversed(s[beg..end])[k - beg] == s[beg..end][end - 1 - k] == s[beg + end - 1 - k];
        }
      }
    }

    /** stk_transpose: of the top `all` values the first `first` go to the top, in order, and
        the others below them, reversed. */
    method StkTranspose(first: nat, all: nat)
      requires first <= all <= |stk|
      modifies `stk
      ensures var n := |old(stk)| - all;
              stk == old(stk[..n]) + Reversed(old(stk[n + first..])) + old(stk[n..n + first])
    {
      ghost var s := stk;
      var n := |stk| - all;
      VarrReverse(n, n + first);
      ghost var head, tail := s[n..n + first], s[n + first..];
      assert stk == s[..n] + Reversed(head) + tail;
      assert stk[..n] == s[..n] && stk[n..|stk|] == Reversed(head) + tail;
      VarrReverse(n, |stk|);
      ReversedConcat(head, tail);
    }

    /** stk_setlvar */
    method StkSetLvar(i: nat, v: Val)
      requires off + i < |stk|
      modifies `stk
      ensures stk == old(stk)[off + i := v]
    {
      stk := stk[off + i := v];
    }

    /** stk_resize_expected: surplus values on top are dropped, missing ones are nulls. */
    method ResizeExpected(want: nat, rvc: nat)
      requires rvc <= |stk|
      modifies `stk
      ensures stk == old(stk)[..|old(stk)| - rvc] + Resize(old(stk)[|old(stk)| - rvc..], want)
    {
      StkDeltasize(want - rvc);
    }

    /** The end of a CALL: results go to registers. */
    method AssignResults(want: nat, from: nat, rvc: nat)
      requires rvc <= |stk| && off + from + want <= |stk| - rvc
      modifies `stk
      ensures St() == Assign(old(St()), want, from, rvc)
    {
      hide Resize, Overwrite;
      ghost var base, res := stk[..|stk| - rvc], Resize(stk[|stk| - rvc..], want);
      ResizeExpected(want, rvc);
      MoveResults(want, from, base, res);
    }

    method MoveResults(want: nat, from: nat, ghost base: seq<Val>, ghost res: seq<Val>)
      requires stk == base + res && |res| == want && off + from + want <= |base|
      modifies `stk
      ensures stk == Overwrite(base, off + from, res)
    {
      var i := want - 1;
      while i >= 0
        invariant -1 <= i < want && |stk| == |base| + want
        invariant forall k | 0 <= k < want :: stk[|base| + k] == res[k]
        invariant forall k | 0 <= k < |base| ::
                  stk[k] == if off + from + i < k < off + from + want then res[k - off - from] else base[k]
      {
        StkSetLvar(from + i, stk[|stk| - want + i]);
        i := i - 1;
      }
      FstkPop(want);
    }

    /* ---- frames ---- */

    /** sgsVM_PushStackFrame */
    method PushStackFrame(F: Frame) returns (allowed: bool)
      modifies `frames
      ensures allowed == (|old(frames)| < MAX_FRAMES)
      ensures frames == if allowed then old(frames) + [F] else old(frames)
    {
      if |frames| >= MAX_FRAMES { return false; }
      frames := frames + [F];
      allowed := true;
    }

    /** vm_frame_pop */
    method FramePop()
      requires frames != []
      modifies `frames
      ensures frames == Front(old(frames))
    {
      frames := frames[..|frames| - 1];
    }

    /** sgs_PauseState, from inside a native function or not. */
    method PauseState() returns (ok: bool)
      modifies `frames
      ensures var fs := old(frames);
              var inside := fs != [] && Last(fs).native;
              var below := if inside then Front(fs) else fs;
              && ok == (below != [] && !Last(fs).paused && forall i | 0 <= i < |below| :: !below[i].native)
              && frames == if ok then PauseFrames(below) + (if inside then [Last(fs)] else []) else fs
    {
      if frames == [] || frames[|frames| - 1].paused { return false; }
      var sf := |frames| - 1;
      if frames[sf].native { sf := sf - 1; }
      if sf < 0 || frames[sf].native { return false; }
      var tsf := sf - 1;
      while tsf >= 0 && !frames[tsf].native
        invariant -1 <= tsf < sf && frames == old(frames)
        invariant forall i | tsf < i <= sf :: !frames[i].native
      {
        tsf := tsf - 1;
      }
      ghost var below := if Last(frames).native then Front(frames) else frames;
      assert |below| == sf + 1 && forall i | 0 <= i <= sf :: below[i] == frames[i];
      if tsf >= 0 {
        assert below[tsf].native;
        return false;
      }
      frames := frames[sf := frames[sf].(paused := true)];
      ok := true;
    }

    /** sgs_Abort */
    method Abort(P: Program) returns (ok: bool)
      requires HaveCode(P, frames)
      modifies `frames
      ensures var fs := old(frames);
              var inside := fs != [] && Last(fs).native;
              var below := if inside then Front(fs) else fs;
              && ok == (below != [] && !Last(below).native)
              && frames == AbortFrames(P, below) + (if inside then [Last(fs)] else [])
    {
      hide AbortFrames, HaveCode;
      var sf := |frames|;
      if sf > 0 && frames[sf - 1].native { sf := sf - 1; }
      ok := sf > 0 && !frames[sf - 1].native;
      HaveCodeUnder(P, frames, sf);
      ghost var fs, inside := frames, frames != [] && Last(frames).native;
      assert fs[..sf] == (if inside then Front(fs) else fs) && fs[sf..] == (if inside then [Last(fs)] else []);
      AbortFrom(P, sf);
    }

    /** Aborts the frames under number `top`, down to the next native one. */
    method AbortFrom(P: Program, top: nat)
      requires top <= |frames| && HaveCode(P, frames[..top])
      modifies `frames
      ensures frames == AbortFrames(P, old(frames)[..top]) + old(frames)[top..]
    {
      hide AbortFrames, HaveCode;
      ghost var below, above := frames[..top], frames[top..];
      var sf := top;
      assert below[..sf] == below;
      while sf > 0 && !frames[sf - 1].native
        invariant sf <= |below| && |frames| == |below| + |above| && frames[..sf] == below[..sf]
        invariant AbortFrames(P, below) + above == AbortFrames(P, below[..sf]) + frames[sf..]
      {
        AbortOne(P, below, sf, frames);
        var F := frames[sf - 1];
        frames := frames[sf - 1 := F.(pc := |P.fns[F.fn].code| - 1, aborted := true)];
        sf := sf - 1;
      }
      AbortEnds(P, below[..sf]);
      assert frames == frames[..sf] + frames[sf..];
    }

    /* ---- calls ---- */

    /** A native function: it pushes values, may pause or abort the state, and returns a count. */
    method RunNative(P: Program) returns (rvc: int)
      requires inputs != [] && frames != [] && Last(frames).native && !Last(frames).paused && Front(frames) != []
      requires HaveCode(P, frames)
      modifies `stk, `inputs, `frames
      ensures var o := old(inputs[0]);
              && rvc == o.rvc && stk == old(stk) + o.pushed && inputs == old(inputs[1..])
              && frames == (match o
                            case Returns(_, _) => Front(old(frames))
                            case Yields(_, _, _) => PauseFrames(Front(old(frames)))
                            case Aborts(_, _) => AbortFrames(P, Front(old(frames)))) + [Last(old(frames))]
    {
      var o := inputs[0];
      inputs := inputs[1..];
      stk := stk + o.pushed;
      rvc := o.rvc;
      match o
      case Returns(_, _) =>
      case Yields(_, _, _) => var _ := PauseState();
      case Aborts(_, _) => var _ := Abort(P);
    }

    /** vm_call's case for C functions, and the frame pop: an impossible count becomes none. */
    method CallCFunc(P: Program, args: nat) returns (rvc: nat)
      requires args <= |stk| && inputs != [] && HaveCode(P, frames)
      requires frames != [] && Last(frames).native && !Last(frames).paused && Front(frames) != []
      modifies `stk, `off, `inputs, `frames
      ensures var o, fs := old(inputs[0]), Front(old(frames));
              && rvc == (if 0 <= o.rvc <= args + |o.pushed| then o.rvc else 0)
              && stk == old(stk) + o.pushed && inputs == old(inputs[1..])
              && frames == (match o
                            case Returns(_, _) => fs
                            case Yields(_, _, _) => PauseFrames(fs)
                            case Aborts(_, _) => AbortFrames(P, fs))
    {
      off := |stk| - args;
      var n := RunNative(P);
      rvc := 0;
      if 0 <= n <= |stk| - off { rvc := n; }
      FramePop();
    }

    /** vm_call from the CALL instruction: on the stack lie the function, `this` if passed, and
        the arguments.  -2 means that the loop has to go on in the new frame. */
    method VmCall(P: Program, args: nat, gotthis: bool) returns (ret: int, rvc: nat)
      requires args + (if gotthis then 2 else 1) <= |stk| && frames != [] && HaveCode(P, frames)
      modifies `stk, `off, `inputs, `frames, `status
      ensures St() == Called(P, old(St()), args, gotthis)
      ensures ret == -2 <==> |old(frames)| < MAX_FRAMES && IsScript(P, Callee(old(stk), args, gotthis))
      ensures rvc == if GoesNative(P, old(St()), args, gotthis) then Rvc(old(inputs[0]), args) else 0
    {
      hide Enter, CallNative, HaveCode, Rvc;
      var pfunc := |stk| - args - (if gotthis then 2 else 1);
      if |frames| < MAX_FRAMES && IsFn(P, stk[pfunc]) && P.fns[stk[pfunc].f].Native? && inputs == [] {
        status := Stuck;
        return 1, 0;
      }
      var stkoff := off;
      ret, rvc := RunCallee(P, args, gotthis);
      if ret != -2 { CleanUp(pfunc, stkoff, rvc); }
    }

    /** The part of vm_call before its clean-up: the frame, the callee, the result count. */
    method RunCallee(P: Program, args: nat, gotthis: bool) returns (ret: int, rvc: nat)
      requires args + (if gotthis then 2 else 1) <= |stk| && frames != [] && HaveCode(P, frames)
      requires var callee := Callee(stk, args, gotthis);
               |frames| < MAX_FRAMES && IsFn(P, callee) && P.fns[callee.f].Native? ==> inputs != []
      modifies `stk, `off, `inputs, `frames
      ensures ret == -2 <==> |old(frames)| < MAX_FRAMES && IsScript(P, Callee(old(stk), args, gotthis))
      ensures rvc == if GoesNative(P, old(St()), args, gotthis) then Rvc(old(inputs[0]), args) else 0
      ensures ret == -2 ==> St() == Called(P, old(St()), args, gotthis)
      ensures ret != -2 ==>
                var pfunc := |old(stk)| - args - (if gotthis then 2 else 1);
                && pfunc <= |stk| - rvc
                && Called(P, old(St()), args, gotthis)
                   == State(stk[..pfunc] + stk[|stk| - rvc..], old(off), frames, inputs, status)
    {
      hide Enter, CallNative, HaveCode, Rvc, Called, Callee;
      CalledIs(P, St(), args, gotthis);
      var g := if gotthis then 1 else 0;
      var pfunc := |stk| - args - g - 1;
      var callee := stk[pfunc];
      CalleeAt(stk, args, gotthis);
      rvc, ret := 0, 1;
      var script := IsScript(P, callee);
      ghost var fs := frames;
      var fn := if script then callee.f else 0;
      var allowed := PushStackFrame(Frame(fn, !script, 0, |stk| - args - g, off, script, false, false));
      if allowed {
        assert Front(frames) == fs && Last(frames).native == !script;
        if script {
          ScriptCase(P, callee.f, args, gotthis);
          return -2, 0;
        } else if IsFn(P, callee) {
          HaveCodePush(P, fs, Last(frames));
          rvc := NativeCase(P, args, pfunc);
          return;
        } else {
          FramePop();
          ret := 0;
        }
      }
    }

    method CleanUp(from: nat, stkoff: nat, rvc: nat)
      requires from + rvc <= |stk|
      modifies `stk, `off
      ensures St() == old(St()).(stk := old(stk[..from] + stk[|stk| - rvc..]), off := stkoff)
      ensures rvc == 0 ==> stk == old(stk[..from])
    {
      FstkClean(from, |stk| - rvc);
      off := stkoff;
    }

    /** The script case: the frame has been pushed. */
    method ScriptCase(P: Program, fn: nat, args: nat, gotthis: bool)
      requires fn < |P.fns| && P.fns[fn].Script? && args + (if gotthis then 2 else 1) <= |stk|
      requires frames != []
      requires var argbeg := |stk| - args - (if gotthis then 1 else 0);
               Last(frames) == Frame(fn, false, 0, argbeg, off, true, false, false)
      modifies `stk, `off
      ensures St() == Enter(P, old(St()).(frames := Front(frames)), fn, args, gotthis)
    {
      hide Enter, UnderWindow, StartWindow;
      EnterIs(P, St().(frames := Front(frames)), fn, args, gotthis);
      assert Front(frames) + [Last(frames)] == frames;
      Arrange(P.fns[fn], args, gotthis);
    }

    /** The native case as the caller sees it: what the clean-up will leave. */
    method NativeCase(P: Program, args: nat, pf: nat) returns (rvc: nat)
      requires pf + args <= |stk| && inputs != [] && HaveCode(P, frames)
      requires frames != [] && Last(frames).native && !Last(frames).paused && Front(frames) != []
      modifies `stk, `off, `inputs, `frames
      ensures pf <= |stk| - rvc && rvc == Rvc(old(inputs[0]), args)
      ensures var S := old(St()).(frames := Front(old(frames)));
              CallNative(P, S, pf, args, old(inputs[0])).(inputs := old(inputs[1..]))
              == State(stk[..pf] + stk[|stk| - rvc..], old(off), frames, inputs, status)
    {
      hide CallNative, PauseFrames, AbortFrames, AllScript;
      ghost var S := St().(frames := Front(frames));
      NativeLeft(P, S, pf, args, inputs[0]);
      NativeFrames(P, S, pf, args, inputs[0]);
      rvc := CallCFunc(P, args);
    }

    /** If `this` is wanted but was not passed, a null takes its place. */
    method EnsureThis(f: Fn, args: nat, gotthis: bool) returns (method': bool)
      requires f.Script? && args + (if gotthis then 1 else 0) <= |stk|
      modifies `stk
      ensures var argbeg := |old(stk)| - args - (if gotthis then 1 else 0);
              var self, a := (if gotthis then old(stk)[argbeg] else Null), old(stk)[|old(stk)| - args..];
              var hidden, shown := (if gotthis && !f.gotthis then [self] else []), (if f.gotthis then [self] else []);
              && stk == old(stk)[..argbeg] + (hidden + (shown + a)) && method' == (gotthis || f.gotthis)
    {
      method' := gotthis;
      if f.gotthis && !gotthis {
        StkInsertNull(args);
        method' := true;
      }
    }

    /** The argument stack of a script function: null for a `this` that is wanted and missing,
        surplus arguments moved away, nulls for what is missing and for temporaries. */
    method Arrange(f: Fn, args: nat, gotthis: bool)
      requires f.Script? && args + (if gotthis then 1 else 0) <= |stk|
      modifies `stk, `off
      ensures var argbeg := |old(stk)| - args - (if gotthis then 1 else 0);
              var self, a := (if gotthis then old(stk)[argbeg] else Null), old(stk)[|old(stk)| - args..];
              && stk == old(stk)[..argbeg] + UnderWindow(f, gotthis, self, a) + StartWindow(f, self, a)
              && off == argbeg + |UnderWindow(f, gotthis, self, a)|
    {
      hide UnderWindow, StartWindow, Reversed;
      ghost var argbeg := |stk| - args - (if gotthis then 1 else 0);
      ghost var self, a, base := (if gotthis then stk[argbeg] else Null), stk[|stk| - args..], stk[..argbeg];
      ghost var hidden, shown := (if gotthis && !f.gotthis then [self] else []), (if f.gotthis then [self] else []);
      Windows(f, gotthis, self, a);
      var method' := EnsureThis(f, args, gotthis);
      ArrangeArgs(f, args, method', base, hidden, shown, a);
    }

    method ArrangeArgs(f: Fn, args: nat, method': bool, ghost base: seq<Val>, ghost hidden: seq<Val>,
                       ghost shown: seq<Val>, ghost a: seq<Val>)
      requires f.Script? && |a| == args && stk == base + (hidden + (shown + a))
      requires |shown| == (if f.gotthis then 1 else 0) && |hidden| + |shown| == (if method' then 1 else 0)
      modifies `stk, `off
      ensures args > f.numargs ==>
              stk == base + (Reversed(a[f.numargs..]) + hidden) + (shown + a[..f.numargs] + Nulls(f.numtmp))
      ensures args <= f.numargs ==> stk == base + ([] + hidden) + (shown + a + Nulls(f.numargs - args + f.numtmp))
      ensures off == |base| + |hidden| + (if args > f.numargs then args - f.numargs else 0)
    {
      hide Reversed;
      var want, g := if f.gotthis then 1 else 0, if method' then 1 else 0;
      off := |stk| - args - want;
      var expargs, stkargs := f.numargs + want, args + want;
      if stkargs > expargs {
        var first, all := f.numargs + g, args + g;
        off := off + all - first;
        MoveSurplus(first, all, f.numtmp, base, hidden, shown, a, f.numargs);
      } else {
        StkPushNulls(f.numtmp + expargs - stkargs);
        NoSurplus(base, hidden, shown, a, Nulls(f.numargs - args + f.numtmp));
      }
    }

    method MoveSurplus(first: nat, all: nat, numtmp: nat, ghost base: seq<Val>, ghost hidden: seq<Val>,
                       ghost shown: seq<Val>, ghost a: seq<Val>, ghost n: nat)
      requires stk == base + (hidden + (shown + a)) && n <= |a|
      requires first == |hidden| + |shown| + n && all == |hidden| + |shown| + |a|
      modifies `stk
      ensures stk == base + (Reversed(a[n..]) + hidden) + (shown + a[..n] + Nulls(numtmp))
    {
      hide Reversed;
      ghost var t := stk;
      assert |t| - all == |base|;
      StkTranspose(first, all);
      ghost var u := stk;
      StkPushNulls(numtmp);
      Surplus(base, hidden, shown, a, n, t, u, Nulls(numtmp));
    }

    /* ---- the loop ---- */

    /** vm_postcall */
    method VmPostCall(P: Program, rvc: nat)
      requires GoodProgram(P) && rvc <= |stk| && GoodFrames(P, frames, off, |stk| - rvc) && Last(frames).reenter
      modifies `stk, `off, `frames
      ensures St() == PostCall(P, old(St()), rvc)
    {
      hide GoodProgram, GoodFrames, Assign, Waits;
      Caller(P, frames, off, |stk| - rvc);
      TopLies(P, frames, off, |stk| - rvc);
      ghost var S := St();
      var sf := frames[|frames| - 1];
      FramePop();
      CleanUp(sf.argbeg - 1, sf.stkoff, rvc);
      assert St() == Leave(S, rvc);
      var G := frames[|frames| - 1];
      var code := P.fns[G.fn].code;
      if code[G.pc] == RetN(0) {
        FstkPop(rvc);
      } else {
        var I := code[G.pc - 1];
        AssignResults(I.want, I.from, rvc);
      }
    }

    /** RET1 in a re-entrant frame. */
    method Ret1Fast(P: Program, v: Val)
      requires GoodProgram(P) && GoodFrames(P, frames, off, |stk|) && Last(frames).reenter && !Last(frames).aborted
      modifies `stk, `off, `frames
      ensures St() == FastReturn(P, old(St()), v)
    {
      hide GoodProgram, GoodFrames, GoodFrame, GoodOp, Waits, Overwrite, Nulls;
      Caller(P, frames, off, |stk|);
      TopLies(P, frames, off, |stk|);
      ghost var s := stk;
      var SF, psf := frames[|frames| - 1], frames[|frames| - 2];
      var PCI := P.fns[psf.fn].code[psf.pc - 1];
      off := SF.stkoff;
      SpreadResult(PCI.from, PCI.want, v);
      FramePop();
      OverwritePrefix(s, SF.argbeg - 1, off + PCI.from, OneResult(v, PCI.want));
      FstkPop(|stk| - SF.argbeg + 1);
    }

    /** The value goes to the first of the expected registers, null to the others. */
    method SpreadResult(from: nat, want: nat, v: Val)
      requires off + from + want <= |stk|
      modifies `stk
      ensures stk == Overwrite(old(stk), off + from, OneResult(v, want))
    {
      ghost var s, vals := stk, OneResult(v, want);
      if want > 0 {
        StkSetLvar(from, v);
        var i := 1;
        while i < want
          invariant 1 <= i <= want && |stk| == |s|
          invariant forall k | 0 <= k < |s| ::
                    stk[k] == if off + from <= k < off + from + i then vals[k - off - from] else s[k]
        {
          StkSetLvar(from + i, Null);
          i := i + 1;
        }
      }
    }

    /** Copies the function, `this` and the arguments from their registers to the top. */
    method CopyToTop(from: nat, last: nat)
      requires from <= last && off + last < |stk|
      modifies `stk
      ensures stk == old(stk) + old(stk)[off + from..off + last + 1]
      ensures stk[..|old(stk)|] == old(stk)
    {
      ghost var s := stk;
      var i := from;
      while i <= last
        invariant from <= i <= last + 1 && stk == s + s[off + from..off + i]
      {
        StkPush(stk[off + i]);
        i := i + 1;
        assert s[off + from..off + i] == s[off + from..off + i - 1] + [s[off + i - 1]];
      }
    }

    /** The CALL instruction; the instruction pointer is past it. */
    method DoCallInstr(P: Program, I: Op)
      requires I.Call? && GoodProgram(P) && frames != [] && !Last(frames).paused && HaveCode(P, frames)
               && off + I.last < |stk| && status == Running
      requires I.from + (if I.gotthis then 1 else 0) <= I.last && off + I.from + I.want <= |stk|
      modifies `stk, `off, `inputs, `frames, `status
      ensures St() == DoCall(P, old(St()), I)
    {
      hide GoodProgram, Assign, HaveCode, Rvc, DoCall, Called;
      DoCallIs(P, St(), I);
      CopyToTop(I.from, I.last);
      var args := I.last - I.from - (if I.gotthis then 1 else 0);
      var ret, rvc := VmCall(P, args, I.gotthis);
      if ret == -2 || status == Stuck { return; }
      if frames[|frames| - 1].paused {
        status := Paused(rvc);
      } else {
        AssignResults(I.want, I.from, rvc);
      }
    }

    function Window(P: Program): seq<Val>
      requires GoodFrames(P, frames, off, |stk|)
      reads this
    {
      stk[off..off + Width(TopFn(P, St()))]
    }

    function GetOperand(o: Operand): Val
      reads this
    {
      Get(St(), o)
    }

    method SetPcTo(pc: nat)
      requires frames != []
      modifies `frames
      ensures frames == SetPc(old(frames), pc)
    {
      frames := frames[..|frames| - 1] + [frames[|frames| - 1].(pc := pc)];
    }

    /** One instruction: the body of the loop in vm_exec. */
    method ExecInstr(P: Program)
      requires GoodProgram(P) && GoodFrames(P, frames, off, |stk|) && HaveCode(P, frames) && status == Running
      modifies this
      ensures St() == Step(P, old(St()))
      ensures HaveCode(P, frames)
    {
      hide GoodProgram, PostCall, FastReturn, DoCall, Waits, GoodFrame, HaveCode;
      TopGood(P, St());
      TopFits(P, St());
      var F := frames[|frames| - 1];
      var f := P.fns[F.fn];
      var I := f.code[F.pc];
      CodeStays(P, St());
      if I != RetN(0) { HasNext(P, St()); }
      match I
      case Write(a, id) =>
        stk := stk[off + a := P.write(id, Window(P))];
        SetPcTo(F.pc + 1);
      case Branch(id, to) =>
        var pc := if P.test(id, Window(P)) then to else F.pc + 1;
        SetPcTo(pc);
      case Push(src) =>
        StkPush(GetOperand(src));
        SetPcTo(F.pc + 1);
      case Ret1(src) =>
        if F.reenter {
          Ret1Fast(P, GetOperand(src));
        } else {
          StkPush(GetOperand(src));
          SetPcTo(F.pc + 1);
          status := Returned(1);
        }
      case RetN(k) =>
        if off + Width(f) + k > |stk| {
          status := Stuck;
        } else if F.reenter {
          GoodShrink(P, frames, off, |stk|, |stk| - k);
          VmPostCall(P, k);
        } else {
          SetPcTo(F.pc + 1);
          status := Returned(k);
        }
      case Call(_, _, _, _) =>
        HaveCodePc(P, frames, F.pc + 1);
        SetPcTo(F.pc + 1);
        DoCallInstr(P, I);
    }

    /** vm_exec, for at most `fuel` instructions. */
    method VmExec(P: Program, fuel: nat)
      requires GoodProgram(P) && GoodFrames(P, frames, off, |stk|) && HaveCode(P, frames) && status == Running
      modifies this
      ensures St() == Steps(P, old(St()), fuel)
    {
      hide Step, GoodProgram, GoodFrames, HaveCode;
      ghost var S := St();
      var n := 0;
      while n < fuel && status == Running
        invariant n <= fuel && St() == Steps(P, S, n)
        invariant status == Running ==> Valid(P, St()) && HaveCode(P, frames)
      {
        StepValid(P, St());
        StepsAdd(P, S, n, 1);
        StepsOne(P, St());
        ExecInstr(P);
        n := n + 1;
      }
      StepsAdd(P, S, n, fuel - n);
      if status != Running { StepsStay(P, St(), fuel - n); }
    }

    /** sgs_ResumeStateRet, up to where it enters the loop again. */
    method ResumeState(P: Program, args: nat) returns (ok: bool)
      requires frames != [] ==> Last(frames).fn < |P.fns| && P.fns[Last(frames).fn].Script?
                                && 1 <= Last(frames).pc <= |P.fns[Last(frames).fn].code| && CallOf(P, St()).Call?
                                && args <= |stk| && off + CallOf(P, St()).from + CallOf(P, St()).want <= |stk| - args
      modifies `stk, `frames, `status
      ensures ok == (old(frames) != [] && Last(old(frames)).paused)
      ensures St() == if ok then Resume(P, old(St()), args) else old(St())
    {
      if frames == [] || !frames[|frames| - 1].paused { return false; }
      ok := true;
      if frames[0].aborted {
        while frames != []
          invariant unchanged(`stk, `status)
          decreases |frames|
        {
          FramePop();
        }
        status := Returned(0);
        return;
      }
      var F := frames[|frames| - 1];
      var I := P.fns[F.fn].code[F.pc - 1];
      AssignResults(I.want, I.from, args);
      frames := frames[..|frames| - 1] + [F.(paused := false)];
      status := Running;
    }
  }

  lemma Windows(f: Fn, gotthis: bool, self: Val, a: seq<Val>)
    requires f.Script?
    ensures var hidden, shown := (if gotthis && !f.gotthis then [self] else []), (if f.gotthis then [self] else []);
            && (|a| > f.numargs ==> UnderWindow(f, gotthis, self, a) == Reversed(a[f.numargs..]) + hidden
                                    && StartWindow(f, self, a) == shown + a[..f.numargs] + Nulls(f.numtmp))
            && (|a| <= f.numargs ==> UnderWindow(f, gotthis, self, a) == [] + hidden
                                     && StartWindow(f, self, a) == shown + a + Nulls(f.numargs - |a| + f.numtmp))
  {
    if |a| <= f.numargs {
      assert a[..|a|] == a && a[|a|..] == [] && Reversed(a[|a|..]) == [];
    }
  }

  /** After the transposition: surplus arguments, hidden `this`, window. */
  lemma Surplus(base: seq<Val>, hidden: seq<Val>, shown: seq<Val>, a: seq<Val>, n: nat, t: seq<Val>, u: seq<Val>,
                nulls: seq<Val>)
    requires t == base + (hidden + (shown + a)) && n <= |a|
    requires var first := |hidden| + |shown| + n;
             u == t[..|base|] + Reversed(t[|base| + first..]) + t[|base|..|base| + first]
    ensures u + nulls == base + (Reversed(a[n..]) + hidden) + (shown + a[..n] + nulls)
  {
    hide Reversed;
    var first := |hidden| + |shown| + n;
    assert t[..|base|] == base && t[|base|..|base| + first] == hidden + (shown + a[..n])
           && t[|base| + first..] == a[n..];
  }

  lemma NoSurplus(base: seq<Val>, hidden: seq<Val>, shown: seq<Val>, a: seq<Val>, nulls: seq<Val>)
    ensures base + (hidden + (shown + a)) + nulls == base + ([] + hidden) + (shown + a + nulls)
  {
  }

  lemma HaveCodePc(P: Program, fs: seq<Frame>, pc: nat)
    requires fs != [] && HaveCode(P, fs)
    ensures HaveCode(P, SetPc(fs, pc))
  {
    assert forall i | 0 <= i < |fs| - 1 :: SetPc(fs, pc)[i] == fs[i];
  }

  /** Frames only come and go as calls do, so they always have code. */
  lemma CodeStays(P: Program, S: State)
    requires Valid(P, S) && S.status == Running && HaveCode(P, S.frames)
    ensures HaveCode(P, Step(P, S).frames)
  {
    hide GoodProgram, Step, GoodFrames, GoodFrame, Give;
    TopFits(P, S);
    var T := Step(P, S);
    if AtReturn(P, S) {
      if Last(S.frames).reenter {
        var h, L, U := ReturnStep(P, S);
      } else {
        HaveCodePc(P, S.frames, Last(S.frames).pc + 1);
        BaseStep(P, S);
      }
    } else {
      StepKept(P, S);
      forall i | 0 <= i < |S.frames| ensures SameBut(S.frames[i], T.frames[i]) {
        if i < |S.frames| - 1 { assert Kept(S.frames[i], T.frames[i]); }
      }
      StepValid(P, S);
      if |T.frames| > |S.frames| { PushedCode(P, S); }
    }
  }

  lemma BaseStep(P: Program, S: State)
    requires Valid(P, S) && S.status == Running && AtReturn(P, S) && !Last(S.frames).reenter
    ensures Step(P, S).frames == SetPc(S.frames, Last(S.frames).pc + 1)
  {
  }

  lemma PushedCode(P: Program, S: State)
    requires Valid(P, S) && S.status == Running && !AtReturn(P, S) && |Step(P, S).frames| > |S.frames|
    ensures var F := Last(Step(P, S).frames); F.fn < |P.fns| && P.fns[F.fn].Script? && P.fns[F.fn].code != []
  {
    hide GoodFrames, GoodFrame, Step;
    CallOnly(P, S);
    StepValid(P, S);
    PushedRuns(P, S);
    TopGood(P, Step(P, S));
    TopFits(P, Step(P, S));
  }

  lemma PushedRuns(P: Program, S: State)
    requires Valid(P, S) && S.status == Running && !AtReturn(P, S) && |Step(P, S).frames| > |S.frames|
    ensures Step(P, S).status == Running
  {
    CallOnly(P, S);
  }

  lemma {:induction false} StepsStay(P: Program, S: State, n: nat)
    requires S.status != Running
    ensures Steps(P, S, n) == S
    decreases n
  {
    if n > 0 { StepsStay(P, S, n - 1); }
  }

  lemma HaveCodePush(P: Program, fs: seq<Frame>, F: Frame)
    requires HaveCode(P, fs) && F.native
    ensures HaveCode(P, fs + [F])
  {
  }

  function OneResult(v: Val, want: nat): (r: seq<Val>)
    ensures |r| == want
  {
    if want == 0 then [] else [v] + Nulls(want - 1)
  }

  lemma OverwritePrefix(s: seq<Val>, n: nat, at: nat, vals: seq<Val>)
    requires at + |vals| <= n <= |s|
    ensures Overwrite(s, at, vals)[..n] == Overwrite(s[..n], at, vals)
  {
  }

  lemma NativeFits(P: Program, S: State, pf: nat, args: nat, o: NatOutcome)
    requires pf + args <= |S.stk| && S.frames != []
    ensures var T := CallNative(P, S, pf, args, o);
            T.frames != [] && |T.stk| == pf + Rvc(o, args) && T.off == S.off && T.status == S.status
  {
  }

  /** The CALL instruction in terms of vm_call. */
  lemma DoCallIs(P: Program, S: State, I: Op)
    requires I.Call? && GoodProgram(P) && S.frames != [] && !Last(S.frames).paused && S.off + I.last < |S.stk|
             && S.status == Running
    requires I.from + (if I.gotthis then 1 else 0) <= I.last && S.off + I.from + I.want <= |S.stk|
    ensures var args := I.last - I.from - (if I.gotthis then 1 else 0);
            var T := S.(stk := S.stk + S.stk[S.off + I.from..S.off + I.last + 1]);
            var C := Called(P, T, args, I.gotthis);
            var rvc := if GoesNative(P, T, args, I.gotthis) then Rvc(S.inputs[0], args) else 0;
            var entered := |S.frames| < MAX_FRAMES && IsScript(P, Callee(T.stk, args, I.gotthis));
            if entered || C.status == Stuck then DoCall(P, S, I) == C
            else
              && C.frames != [] && C.off + I.from + I.want <= |C.stk| - rvc
              && DoCall(P, S, I) == if Last(C.frames).paused then C.(status := Paused(rvc))
                 else Assign(C, I.want, I.from, rvc)
  {
    hide GoodProgram, Assign, Enter, CallNative, Rvc;
    var args := I.last - I.from - (if I.gotthis then 1 else 0);
    var T := S.(stk := S.stk + S.stk[S.off + I.from..S.off + I.last + 1]);
    assert T.stk[..|S.stk|] == S.stk && S.(stk := S.stk) == S;
    if S.inputs != [] { NativeFits(P, T, |S.stk|, args, S.inputs[0]); }
  }

  lemma EnterIs(P: Program, S: State, fn: nat, args: nat, gotthis: bool)
    requires fn < |P.fns| && P.fns[fn].Script? && args + (if gotthis then 2 else 1) <= |S.stk|
    ensures var f, argbeg := P.fns[fn], |S.stk| - args - (if gotthis then 1 else 0);
            var a, self := S.stk[|S.stk| - args..], (if gotthis then S.stk[argbeg] else Null);
            Enter(P, S, fn, args, gotthis) ==
            S.(stk := S.stk[..argbeg] + UnderWindow(f, gotthis, self, a) + StartWindow(f, self, a),
               off := argbeg + |UnderWindow(f, gotthis, self, a)|,
               frames := S.frames + [Frame(fn, false, 0, argbeg, S.off, true, false, false)])
  {
    hide UnderWindow, StartWindow;
  }

  lemma NativeFrames(P: Program, S: State, pf: nat, args: nat, o: NatOutcome)
    requires pf + args <= |S.stk| && S.frames != []
    ensures var T := CallNative(P, S, pf, args, o);
            && T.frames == (match o
                            case Returns(_, _) => S.frames
                            case Yields(_, _, _) => PauseFrames(S.frames)
                            case Aborts(_, _) => AbortFrames(P, S.frames))
            && T.off == S.off && T.status == S.status && T.inputs == S.inputs
  {
  }

  /** What vm_call's clean-up keeps after a native function. */
  lemma NativeLeft(P: Program, S: State, pf: nat, args: nat, o: NatOutcome)
    requires pf + args <= |S.stk| && S.frames != []
    ensures var rvc, s := Rvc(o, args), S.stk + o.pushed;
            rvc <= |s| && CallNative(P, S, pf, args, o).stk == S.stk[..pf] + s[|s| - rvc..] && s[..pf] == S.stk[..pf]
  {
    var rvc, s, all := Rvc(o, args), S.stk + o.pushed, S.stk[|S.stk| - args..] + o.pushed;
    assert s[|s| - rvc..] == all[|all| - rvc..];
  }

  lemma AbortOne(P: Program, below: seq<Frame>, sf: nat, fs: seq<Frame>)
    requires 0 < sf <= |below| && sf <= |fs| && fs[..sf] == below[..sf] && !fs[sf - 1].native && HaveCode(P, below)
    ensures fs[sf - 1] == below[sf - 1] && fs[sf - 1].fn < |P.fns| && P.fns[fs[sf - 1].fn].Script?
            && P.fns[fs[sf - 1].fn].code != []
    ensures var F := fs[sf - 1];
            var gs := fs[sf - 1 := F.(pc := |P.fns[F.fn].code| - 1, aborted := true)];
            && gs[..sf - 1] == below[..sf - 1]
            && AbortFrames(P, below[..sf]) + fs[sf..] == AbortFrames(P, below[..sf - 1]) + gs[sf - 1..]
  {
    assert fs[..sf][sf - 1] == below[..sf][sf - 1];
    assert Front(below[..sf]) == below[..sf - 1];
    var F := fs[sf - 1];
    var gs := fs[sf - 1 := F.(pc := |P.fns[F.fn].code| - 1, aborted := true)];
    assert gs[sf - 1..] == [gs[sf - 1]] + fs[sf..];
    assert gs[..sf - 1] == fs[..sf][..sf - 1];
  }

  /** Nothing is aborted under a native frame. */
  lemma AbortEnds(P: Program, fs: seq<Frame>)
    requires fs == [] || Last(fs).native
    ensures AbortFrames(P, fs) == fs
  {
  }

  lemma HaveCodeUnder(P: Program, fs: seq<Frame>, n: nat)
    requires HaveCode(P, fs) && n <= |fs|
    ensures HaveCode(P, fs[..n])
  {
  }

  lemma ReversedConcat(head: seq<Val>, tail: seq<Val>)
    ensures Reversed(Reversed(head) + tail) == Reversed(tail) + head
  {
  }
}
