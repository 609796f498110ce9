/** What a CALL does, position by position on the value stack: which results a native function
    leaves, where a script function finds its arguments, when a call is refused, and when a
    pause is. */
module CallFacts {
  import opened CallMachine
  import opened CallProof

  /** The limit on open calls. */
  const FRAME_LIMIT: int := 200

  /** The running frame's next instruction is this CALL; `g` counts its `this`. */
  ghost predicate AtCall(P: Program, S: State, I: Op) {
    Valid(P, S) && S.status == Running && I.Call? && TopFn(P, S).code[Last(S.frames).pc] == I
  }

  /** The registers from `this` or the first argument on, up to the last argument. */
  function Passing(S: State, I: Op): seq<Val>
    requires I.Call? && I.from + (if I.gotthis then 1 else 0) <= I.last && S.off + I.last < |S.stk|
  {
    S.stk[S.off + I.from + (if I.gotthis then 2 else 1)..S.off + I.last + 1]
  }

  /** What registers `from..from + want` hold after a call that left `res`, and that nothing else on
      the stack has changed. */
  ghost predicate Received(S: State, T: State, I: Op, res: seq<Val>)
    requires I.Call?
  {
    && |T.stk| == |S.stk| && T.off == S.off
    && forall i | 0 <= i < |S.stk| ::
         var k := i - S.off - I.from;
         T.stk[i] == if 0 <= k < I.want then (if k < |res| then res[k] else Null) else S.stk[i]
  }

  /** The running frame has gone on to the next instruction and all others stayed. */
  predicate MovedOn(S: State, T: State)
    requires S.frames != []
  {
    && |T.frames| == |S.frames| && T.frames[..|S.frames| - 1] == S.frames[..|S.frames| - 1]
    && T.frames[|S.frames| - 1] == S.frames[|S.frames| - 1].(pc := S.frames[|S.frames| - 1].pc + 1)
  }

  lemma CallBounds(P: Program, S: State, I: Op)
    requires AtCall(P, S, I)
    ensures I.from + (if I.gotthis then 1 else 0) <= I.last && S.off + I.last < |S.stk|
            && S.off + I.from + I.want <= |S.stk|
  {
    hide GoodFrames;
    TopGood(P, S);
    TopFits(P, S);
    assert GoodFn(TopFn(P, S));
    assert GoodOp(I, Width(TopFn(P, S)), |TopFn(P, S).code|);
  }

  /** Of what a native function finds and pushes, its last `n` values stay if it returns `n`, and
      none if it returns a number that is negative or larger than there are. */
  function Left(vs: seq<Val>, n: int): seq<Val> {
    if 0 <= n <= |vs| then vs[|vs| - n..] else []
  }

  lemma NativeLeaves(P: Program, S: State, below: nat, args: nat, o: NatOutcome)
    requires below + args <= |S.stk| && S.frames != []
    ensures CallNative(P, S, below, args, o).stk
            == S.stk[..below] + Left(S.stk[|S.stk| - args..] + o.pushed, o.rvc)
  {
  }

  /** A native function's frame is below the limit, it is a function, and it will return. */
  ghost predicate NativeReady(P: Program, S: State, I: Op) {
    && AtCall(P, S, I) && |S.frames| < FRAME_LIMIT && S.inputs != []
    && S.off + I.from < |S.stk| && S.stk[S.off + I.from].Func?
    && S.stk[S.off + I.from].f < |P.fns| && P.fns[S.stk[S.off + I.from].f].Native?
  }

  /** A native call that does not pause: the registers that the CALL names hold the last values
      of its arguments and what it pushed, in order and with nulls behind them. */
  lemma NativeCall(P: Program, S: State, I: Op)
    requires NativeReady(P, S, I) && (S.inputs[0].Yields? ==> exists i :: 0 <= i < |S.frames| && S.frames[i].native)
    requires !S.inputs[0].Aborts?
    ensures I.from + (if I.gotthis then 1 else 0) <= I.last && S.off + I.last < |S.stk|
    ensures var T, o := Step(P, S), S.inputs[0];
            && T.status == Running && T.inputs == S.inputs[1..] && MovedOn(S, T)
            && Received(S, T, I, Left(Passing(S, I) + o.pushed, o.rvc))
  {
    hide GoodProgram, GoodFrames, Step, Assign, Overwrite, Resize, CallNative, Rvc, Received, Left;
    CallBounds(P, S, I);
    var J, args, T, U := NativeStep(P, S);
    NativeValid(P, T, |S.stk|, args, S.inputs[0]);
    NativeLeaves(P, T, |S.stk|, args, S.inputs[0]);
    NotPaused(P, S, T, args, U);
    assert T.stk[|T.stk| - args..] == Passing(S, I);
    var res := Left(Passing(S, I) + S.inputs[0].pushed, S.inputs[0].rvc);
    assert T.stk[..|S.stk|] == S.stk;
    assert U.stk == S.stk + res;
    AssignIs(S, U, I, res);
  }

  lemma NotPaused(P: Program, S: State, T: State, args: nat, U: State)
    requires Valid(P, S) && S.inputs != [] && !S.inputs[0].Aborts?
    requires S.inputs[0].Yields? ==> exists i :: 0 <= i < |S.frames| && S.frames[i].native
    requires T.frames == SetPc(S.frames, Last(S.frames).pc + 1) && |S.stk| + args <= |T.stk|
    requires U == CallNative(P, T, |S.stk|, args, S.inputs[0]).(inputs := S.inputs[1..])
    ensures U.frames == T.frames && !Last(U.frames).paused && MovedOn(S, U) && U.status == T.status
  {
    hide GoodProgram, GoodFrame, Waits;
    TopFits(P, S);
    assert forall i | 0 <= i < |S.frames| :: T.frames[i].native == S.frames[i].native;
  }

  lemma AssignIs(S: State, U: State, I: Op, res: seq<Val>)
    requires I.Call? && U.stk == S.stk + res && U.off == S.off && S.off + I.from + I.want <= |S.stk|
    ensures var T := Assign(U, I.want, I.from, |res|);
            Received(S, T, I, res) && T.frames == U.frames && T.status == U.status && T.inputs == U.inputs
  {
    assert U.stk[..|S.stk|] == S.stk && U.stk[|S.stk|..] == res;
  }

  /** A native call that pauses: its results are left on top for whoever runs the state, and
      nothing below has changed. */
  lemma NativePauses(P: Program, S: State, I: Op)
    requires NativeReady(P, S, I) && S.inputs[0].Yields? && forall i | 0 <= i < |S.frames| :: !S.frames[i].native
    ensures I.from + (if I.gotthis then 1 else 0) <= I.last && S.off + I.last < |S.stk|
    ensures var T, o := Step(P, S), S.inputs[0];
            var res := Left(Passing(S, I) + o.pushed, o.rvc);
            && T.status == Paused(|res|) && T.inputs == S.inputs[1..] && T.stk == S.stk + res && T.off == S.off
            && |T.frames| == |S.frames| && T.frames[..|S.frames| - 1] == S.frames[..|S.frames| - 1]
            && T.frames[|S.frames| - 1]
               == S.frames[|S.frames| - 1].(pc := S.frames[|S.frames| - 1].pc + 1, paused := true)
  {
    hide GoodProgram, GoodFrames, Step, Assign, CallNative, Rvc, Left;
    CallBounds(P, S, I);
    var J, args, T, U := NativeStep(P, S);
    NativeValid(P, T, |S.stk|, args, S.inputs[0]);
    NativeLeaves(P, T, |S.stk|, args, S.inputs[0]);
    PausedNow(P, S, T, args, U);
    assert T.stk[|T.stk| - args..] == Passing(S, I);
    assert T.stk[..|S.stk|] == S.stk;
  }

  lemma PausedNow(P: Program, S: State, T: State, args: nat, U: State)
    requires Valid(P, S) && S.inputs != [] && S.inputs[0].Yields? && forall i | 0 <= i < |S.frames| ::
             !S.frames[i].native
    requires T.frames == SetPc(S.frames, Last(S.frames).pc + 1) && |S.stk| + args <= |T.stk|
    requires U == CallNative(P, T, |S.stk|, args, S.inputs[0]).(inputs := S.inputs[1..])
    ensures |U.frames| == |S.frames| && U.frames[..|S.frames| - 1] == S.frames[..|S.frames| - 1]
    ensures Last(U.frames) == Last(S.frames).(pc := Last(S.frames).pc + 1, paused := true)
  {
    hide GoodProgram, GoodFrame, Waits;
    assert forall i | 0 <= i < |S.frames| :: T.frames[i].native == S.frames[i].native;
  }

  /** A call that is refused, for the limit or because there is no function: all registers that
      the CALL names are null, and no native function has been asked. */
  lemma RefusedCall(P: Program, S: State, I: Op)
    requires AtCall(P, S, I) && S.off + I.from < |S.stk|
    requires |S.frames| >= FRAME_LIMIT || !S.stk[S.off + I.from].Func? || S.stk[S.off + I.from].f >= |P.fns|
    ensures var T := Step(P, S);
            T.status == Running && T.inputs == S.inputs && MovedOn(S, T) && Received(S, T, I, [])
  {
    hide GoodProgram, GoodFrames, Assign, Enter, CallNative, Rvc, GoodFrame;
    CallBounds(P, S, I);
    TopFits(P, S);
    HasNext(P, S);
    var U := S.(frames := SetPc(S.frames, Last(S.frames).pc + 1));
    assert S.stk + [] == S.stk;
    AssignIs(S, U, I, []);
  }

  /** What a call of a script function lays on the stack above the function: the arguments that
      were not declared, the last one first, and a `this` that is not wanted; then the window,
      which is `this` if it is wanted, the declared arguments, and nulls. */
  function Laid(f: Fn, gotthis: bool, self: Val, a: seq<Val>): seq<Val>
    requires f.Script?
  {
    seq(if |a| > f.numargs then |a| - f.numargs else 0, j requires 0 <= j < |a| => a[|a| - 1 - j])
    + (if f.gotthis then [if gotthis then self else Null] else if gotthis then [self] else [])
    + seq(f.numargs + f.numtmp, j requires 0 <= j => if j < f.numargs && j < |a| then a[j] else Null)
  }

  lemma ScriptCall(P: Program, S: State, I: Op)
    requires AtCall(P, S, I) && |S.frames| < FRAME_LIMIT && S.off + I.from < |S.stk|
    requires S.stk[S.off + I.from].Func? && S.stk[S.off + I.from].f < |P.fns|
             && P.fns[S.stk[S.off + I.from].f].Script?
    ensures I.from + (if I.gotthis then 1 else 0) <= I.last && S.off + I.last < |S.stk|
    ensures var T, a, f := Step(P, S), Passing(S, I), P.fns[S.stk[S.off + I.from].f];
            && T.status == Running && T.inputs == S.inputs
            && T.stk == S.stk + [S.stk[S.off + I.from]]
                        + Laid(f, I.gotthis, if I.gotthis then S.stk[S.off + I.from + 1] else Null, a)
            && T.off == |T.stk| - f.numargs - f.numtmp - if f.gotthis then 1 else 0
    ensures var T := Step(P, S);
            && |T.frames| == |S.frames| + 1 && MovedOn(S, T.(frames := Front(T.frames)))
            && Last(T.frames).fn == S.stk[S.off + I.from].f && Last(T.frames).pc == 0 && Last(T.frames).stkoff == S.off
            && Last(T.frames).reenter && !Last(T.frames).native && !Last(T.frames).paused && !Last(T.frames).aborted
  {
    hide GoodProgram, GoodFrames, Step, GoodFrame, Laid, Waits, Enter, Width;
    var U := Entering(P, S, I);
    var args, fn := I.last - I.from - (if I.gotthis then 1 else 0), S.stk[S.off + I.from].f;
    EnterLaid(P, U, fn, args, I.gotthis);
    assert U.stk[|U.stk| - args..] == Passing(S, I);
    assert U.stk[..|S.stk| + 1] == S.stk + [S.stk[S.off + I.from]];
  }

  /** The step is the entry, once the registers have been copied to the top. */
  lemma Entering(P: Program, S: State, I: Op) returns (U: State)
    requires AtCall(P, S, I) && |S.frames| < FRAME_LIMIT && S.off + I.from < |S.stk|
    requires S.stk[S.off + I.from].Func? && S.stk[S.off + I.from].f < |P.fns|
             && P.fns[S.stk[S.off + I.from].f].Script?
    ensures I.from + (if I.gotthis then 1 else 0) <= I.last && S.off + I.last < |S.stk| && S.frames != []
    ensures U == S.(stk := S.stk + S.stk[S.off + I.from..S.off + I.last + 1], frames := U.frames) && MovedOn(S, U)
    ensures Step(P, S) == Enter(P, U, S.stk[S.off + I.from].f, I.last - I.from - (if I.gotthis then 1
            else 0), I.gotthis)
  {
    hide GoodProgram, GoodFrames, Assign, CallNative, GoodFrame, Enter, Waits;
    CallBounds(P, S, I);
    TopFits(P, S);
    HasNext(P, S);
    U := S.(stk := S.stk + S.stk[S.off + I.from..S.off + I.last + 1],
      frames := SetPc(S.frames, Last(S.frames).pc + 1));
    assert U.stk[|S.stk|] == S.stk[S.off + I.from];
  }

  lemma EnterLaid(P: Program, U: State, fn: nat, args: nat, gotthis: bool)
    requires fn < |P.fns| && P.fns[fn].Script? && args + (if gotthis then 2 else 1) <= |U.stk|
    ensures var f, T, base := P.fns[fn], Enter(P, U, fn, args, gotthis), |U.stk| - args - (if gotthis then 1 else 0);
            && T.stk == U.stk[..base] + Laid(f, gotthis, if gotthis then U.stk[base] else Null, U.stk[|U.stk| - args..])
            && T.off == |T.stk| - f.numargs - f.numtmp - (if f.gotthis then 1 else 0)
            && T.status == U.status && T.inputs == U.inputs
            && T.frames == U.frames + [Frame(fn, false, 0, base, U.off, true, false, false)]
  {
    hide StartWindow, UnderWindow, Laid;
    LaidIs(P.fns[fn], gotthis, if gotthis then U.stk[|U.stk| - args - 1] else Null, U.stk[|U.stk| - args..]);
  }

  lemma LaidIs(f: Fn, gotthis: bool, self: Val, a: seq<Val>)
    requires f.Script? && (!gotthis ==> self == Null)
    ensures UnderWindow(f, gotthis, self, a) + StartWindow(f, self, a) == Laid(f, gotthis, self, a)
  {
    hide Reversed, Nulls, Min;
    SurplusIs(a, f.numargs);
    DeclaredIs(a, f.numargs, f.numtmp);
  }

  lemma SurplusIs(a: seq<Val>, n: nat)
    ensures Min(|a|, n) <= |a| && Reversed(a[Min(|a|, n)..])
            == seq(if |a| > n then |a| - n else 0, j requires 0 <= j < |a| => a[|a| - 1 - j])
  {
  }

  lemma DeclaredIs(a: seq<Val>, n: nat, tmp: nat)
    ensures Min(|a|, n) <= |a| && Min(|a|, n) <= n && a[..Min(|a|, n)] + Nulls(n - Min(|a|, n) + tmp)
            == seq(n + tmp, j requires 0 <= j => if j < n && j < |a| then a[j] else Null)
  {
  }

  /** No run opens more calls than the limit allows. */
  lemma {:induction false} FramesBounded(P: Program, S: State, n: nat)
    requires |S.frames| <= FRAME_LIMIT
    ensures |Steps(P, S, n).frames| <= FRAME_LIMIT
    decreases n
  {
    hide Step;
    if n > 0 {
      OneMore(P, S);
      FramesBounded(P, Step(P, S), n - 1);
    }
  }

  lemma OneMore(P: Program, S: State)
    requires |S.frames| <= FRAME_LIMIT
    ensures |Step(P, S).frames| <= FRAME_LIMIT
  {
    hide GoodProgram, GoodFrames, Waits;
    if Valid(P, S) && S.status == Running {
      TopFits(P, S);
      var I := TopFn(P, S).code[Last(S.frames).pc];
      if I.Call? {
        if |S.frames| == FRAME_LIMIT && S.off + I.from < |S.stk| { RefusedCall(P, S, I); }
        CallBounds(P, S, I);
        if |S.frames| < FRAME_LIMIT { StepKept(P, S); }
      }
    }
  }

  /* ---- the other instructions ---- */

  /** One register changes, the run branches or goes on, or a value is pushed. */
  lemma SimpleStep(P: Program, S: State)
    requires Valid(P, S) && S.status == Running
    ensures var F, w := Last(S.frames), Window(P, S);
            match TopFn(P, S).code[F.pc]
            case Write(a, id) =>
              && a < |w| && Step(P, S).stk == S.stk[S.off + a := P.write(id, w)] && MovedOn(S, Step(P, S))
            case Branch(id, to) =>
              && Step(P, S).stk == S.stk
              && if P.test(id, w) then Step(P, S).frames == S.frames[|S.frames| - 1 := F.(pc := to)]
                 else MovedOn(S, Step(P, S))
            case Push(Reg(r)) => r < |w| && Step(P, S).stk == S.stk + [w[r]] && MovedOn(S, Step(P, S))
            case Push(Const(v)) => Step(P, S).stk == S.stk + [v] && MovedOn(S, Step(P, S))
            case _ => true
  {
    hide GoodFrames, Waits;
    TopFits(P, S);
    var f := TopFn(P, S);
    if f.code[Last(S.frames).pc] != RetN(0) { HasNext(P, S); }
    assert GoodFn(f) && GoodOp(f.code[Last(S.frames).pc], Width(f), |f.code|);
  }

  /** The last return of a run: its values are on top of the stack. */
  lemma LastReturn(P: Program, S: State)
    requires Valid(P, S) && S.status == Running && !Last(S.frames).reenter
    ensures match TopFn(P, S).code[Last(S.frames).pc]
            case Ret1(Reg(r)) => Step(P, S).status == Returned(1) && Step(P, S).stk == S.stk + [Window(P, S)[r]]
            case Ret1(Const(v)) => Step(P, S).status == Returned(1) && Step(P, S).stk == S.stk + [v]
            case RetN(k) => S.off + |Window(P, S)| + k <= |S.stk| ==>
              Step(P, S).status == Returned(k) && Step(P, S).stk == S.stk
            case _ => true
  {
    hide GoodFrames, Waits;
    TopFits(P, S);
    var f := TopFn(P, S);
    assert GoodFn(f) && GoodOp(f.code[Last(S.frames).pc], Width(f), |f.code|);
  }

  /** A state that was aborted while it was paused has returned nothing once it is resumed. */
  lemma ResumeAborted(P: Program, S: State, args: nat)
    requires S.frames != [] && Last(S.frames).fn < |P.fns| && P.fns[Last(S.frames).fn].Script?
    requires 1 <= Last(S.frames).pc <= |P.fns[Last(S.frames).fn].code| && CallOf(P, S).Call?
    requires args <= |S.stk| && S.off + CallOf(P, S).from + CallOf(P, S).want <= |S.stk| - args
    requires S.frames[0].aborted
    ensures Resume(P, S, args) == State(S.stk, S.off, [], S.inputs, Returned(0))
  {
  }
}
