/** Calls and returns on the value stack.  A script calling a script does not recurse: the
    loop goes on in the new frame, and the return is completed by vm_postcall or by the
    shortcut in RET1.  This file says what each of these does to the state; CallVM.dfy has
    the code that does it, CallProof.dfy what follows. */
module CallMachine {

  datatype Val = Null | Data(i: int) | Func(f: nat)

  datatype Operand = Reg(r: nat) | Const(v: Val)

  /** The instructions that matter here; any other is a `Write` of one register of the
      window, or a `Branch`, by functions that only see the window. */
  datatype Op =
    | Write(a: nat, id: int)
    | Branch(id: int, to: nat)
    | Push(src: Operand)
    | Ret1(src: Operand)
    | RetN(k: nat)
    | Call(want: nat, from: nat, last: nat, gotthis: bool)

  datatype Fn = Script(code: seq<Op>, numargs: nat, gotthis: bool, numtmp: nat) | Native

  datatype Program = Program(fns: seq<Fn>, write: (int, seq<Val>) -> Val, test: (int, seq<Val>) -> bool)

  /** sgs_StackFrame.  A native function's frame has no instruction pointer. */
  datatype Frame = Frame(fn: nat, native: bool, pc: nat, argbeg: nat, stkoff: nat, reenter: bool, paused: bool,
      aborted: bool)

  /** What the next native call will do: push values and return `rvc`, having paused or
      aborted the state or not.  `Yields` also names the values it will be resumed with. */
  datatype NatOutcome =
    | Returns(pushed: seq<Val>, rvc: int)
    | Yields(pushed: seq<Val>, rvc: int, answer: seq<Val>)
    | Aborts(pushed: seq<Val>, rvc: int)

  /** Of vm_exec: running, or left with a number of values on top of the stack. */
  datatype Status = Running | Returned(rvc: nat) | Paused(rvc: nat) | Stuck

  datatype State = State(stk: seq<Val>, off: nat, frames: seq<Frame>, inputs: seq<NatOutcome>, status: Status)

  const MAX_FRAMES: int := 200

  /* ---- sequences ---- */

  function Nulls(n: nat): (r: seq<Val>)
    ensures |r| == n && forall i | 0 <= i < n :: r[i] == Null
  {
    seq(n, _ => Null)
  }

  function Reversed(s: seq<Val>): (r: seq<Val>)
    ensures |r| == |s| && forall i | 0 <= i < |s| :: r[i] == s[|s| - 1 - i]
  {
    seq(|s|, i requires 0 <= i < |s| => s[|s| - 1 - i])
  }

  function Last(fs: seq<Frame>): Frame
    requires fs != []
  {
    fs[|fs| - 1]
  }

  function Front(fs: seq<Frame>): (r: seq<Frame>)
    requires fs != []
    ensures |r| == |fs| - 1
  {
    fs[..|fs| - 1]
  }

  function SetPc(fs: seq<Frame>, pc: nat): (r: seq<Frame>)
    requires fs != []
    ensures |r| == |fs| && Front(r) == Front(fs)
  {
    Front(fs) + [Last(fs).(pc := pc)]
  }

  /* ---- well-formed programs and states ---- */

  /** How many registers a function sees: `this`, declared arguments, temporaries. */
  function Width(f: Fn): nat
    requires f.Script?
  {
    (if f.gotthis then 1 else 0) + f.numargs + f.numtmp
  }

  predicate GoodOperand(o: Operand, w: nat) {
    o.Reg? ==> o.r < w
  }

  /** Operands lie in the window of `w` registers, jumps among the `n` instructions. */
  predicate GoodOp(op: Op, w: nat, n: nat) {
    match op
    case Write(a, _) => a < w
    case Branch(_, to) => to < n
    case Push(src) => GoodOperand(src, w)
    case Ret1(src) => GoodOperand(src, w)
    case RetN(_) => true
    case Call(want, from, last, gotthis) => from + (if gotthis then 1 else 0) <= last < w && from + want <= w
  }

  /** prefix_bytecode ends every function with RETN 0. */
  predicate GoodFn(f: Fn) {
    f.Script? ==>
      && |f.code| > 0 && f.code[|f.code| - 1] == RetN(0)
      && forall i | 0 <= i < |f.code| :: GoodOp(f.code[i], Width(f), |f.code|)
  }

  predicate GoodProgram(P: Program) {
    forall i | 0 <= i < |P.fns| :: GoodFn(P.fns[i])
  }

  /** A script frame that can go on: its window lies on the stack, above its arguments. */
  predicate GoodFrame(P: Program, F: Frame, off: nat, top: nat) {
    && !F.native && !F.paused && F.fn < |P.fns| && P.fns[F.fn].Script? && F.pc < |P.fns[F.fn].code|
    && 1 <= F.argbeg <= off && off + Width(P.fns[F.fn]) <= top && F.stkoff < F.argbeg
    && (F.aborted ==> P.fns[F.fn].code[F.pc] == RetN(0))
  }

  /** A frame that waits for a call to return: it is at its CALL, unless it was aborted, and
      then everything above was aborted with it. */
  predicate Waits(P: Program, G: Frame, F: Frame)
    requires G.fn < |P.fns| && P.fns[G.fn].Script? && G.pc < |P.fns[G.fn].code|
  {
    if G.aborted then F.aborted else G.pc >= 1 && P.fns[G.fn].code[G.pc - 1].Call?
  }

  /** The frames of one vm_exec: from the top one down to the first that is not re-entrant.
      Each lies above the window of the one below. */
  predicate GoodFrames(P: Program, fs: seq<Frame>, off: nat, top: nat)
    decreases |fs|
  {
    && fs != [] && GoodFrame(P, Last(fs), off, top)
    && (Last(fs).reenter ==>
          && GoodFrames(P, Front(fs), Last(fs).stkoff, Last(fs).argbeg - 1)
          && Waits(P, Last(Front(fs)), Last(fs)))
  }

  /** The caller's frame, when the top one is re-entrant. */
  lemma Caller(P: Program, fs: seq<Frame>, off: nat, top: nat)
    requires GoodProgram(P) && GoodFrames(P, fs, off, top) && Last(fs).reenter
    ensures var F, below := Last(fs), Front(fs);
            && GoodFrames(P, below, F.stkoff, F.argbeg - 1)
            && var G := Last(below);
              && GoodFrame(P, G, F.stkoff, F.argbeg - 1)
                 && (G.aborted ==> F.aborted && P.fns[G.fn].code[G.pc] == RetN(0))
              && (!G.aborted ==> G.pc >= 1 && P.fns[G.fn].code[G.pc - 1].Call?
                                 && GoodOp(P.fns[G.fn].code[G.pc - 1], Width(P.fns[G.fn]), |P.fns[G.fn].code|))
  {
    var below := Front(fs);
    assert GoodFrames(P, below, Last(fs).stkoff, Last(fs).argbeg - 1);
    assert GoodFn(P.fns[Last(below).fn]);
  }

  ghost predicate Valid(P: Program, S: State) {
    GoodProgram(P) && GoodFrames(P, S.frames, S.off, |S.stk|)
  }

  function TopFn(P: Program, S: State): (f: Fn)
    requires GoodFrames(P, S.frames, S.off, |S.stk|)
    ensures f.Script? && S.off + Width(f) <= |S.stk|
  {
    P.fns[Last(S.frames).fn]
  }

  function Window(P: Program, S: State): (w: seq<Val>)
    requires GoodFrames(P, S.frames, S.off, |S.stk|)
    ensures |w| == Width(TopFn(P, S))
  {
    S.stk[S.off..S.off + Width(TopFn(P, S))]
  }

  function Get(S: State, o: Operand): Val {
    match o
    case Const(v) => v
    case Reg(r) => if S.off + r < |S.stk| then S.stk[S.off + r] else Null
  }

  /* ---- return values ---- */

  /** stk_resize_expected: surplus values are dropped, missing ones are null. */
  function Resize(res: seq<Val>, want: nat): (r: seq<Val>)
    ensures |r| == want && forall i | 0 <= i < want :: r[i] == if i < |res| then res[i] else Null
  {
    if |res| >= want then res[..want] else res + Nulls(want - |res|)
  }

  /** `vals` written over the stack from position `at`. */
  function Overwrite(stk: seq<Val>, at: nat, vals: seq<Val>): (r: seq<Val>)
    requires at + |vals| <= |stk|
    ensures |r| == |stk|
    ensures forall i | 0 <= i < |stk| :: r[i] == if at <= i < at + |vals| then vals[i - at] else stk[i]
  {
    stk[..at] + vals + stk[at + |vals|..]
  }

  /** The end of a CALL: the `rvc` values on top of the stack go to `want` registers. */
  function Assign(S: State, want: nat, from: nat, rvc: nat): State
    requires rvc <= |S.stk| && S.off + from + want <= |S.stk| - rvc
  {
    var n := |S.stk| - rvc;
    S.(stk := Overwrite(S.stk[..n], S.off + from, Resize(S.stk[n..], want)))
  }

  /** A frame goes, and with it everything from its function to just below the results. */
  function Leave(S: State, rvc: nat): State
    requires S.frames != [] && 1 <= Last(S.frames).argbeg <= |S.stk| - rvc
  {
    var F := Last(S.frames);
    S.(stk := S.stk[..F.argbeg - 1] + S.stk[|S.stk| - rvc..], off := F.stkoff, frames := Front(S.frames))
  }

  /** Is the top frame about to execute RETN 0? */
  predicate EndsNext(P: Program, S: State)
    requires S.frames != [] && Last(S.frames).fn < |P.fns| && P.fns[Last(S.frames).fn].Script?
  {
    var F := Last(S.frames);
    F.pc < |P.fns[F.fn].code| && P.fns[F.fn].code[F.pc] == RetN(0)
  }

  /** The CALL that the top frame is waiting in. */
  function CallOf(P: Program, S: State): Op
    requires S.frames != [] && Last(S.frames).fn < |P.fns| && P.fns[Last(S.frames).fn].Script?
    requires 1 <= Last(S.frames).pc <= |P.fns[Last(S.frames).fn].code|
  {
    P.fns[Last(S.frames).fn].code[Last(S.frames).pc - 1]
  }

  /** vm_postcall for a re-entrant frame. */
  function PostCall(P: Program, S: State, rvc: nat): State
    requires GoodProgram(P) && rvc <= |S.stk| && GoodFrames(P, S.frames, S.off, |S.stk| - rvc) && Last(S.frames).reenter
  {
    Caller(P, S.frames, S.off, |S.stk| - rvc);
    var T := Leave(S, rvc);
    if EndsNext(P, T) then T.(stk := T.stk[..|T.stk| - rvc])
    else
      var I := CallOf(P, T);
      Assign(T, I.want, I.from, rvc)
  }

  /** RET1 of a re-entrant frame: the value goes straight to its register. */
  function FastReturn(P: Program, S: State, v: Val): State
    requires GoodProgram(P) && GoodFrames(P, S.frames, S.off, |S.stk|) && Last(S.frames).reenter
             && !Last(S.frames).aborted
  {
    Caller(P, S.frames, S.off, |S.stk|);
    var F := Last(S.frames);
    var below := S.(stk := S.stk[..F.argbeg - 1], off := F.stkoff, frames := Front(S.frames));
    var I := CallOf(P, below);
    below.(stk := Overwrite(below.stk, below.off + I.from, if I.want == 0 then [] else [v] + Nulls(I.want - 1)))
  }

  /* ---- calls ---- */

  function Min(a: nat, b: nat): nat { if a < b then a else b }

  /** The window a script function starts with: `this` (or null) if it wants it, its declared
      arguments, missing ones null, and its temporaries. */
  function StartWindow(f: Fn, self: Val, args: seq<Val>): (w: seq<Val>)
    requires f.Script?
    ensures |w| == Width(f)
  {
    var n := Min(|args|, f.numargs);
    (if f.gotthis then [self] else []) + args[..n] + Nulls(f.numargs - n + f.numtmp)
  }

  /** What lies under that window: surplus arguments, reversed, then a `this` nobody wants. */
  function UnderWindow(f: Fn, gotthis: bool, self: Val, args: seq<Val>): seq<Val>
    requires f.Script?
  {
    Reversed(args[Min(|args|, f.numargs)..]) + (if gotthis && !f.gotthis then [self] else [])
  }

  /** vm_call of script function `fn`; on the stack lie the function, `this` if passed, and
      the arguments. */
  function Enter(P: Program, S: State, fn: nat, args: nat, gotthis: bool): State
    requires fn < |P.fns| && P.fns[fn].Script? && args + (if gotthis then 2 else 1) <= |S.stk|
  {
    var f := P.fns[fn];
    var g := if gotthis then 1 else 0;
    var argbeg := |S.stk| - args - g;
    var a, self := S.stk[|S.stk| - args..], if gotthis then S.stk[argbeg] else Null;
    var under := UnderWindow(f, gotthis, self, a);
    S.(stk := S.stk[..argbeg] + under + StartWindow(f, self, a), off := argbeg + |under|,
       frames := S.frames + [Frame(fn, false, 0, argbeg, S.off, true, false, false)])
  }

  /** How many values a native function's return value stands for. */
  function Rvc(o: NatOutcome, args: nat): (r: nat)
    ensures r <= args + |o.pushed|
  {
    if o.rvc < 0 || o.rvc > args + |o.pushed| then 0 else o.rvc
  }

  /** sgs_Abort: every script frame, down to the next native one, goes to its last RETN. */
  function AbortFrames(P: Program, fs: seq<Frame>): (r: seq<Frame>)
    ensures |r| == |fs|
    decreases |fs|
  {
    if fs == [] || Last(fs).native || Last(fs).fn >= |P.fns| || !P.fns[Last(fs).fn].Script?
        || P.fns[Last(fs).fn].code == [] then fs
    else AbortFrames(P, Front(fs)) + [Last(fs).(pc := |P.fns[Last(fs).fn].code| - 1, aborted := true)]
  }

  /** sgs_PauseState refuses if a native function is among the callers. */
  predicate AllScript(fs: seq<Frame>) {
    forall i | 0 <= i < |fs| :: !fs[i].native
  }

  function PauseFrames(fs: seq<Frame>): seq<Frame>
    requires fs != []
  {
    if AllScript(fs) then Front(fs) + [Last(fs).(paused := true)] else fs
  }

  /** A native call with its arguments on the stack, up to and including vm_call's clean-up. */
  function CallNative(P: Program, S: State, below: nat, args: nat, o: NatOutcome): State
    requires below + args <= |S.stk| && S.frames != []
  {
    var all := S.stk[|S.stk| - args..] + o.pushed;
    var rvc := Rvc(o, args);
    var fs := match o
              case Returns(_, _) => S.frames
              case Yields(_, _, _) => PauseFrames(S.frames)
              case Aborts(_, _) => AbortFrames(P, S.frames);
    S.(stk := S.stk[..below] + all[|all| - rvc..], frames := fs)
  }

  /** The CALL instruction; `S` is past it. */
  function DoCall(P: Program, S: State, I: Op): State
    requires I.Call? && GoodProgram(P) && S.frames != [] && S.off + I.last < |S.stk|
    requires I.from + (if I.gotthis then 1 else 0) <= I.last && S.off + I.from + I.want <= |S.stk|
  {
    var args := I.last - I.from - (if I.gotthis then 1 else 0);
    var n := |S.stk|;
    var T := S.(stk := S.stk + S.stk[S.off + I.from..S.off + I.last + 1]);
    var callee := T.stk[n];
    if |S.frames| >= MAX_FRAMES || !callee.Func? || callee.f >= |P.fns| then Assign(S, I.want, I.from, 0)
    else if P.fns[callee.f].Script? then Enter(P, T, callee.f, args, I.gotthis)
    else if S.inputs == [] then T.(status := Stuck)
    else
      var o := S.inputs[0];
      var U := CallNative(P, T, n, args, o).(inputs := S.inputs[1..]);
      if Last(U.frames).paused then U.(status := Paused(Rvc(o, args)))
      else Assign(U, I.want, I.from, Rvc(o, args))
  }

  /** One instruction of vm_exec. */
  function Exec(P: Program, S: State, I: Op): State
    requires GoodProgram(P) && GoodFrames(P, S.frames, S.off, |S.stk|) && I == TopFn(P, S).code[Last(S.frames).pc]
  {
    var F := Last(S.frames);
    var f := TopFn(P, S);
    assert GoodOp(I, Width(f), |f.code|);
    var T := S.(frames := SetPc(S.frames, F.pc + 1));
    match I
    case Write(a, id) => T.(stk := S.stk[S.off + a := P.write(id, Window(P, S))])
    case Branch(id, to) => if P.test(id, Window(P, S)) then S.(frames := SetPc(S.frames, to)) else T
    case Push(src) => T.(stk := S.stk + [Get(S, src)])
    case Ret1(src) =>
      if F.reenter then FastReturn(P, S, Get(S, src)) else T.(stk := S.stk + [Get(S, src)], status := Returned(1))
    case RetN(k) =>
      if S.off + Width(f) + k > |S.stk| then S.(status := Stuck)
      else if F.reenter then (GoodShrink(P, S.frames, S.off, |S.stk|, |S.stk| - k); PostCall(P, S, k))
      else T.(status := Returned(k))
    case Call(_, _, _, _) => DoCall(P, T, I)
  }

  lemma GoodShrink(P: Program, fs: seq<Frame>, off: nat, top: nat, top': nat)
    requires GoodFrames(P, fs, off, top) && off + Width(P.fns[Last(fs).fn]) <= top'
    ensures GoodFrames(P, fs, off, top')
  {
  }

  ghost function Step(P: Program, S: State): State {
    if S.status != Running then S
    else if !Valid(P, S) then S.(status := Stuck)
    else Exec(P, S, TopFn(P, S).code[Last(S.frames).pc])
  }

  ghost function Steps(P: Program, S: State, n: nat): State
    decreases n
  {
    if n == 0 then S else Steps(P, Step(P, S), n - 1)
  }

  /** sgs_ResumeStateRet up to where it enters vm_exec; `args` values have been pushed. */
  function Resume(P: Program, S: State, args: nat): State
    requires S.frames != [] && Last(S.frames).fn < |P.fns| && P.fns[Last(S.frames).fn].Script?
    requires 1 <= Last(S.frames).pc <= |P.fns[Last(S.frames).fn].code| && CallOf(P, S).Call?
    requires args <= |S.stk| && S.off + CallOf(P, S).from + CallOf(P, S).want <= |S.stk| - args
  {
    if S.frames[0].aborted then S.(frames := [], status := Returned(0))
    else
      var I := CallOf(P, S);
      Assign(S, I.want, I.from, args).(frames := Front(S.frames) + [Last(S.frames).(paused := false)],
          status := Running)
  }
}
