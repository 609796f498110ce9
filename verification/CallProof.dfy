/** What the call machine guarantees over whole runs. */
module CallProof {
  import opened CallMachine

  /* ---- the frames stay well-formed ---- */

  lemma GoodPc(P: Program, fs: seq<Frame>, off: nat, top: nat, pc: nat, top': nat)
    requires GoodFrames(P, fs, off, top) && !Last(fs).aborted && pc < |P.fns[Last(fs).fn].code|
    requires off + Width(P.fns[Last(fs).fn]) <= top'
    ensures GoodFrames(P, SetPc(fs, pc), off, top')
  {
  }

  lemma {:induction false} GoodAbort(P: Program, fs: seq<Frame>, off: nat, top: nat)
    requires GoodProgram(P) && GoodFrames(P, fs, off, top)
    ensures GoodFrames(P, AbortFrames(P, fs), off, top) && Last(AbortFrames(P, fs)).aborted
    decreases |fs|
  {
    var F := Last(fs);
    assert GoodFn(P.fns[F.fn]);
    var r := AbortFrames(P, fs);
    assert Front(r) == AbortFrames(P, Front(fs));
    if F.reenter {
      Caller(P, fs, off, top);
      GoodAbort(P, Front(fs), F.stkoff, F.argbeg - 1);
    }
  }

  lemma GoodPush(P: Program, fs: seq<Frame>, F: Frame, off: nat, top: nat)
    requires fs != [] && F.reenter && GoodFrame(P, F, off, top) && GoodFrames(P, fs, F.stkoff, F.argbeg - 1)
    requires Waits(P, Last(fs), F)
    ensures GoodFrames(P, fs + [F], off, top)
  {
    assert Front(fs + [F]) == fs && Last(fs + [F]) == F;
  }

  /** An instruction other than the last RETN has one behind it, and its frame is not aborted. */
  lemma HasNext(P: Program, S: State)
    requires Valid(P, S) && TopFn(P, S).code[Last(S.frames).pc] != RetN(0)
    ensures Last(S.frames).pc + 1 < |TopFn(P, S).code| && !Last(S.frames).aborted
  {
    assert GoodFn(TopFn(P, S));
  }

  /** A state that waits to be resumed: it would be well-formed but for the paused flag. */
  ghost predicate ValidPaused(P: Program, S: State, rvc: nat) {
    && GoodProgram(P) && S.frames != [] && rvc <= |S.stk| && AllScript(S.frames)
    && var fs := Front(S.frames) + [Last(S.frames).(paused := false)];
      && GoodFrames(P, fs, S.off, |S.stk| - rvc) && !Last(fs).aborted && Last(fs).pc >= 1
      && CallOf(P, S).Call? && GoodOp(CallOf(P, S), Width(P.fns[Last(fs).fn]), |P.fns[Last(fs).fn].code|)
  }

  lemma EnterValid(P: Program, S: State, fn: nat, args: nat, gotthis: bool)
    requires GoodProgram(P) && fn < |P.fns| && P.fns[fn].Script?
    requires var g := if gotthis then 2 else 1;
             && args + g <= |S.stk| && GoodFrames(P, S.frames, S.off, |S.stk| - args - g)
             && !Last(S.frames).aborted && Last(S.frames).pc >= 1
                && P.fns[Last(S.frames).fn].code[Last(S.frames).pc - 1].Call?
    ensures var T := Enter(P, S, fn, args, gotthis); Valid(P, T) && T.status == S.status
  {
    var f, T := P.fns[fn], Enter(P, S, fn, args, gotthis);
    assert GoodFn(f);
    GoodPush(P, S.frames, Last(T.frames), T.off, |T.stk|);
    assert T.frames == S.frames + [Last(T.frames)];
  }

  lemma AssignFrame(S: State, want: nat, from: nat, rvc: nat)
    requires rvc <= |S.stk| && S.off + from + want <= |S.stk| - rvc
    ensures var T := Assign(S, want, from, rvc);
            |T.stk| == |S.stk| - rvc && T.frames == S.frames && T.off == S.off && T.status == S.status
                && T.inputs == S.inputs
  {
  }

  /** A native call leaves the caller's frame well-formed; `n` is where its arguments began. */
  lemma NativeValid(P: Program, S: State, n: nat, args: nat, o: NatOutcome)
    requires GoodProgram(P) && n + args <= |S.stk| && GoodFrames(P, S.frames, S.off, n) && !Last(S.frames).aborted
    ensures var U := CallNative(P, S, n, args, o);
            && |U.stk| == n + Rvc(o, args) && U.off == S.off && U.status == S.status && U.stk[..n] == S.stk[..n]
               && U.frames != []
            && (if Last(U.frames).paused then
                  o.Yields? && AllScript(U.frames) && Front(U.frames) + [Last(U.frames).(paused := false)] == S.frames
                else GoodFrames(P, U.frames, S.off, n))
  {
    hide GoodProgram;
    GoodAbort(P, S.frames, S.off, n);
    assert Front(S.frames) + [Last(S.frames)] == S.frames;
    assert !Last(S.frames).paused;
    var U := CallNative(P, S, n, args, o);
    if o.Yields? && AllScript(S.frames) {
      assert Last(U.frames).paused;
      assert forall i | 0 <= i < |S.frames| :: U.frames[i].native == S.frames[i].native;
    }
  }

  lemma CallValid(P: Program, S: State, I: Op)
    requires GoodProgram(P) && GoodFrames(P, S.frames, S.off, |S.stk|) && !Last(S.frames).aborted && S.status == Running
    requires Last(S.frames).pc >= 1 && I == CallOf(P, S) && I.Call? && GoodOp(I, Width(TopFn(P, S)), |TopFn(P, S).code|)
    ensures var T := DoCall(P, S, I);
            && (T.status == Running ==> Valid(P, T))
            && (T.status.Paused? ==> ValidPaused(P, T, T.status.rvc))
            && !T.status.Returned?
  {
    hide GoodProgram, GoodFrames, GoodFrame, AllScript, Assign, Enter, CallNative;
    TopFits(P, S);
    var args := I.last - I.from - (if I.gotthis then 1 else 0);
    var n := |S.stk|;
    var U := S.(stk := S.stk + S.stk[S.off + I.from..S.off + I.last + 1]);
    var callee := U.stk[n];
    if |S.frames| >= MAX_FRAMES || !callee.Func? || callee.f >= |P.fns| {
      AssignFrame(S, I.want, I.from, 0);
    } else if P.fns[callee.f].Script? {
      EnterValid(P, U, callee.f, args, I.gotthis);
    } else if S.inputs != [] {
      NativeValid(P, U, n, args, S.inputs[0]);
      var V := CallNative(P, U, n, args, S.inputs[0]).(inputs := S.inputs[1..]);
      if !Last(V.frames).paused { AssignFrame(V, I.want, I.from, Rvc(S.inputs[0], args)); }
    }
  }

  lemma TopFits(P: Program, S: State)
    requires GoodFrames(P, S.frames, S.off, |S.stk|)
    ensures S.frames != [] && !Last(S.frames).paused && Last(S.frames).fn < |P.fns| && P.fns[Last(S.frames).fn].Script?
    ensures Last(S.frames).pc < |P.fns[Last(S.frames).fn].code|
    ensures S.off + Width(P.fns[Last(S.frames).fn]) <= |S.stk|
  {
  }

  /** Returning to a caller leaves it well-formed. */
  lemma PostCallValid(P: Program, S: State, rvc: nat)
    requires GoodProgram(P) && rvc <= |S.stk| && GoodFrames(P, S.frames, S.off, |S.stk| - rvc) && Last(S.frames).reenter
    ensures var T := PostCall(P, S, rvc); T.status == S.status && GoodFrames(P, T.frames, T.off, |T.stk|)
  {
    Caller(P, S.frames, S.off, |S.stk| - rvc);
  }

  lemma FastReturnValid(P: Program, S: State, v: Val)
    requires GoodProgram(P) && GoodFrames(P, S.frames, S.off, |S.stk|) && Last(S.frames).reenter
             && !Last(S.frames).aborted
    ensures var T := FastReturn(P, S, v); T.status == S.status && GoodFrames(P, T.frames, T.off, |T.stk|)
  {
    Caller(P, S.frames, S.off, |S.stk|);
  }

  /** One instruction keeps every frame of the run well-formed: windows on the stack and in
      order, suspended frames at their calls, aborted frames at their last RETN. */
  lemma StepValid(P: Program, S: State)
    requires Valid(P, S) && S.status == Running
    ensures var T := Step(P, S);
            && (T.status == Running ==> Valid(P, T))
            && (T.status.Paused? ==> ValidPaused(P, T, T.status.rvc))
            && (T.status.Returned? ==> !Last(S.frames).reenter && T.frames == SetPc(S.frames, Last(S.frames).pc + 1)
                                       && T.off == S.off && T.status.rvc <= |T.stk| - Last(T.frames).argbeg)
  {
    hide PostCall, FastReturn, DoCall, Waits, ValidPaused, GoodProgram;
    var F, f := Last(S.frames), TopFn(P, S);
    var I := f.code[F.pc];
    TopGood(P, S);
    if I != RetN(0) {
      HasNext(P, S);
      GoodPc(P, S.frames, S.off, |S.stk|, F.pc + 1, |S.stk|);
    }
    match I
    case Call(_, _, _, _) => CallValid(P, S.(frames := SetPc(S.frames, F.pc + 1)), I);
    case RetN(k) =>
      if S.off + Width(f) + k <= |S.stk| && F.reenter {
        GoodShrink(P, S.frames, S.off, |S.stk|, |S.stk| - k);
        PostCallValid(P, S, k);
      }
    case Ret1(src) => if F.reenter { FastReturnValid(P, S, Get(S, src)); }
    case Write(a, id) =>
    case Branch(id, to) => GoodPc(P, S.frames, S.off, |S.stk|, to, |S.stk|);
    case Push(src) => GoodPc(P, S.frames, S.off, |S.stk|, F.pc + 1, |S.stk| + 1);
  }

  lemma TopGood(P: Program, S: State)
    requires Valid(P, S)
    ensures var f := TopFn(P, S); GoodFn(f) && GoodOp(f.code[Last(S.frames).pc], Width(f), |f.code|)
  {
    assert GoodFn(TopFn(P, S));
  }

  lemma {:induction false} StepsAdd(P: Program, S: State, m: nat, n: nat)
    ensures Steps(P, S, m + n) == Steps(P, Steps(P, S, m), n)
    decreases m
  {
    if m > 0 { StepsAdd(P, Step(P, S), m - 1, n); }
  }

  /* ---- the RET1 shortcut ---- */

  /** What a return instruction hands over: the state with the results on top, how many. */
  datatype Given = Given(S: State, rvc: nat)

  function Give(P: Program, S: State): Given
    requires GoodFrames(P, S.frames, S.off, |S.stk|)
  {
    match TopFn(P, S).code[Last(S.frames).pc]
    case Ret1(src) => Given(S.(stk := S.stk + [Get(S, src)]), 1)
    case RetN(k) => Given(S, k)
    case _ => Given(S, 0)
  }

  predicate AtReturn(P: Program, S: State)
    requires GoodFrames(P, S.frames, S.off, |S.stk|)
  {
    var I := TopFn(P, S).code[Last(S.frames).pc];
    I.Ret1? || (I.RetN? && S.off + Width(TopFn(P, S)) + I.k <= |S.stk|)
  }

  /** Completing a return the general way, whatever the caller does next. */
  function Complete(P: Program, S: State, rvc: nat): State
    requires GoodProgram(P) && rvc <= |S.stk| && GoodFrames(P, S.frames, S.off, |S.stk| - rvc)
    requires Last(S.frames).reenter && |S.frames| > 1 && !Last(Front(S.frames)).aborted
  {
    Caller(P, S.frames, S.off, |S.stk| - rvc);
    var T := Leave(S, rvc);
    Assign(T, CallOf(P, T).want, CallOf(P, T).from, rvc)
  }

  /** The shortcut leaves the state that pushing the value and completing the return does,
      for every number of expected values. */
  lemma FastIsComplete(P: Program, S: State, v: Val)
    requires GoodProgram(P) && GoodFrames(P, S.frames, S.off, |S.stk|) && Last(S.frames).reenter
             && !Last(S.frames).aborted
    ensures |S.frames| > 1 && !Last(Front(S.frames)).aborted
    ensures FastReturn(P, S, v) == Complete(P, S.(stk := S.stk + [v]), 1)
  {
    hide GoodProgram, GoodFrames, GoodFrame, GoodOp, Assign, Leave;
    Caller(P, S.frames, S.off, |S.stk|);
    TopLies(P, S.frames, S.off, |S.stk|);
    LeaveOne(S, v);
    var T := Leave(S.(stk := S.stk + [v]), 1);
    AssignOne(T, CallOf(P, T).want, CallOf(P, T).from, S.stk[..Last(S.frames).argbeg - 1], v);
  }

  lemma LeaveOne(S: State, v: Val)
    requires S.frames != [] && 1 <= Last(S.frames).argbeg <= |S.stk|
    ensures var F := Last(S.frames);
            Leave(S.(stk := S.stk + [v]), 1)
                == S.(stk := S.stk[..F.argbeg - 1] + [v], off := F.stkoff, frames := Front(S.frames))
  {
    var stk, n := S.stk + [v], Last(S.frames).argbeg - 1;
    assert stk[..n] == S.stk[..n] && stk[|stk| - 1..] == [v];
  }

  lemma TopLies(P: Program, fs: seq<Frame>, off: nat, top: nat)
    requires GoodFrames(P, fs, off, top)
    ensures 1 <= Last(fs).argbeg <= off <= top && Last(fs).stkoff < Last(fs).argbeg
  {
  }

  lemma AssignOne(T: State, want: nat, from: nat, base: seq<Val>, v: Val)
    requires T.stk == base + [v] && T.off + from + want <= |base|
    ensures var vals := if want == 0 then [] else [v] + Nulls(want - 1);
            Assign(T, want, from, 1) == T.(stk := Overwrite(base, T.off + from, vals))
  {
    assert T.stk[..|base|] == base && T.stk[|base|..] == [v];
    assert Resize([v], want) == if want == 0 then [] else [v] + Nulls(want - 1);
  }

  /** vm_postcall does the same, except in front of a RETN 0: there it drops the results. */
  lemma PostCallIsComplete(P: Program, S: State, rvc: nat)
    requires GoodProgram(P) && rvc <= |S.stk| && GoodFrames(P, S.frames, S.off, |S.stk| - rvc) && Last(S.frames).reenter
    ensures (Caller(P, S.frames, S.off, |S.stk| - rvc);
             var T := Leave(S, rvc);
             && GoodFrames(P, T.frames, T.off, |T.stk| - rvc)
             && PostCall(P, S, rvc) == if EndsNext(P, T) then T.(stk := T.stk[..|T.stk| - rvc])
                else Complete(P, S, rvc))
  {
    Caller(P, S.frames, S.off, |S.stk| - rvc);
  }

  /** What the caller finds after a call has returned: its frame on top, its window where it
      was, the stack cut back to what lay under the called function.  In front of a RETN 0
      nothing else has changed; otherwise the registers that the CALL names hold the results
      in order, the first ones if there are too many, nulls behind them if too few, and every
      other register and everything under the window is as it was. */
  lemma ResultsArrive(P: Program, S: State, rvc: nat)
    requires GoodProgram(P) && rvc <= |S.stk| && GoodFrames(P, S.frames, S.off, |S.stk| - rvc) && Last(S.frames).reenter
    ensures var F, T := Last(S.frames), PostCall(P, S, rvc);
            && |S.frames| > 1 && T.frames == Front(S.frames) && T.off == F.stkoff && |T.stk| == F.argbeg - 1
            && T.inputs == S.inputs && T.status == S.status
    ensures var F, G, T := Last(S.frames), Last(Front(S.frames)), PostCall(P, S, rvc);
            && G.fn < |P.fns| && P.fns[G.fn].Script? && G.pc < |P.fns[G.fn].code|
            && var code := P.fns[G.fn].code;
              if code[G.pc] == RetN(0) then T.stk == S.stk[..F.argbeg - 1]
              else
                && G.pc >= 1 && code[G.pc - 1].Call?
                && var first, want := F.stkoff + code[G.pc - 1].from, code[G.pc - 1].want;
                  && first + want <= F.argbeg - 1
                  && (forall p | first <= p < first + want ::
                     T.stk[p] == if p - first < rvc then S.stk[|S.stk| - rvc + p - first] else Null)
                  && (forall p | 0 <= p < first || first + want <= p < F.argbeg - 1 :: T.stk[p] == S.stk[p])
  {
    hide GoodProgram, GoodFrames, GoodFrame, Leave, Assign, Waits;
    Caller(P, S.frames, S.off, |S.stk| - rvc);
    TopLies(P, S.frames, S.off, |S.stk| - rvc);
    LeaveKeeps(S, rvc);
    var L := Leave(S, rvc);
    if !EndsNext(P, L) { AssignPlaces(L, CallOf(P, L).want, CallOf(P, L).from, rvc); }
  }

  lemma LeaveKeeps(S: State, rvc: nat)
    requires S.frames != [] && 1 <= Last(S.frames).argbeg <= |S.stk| - rvc
    ensures var F, L := Last(S.frames), Leave(S, rvc);
            && L == S.(stk := L.stk, off := F.stkoff, frames := Front(S.frames)) && |L.stk| == F.argbeg - 1 + rvc
            && L.stk[..F.argbeg - 1] == S.stk[..F.argbeg - 1] && L.stk[F.argbeg - 1..] == S.stk[|S.stk| - rvc..]
  {
  }

  lemma AssignPlaces(S: State, want: nat, from: nat, rvc: nat)
    requires rvc <= |S.stk| && S.off + from + want <= |S.stk| - rvc
    ensures var n, first, T := |S.stk| - rvc, S.off + from, Assign(S, want, from, rvc);
            && T == S.(stk := T.stk) && |T.stk| == n
            && (forall p | first <= p < first + want ::
               T.stk[p] == if p - first < rvc then S.stk[n..][p - first] else Null)
            && (forall p | 0 <= p < first || first + want <= p < n :: T.stk[p] == S.stk[..n][p])
  {
  }

  /** In front of a RETN 0 it makes no difference: once that has returned as well, the
      results that were assigned to registers are gone with the window. */
  lemma DeadResults(P: Program, S: State, want: nat, from: nat, rvc: nat)
    requires GoodProgram(P) && rvc <= |S.stk| && GoodFrames(P, S.frames, S.off, |S.stk| - rvc)
             && S.off + from + want <= |S.stk| - rvc
    ensures var A, B := Assign(S, want, from, rvc), S.(stk := S.stk[..|S.stk| - rvc]);
            Leave(A, 0) == Leave(B, 0)
  {
    var A, B := Assign(S, want, from, rvc), S.(stk := S.stk[..|S.stk| - rvc]);
    var n := Last(S.frames).argbeg - 1;
    assert A.stk[..n] == B.stk[..n];
    assert A.stk[|A.stk|..] == B.stk[|B.stk|..] == [];
  }

  /** Fast return refines slow return: the state after RET1 is the one after pushing the
      value and RETN 1, or, if the caller's next instruction is RETN 0, both become the same
      when that has returned. */
  lemma FastRefinesSlow(P: Program, S: State, v: Val)
    requires GoodProgram(P) && GoodFrames(P, S.frames, S.off, |S.stk|) && Last(S.frames).reenter
             && !Last(S.frames).aborted
    ensures var fast, slow := FastReturn(P, S, v), PostCall(P, S.(stk := S.stk + [v]), 1);
            && GoodFrames(P, fast.frames, fast.off, |fast.stk|) && GoodFrames(P, slow.frames, slow.off, |slow.stk|)
            && fast.frames == slow.frames
            && if EndsNext(P, fast) then Leave(fast, 0) == Leave(slow, 0) else fast == slow
  {
    hide FastReturn, PostCall;
    var S' := S.(stk := S.stk + [v]);
    Caller(P, S.frames, S.off, |S.stk|);
    FastIsComplete(P, S, v);
    PostCallIsComplete(P, S', 1);
    FastReturnValid(P, S, v);
    PostCallValid(P, S', 1);
    var T := Leave(S', 1);
    DeadResults(P, T, CallOf(P, T).want, CallOf(P, T).from, 1);
  }

  /* ---- the stackless loop refines recursive calls ---- */

  /** The recursive machine: a script call runs the callee to its return inside the CALL, and
      the rest of the CALL follows.  The result is the state at the return, and how many
      values it returns. */
  ghost function Recursive(P: Program, fuel: nat, S: State): Option
    decreases fuel
  {
    if fuel == 0 || S.status != Running || !Valid(P, S) then Nothing
    else
      var F := Last(S.frames);
      var I := TopFn(P, S).code[F.pc];
      if AtReturn(P, S) then Done(Give(P, S))
      else if I.RetN? then Nothing
      else if !I.Call? then Recursive(P, fuel - 1, Step(P, S))
      else
        var T := Step(P, S);
        if |T.frames| == |S.frames| then Recursive(P, fuel - 1, T)
        else
          match Recursive(P, fuel - 1, T)
          case Nothing => Nothing
          case Done(g) =>
            if !CanLeave(P, g.S, g.rvc) then Nothing
            else
              var L := Leave(g.S, g.rvc);
              if g.rvc <= |L.stk| && L.off + I.from + I.want <= |L.stk| - g.rvc
              then Recursive(P, fuel - 1, Assign(L, I.want, I.from, g.rvc)) else Nothing
  }

  datatype Option = Nothing | Done(g: Given)

  predicate CanLeave(P: Program, S: State, rvc: nat) {
    S.frames != [] && 1 <= Last(S.frames).argbeg <= |S.stk| - rvc
  }

  /** For `n` steps the run does not leave the frames under number `h`. */
  ghost predicate Stays(P: Program, S: State, h: nat, n: nat) {
    forall k: nat | k <= n :: |Steps(P, S, k).frames| >= h
  }

  lemma StaysNone(P: Program, S: State)
    ensures Stays(P, S, |S.frames|, 0)
  {
  }

  lemma StaysThen(P: Program, S: State, h: nat, m: nat, n: nat)
    requires Stays(P, S, h, m) && Stays(P, Steps(P, S, m), h, n)
    ensures Stays(P, S, h, m + n)
  {
    hide Step, Steps;
    forall k: nat | k <= m + n ensures |Steps(P, S, k).frames| >= h {
      if k > m {
        StepsAdd(P, S, m, k - m);
        assert |Steps(P, Steps(P, S, m), k - m).frames| >= h;
      }
    }
  }

  /** One step, and the run from there. */
  lemma StaysFirst(P: Program, S: State, h: nat, n: nat)
    requires h <= |S.frames| && Stays(P, Step(P, S), h, n)
    ensures Stays(P, S, h, n + 1)
  {
    StepsOne(P, S);
    forall k: nat | k <= 1 ensures |Steps(P, S, k).frames| >= h {
      if k == 1 { assert |Steps(P, Step(P, S), 0).frames| >= h; }
    }
    StaysThen(P, S, h, 1, n);
  }

  /** What later instructions may have done to a frame under the running one. */
  predicate Kept(F: Frame, G: Frame) {
    G == F || (G.aborted && G == F.(pc := G.pc, aborted := true))
  }

  /** A frame that is still the same activation. */
  predicate SameBut(F: Frame, G: Frame) {
    G == F.(pc := G.pc, paused := G.paused, aborted := G.aborted)
  }

  predicate AllKept(fs: seq<Frame>, gs: seq<Frame>, n: nat) {
    n <= |fs| && n <= |gs| && forall i | 0 <= i < n :: Kept(fs[i], gs[i])
  }

  lemma {:induction false} AbortKept(P: Program, fs: seq<Frame>)
    ensures AllKept(fs, AbortFrames(P, fs), |fs|)
    decreases |fs|
  {
    if fs != [] {
      AbortKept(P, Front(fs));
      var r := AbortFrames(P, fs);
      forall i | 0 <= i < |fs| ensures Kept(fs[i], r[i]) {
        if i < |fs| - 1 { assert Front(fs)[i] == fs[i]; }
      }
    }
  }

  /** One instruction that stays in its frame, or calls, only aborts what lies below. */
  lemma StepKept(P: Program, S: State)
    requires Valid(P, S) && S.status == Running && !AtReturn(P, S)
    ensures var T := Step(P, S);
            && |S.frames| <= |T.frames| <= |S.frames| + 1 && AllKept(S.frames, T.frames, |S.frames| - 1)
            && SameBut(Last(S.frames), T.frames[|S.frames| - 1])
            && (|T.frames| > |S.frames| ==>
               Front(T.frames) == SetPc(S.frames, Last(S.frames).pc + 1) && Last(T.frames).reenter)
  {
    hide GoodProgram, GoodFrames, DoCall, PostCall, FastReturn, Waits;
    TopGood(P, S);
    TopFits(P, S);
    var S1 := S.(frames := SetPc(S.frames, Last(S.frames).pc + 1));
    if TopFn(P, S).code[Last(S.frames).pc].Call? { CallKeeps(P, S1, TopFn(P, S).code[Last(S.frames).pc]); }
    assert forall i | 0 <= i < |S.frames| - 1 :: Front(S1.frames)[i] == S1.frames[i] == S.frames[i];
  }

  lemma CallKeeps(P: Program, S: State, I: Op)
    requires I.Call? && GoodProgram(P) && S.frames != [] && S.off + I.last < |S.stk|
    requires I.from + (if I.gotthis then 1 else 0) <= I.last && S.off + I.from + I.want <= |S.stk|
    ensures var T := DoCall(P, S, I);
            && |S.frames| <= |T.frames| <= |S.frames| + 1 && AllKept(S.frames, T.frames, |S.frames| - 1)
            && SameBut(Last(S.frames), T.frames[|S.frames| - 1])
            && (|T.frames| > |S.frames| ==> Front(T.frames) == S.frames && Last(T.frames).reenter)
  {
    hide GoodProgram, UnderWindow, StartWindow, Overwrite, Resize, CallNative, AllKept;
    SelfKept(S.frames, S.frames, |S.frames| - 1);
    var args := I.last - I.from - (if I.gotthis then 1 else 0);
    var T := S.(stk := S.stk + S.stk[S.off + I.from..S.off + I.last + 1]);
    if S.inputs != [] {
      NativeKeeps(P, T, |S.stk|, args, S.inputs[0]);
    }
    if |DoCall(P, S, I).frames| > |S.frames| {
      var F := Last(DoCall(P, S, I).frames);
      assert DoCall(P, S, I).frames == S.frames + [F];
      SelfKept(S.frames, S.frames + [F], |S.frames| - 1);
    }
  }

  lemma SelfKept(gs: seq<Frame>, fs: seq<Frame>, n: nat)
    requires gs <= fs && n <= |gs|
    ensures AllKept(gs, fs, n)
  {
  }

  lemma NativeKeeps(P: Program, S: State, below: nat, args: nat, o: NatOutcome)
    requires below + args <= |S.stk| && S.frames != []
    ensures var T := CallNative(P, S, below, args, o);
            |T.frames| == |S.frames| && AllKept(S.frames, T.frames, |S.frames| - 1)
                && SameBut(Last(S.frames), Last(T.frames))
  {
    AbortKept(P, S.frames);
    assert S.frames == Front(S.frames) + [Last(S.frames)];
  }

  /** Two states from which returning leaves the same behind. */
  predicate SameReturn(P: Program, T: State, g: Given)
    requires GoodFrames(P, T.frames, T.off, |T.stk|)
  {
    var h := Give(P, T);
    h.rvc == g.rvc && CanLeave(P, h.S, h.rvc) && CanLeave(P, g.S, g.rvc) && Leave(h.S, h.rvc) == Leave(g.S, g.rvc)
  }

  /** A return instruction of a re-entrant frame, as one step of the loop. */
  lemma ReturnStep(P: Program, S: State) returns (h: Given, L: State, U: State)
    requires Valid(P, S) && S.status == Running && AtReturn(P, S) && Last(S.frames).reenter
    ensures h == Give(P, S) && CanLeave(P, h.S, h.rvc) && L == Leave(h.S, h.rvc) && U == Step(P, S)
    ensures U.status == Running && Valid(P, U) && L.frames == Front(S.frames) && L.frames != [] && U.frames == L.frames
    ensures h.rvc <= |L.stk| && GoodFrames(P, L.frames, L.off, |L.stk| - h.rvc)
    ensures var drop := L.(stk := L.stk[..|L.stk| - h.rvc]);
            if Last(L.frames).aborted then EndsNext(P, L) && U == drop
            else
              && Last(L.frames).pc >= 1 && CallOf(P, L).Call?
                 && L.off + CallOf(P, L).from + CallOf(P, L).want <= |L.stk| - h.rvc
              && (U == Assign(L, CallOf(P, L).want, CallOf(P, L).from, h.rvc) || (EndsNext(P, L) && U == drop))
  {
    hide GoodProgram, Assign, PostCall, FastReturn, Waits;
    StepValid(P, S);
    h, U := Give(P, S), Step(P, S);
    TopLies(P, S.frames, S.off, |S.stk|);
    L := Leave(h.S, h.rvc);
    if TopFn(P, S).code[Last(S.frames).pc].Ret1? {
      HasNext(P, S);
      Caller(P, S.frames, S.off, |S.stk|);
      FastIsComplete(P, S, Get(S, TopFn(P, S).code[Last(S.frames).pc].src));
      FastReturnValid(P, S, Get(S, TopFn(P, S).code[Last(S.frames).pc].src));
    } else {
      GoodShrink(P, S.frames, S.off, |S.stk|, |S.stk| - h.rvc);
      Caller(P, S.frames, S.off, |S.stk| - h.rvc);
      PostCallIsComplete(P, S, h.rvc);
      PostCallValid(P, S, h.rvc);
    }
    if !Last(L.frames).aborted { AssignFrame(L, CallOf(P, L).want, CallOf(P, L).from, h.rvc); }
  }

  lemma KeptThen(fs: seq<Frame>, gs: seq<Frame>, hs: seq<Frame>, n: nat)
    requires AllKept(fs, gs, n) && AllKept(gs, hs, n)
    ensures AllKept(fs, hs, n)
  {
    forall i | 0 <= i < n ensures Kept(fs[i], hs[i]) { assert Kept(fs[i], gs[i]) && Kept(gs[i], hs[i]); }
  }

  lemma StepsOne(P: Program, S: State)
    ensures Steps(P, S, 1) == Step(P, S)
  {
    assert Steps(P, Step(P, S), 0) == Step(P, S);
  }

  lemma CallOnly(P: Program, S: State)
    requires Valid(P, S) && S.status == Running && !AtReturn(P, S) && |Step(P, S).frames| > |S.frames|
    ensures S.frames != [] && TopFn(P, S).code[Last(S.frames).pc].Call? && Last(S.frames).pc + 1 < |TopFn(P, S).code|
            && !Last(S.frames).aborted
  {
    TopGood(P, S);
    var I := TopFn(P, S).code[Last(S.frames).pc];
    if I != RetN(0) { HasNext(P, S); }
  }

  /** The frame that waits, if it was not aborted, still names the call it waits in. */
  lemma CallIs(P: Program, S: State, L: State)
    requires GoodFrames(P, S.frames, S.off, |S.stk|) && L.frames != []
             && Last(L.frames) == Last(S.frames).(pc := Last(S.frames).pc + 1)
    requires Last(S.frames).pc + 1 < |TopFn(P, S).code|
    ensures CallOf(P, L) == TopFn(P, S).code[Last(S.frames).pc]
  {
  }

  /** At RETN 0 a function returns nothing, whatever its registers hold. */
  lemma EndsAtReturn(P: Program, S: State)
    requires GoodFrames(P, S.frames, S.off, |S.stk|) && EndsNext(P, S)
    ensures AtReturn(P, S) && Give(P, S) == Given(S, 0) && CanLeave(P, S, 0)
  {
  }

  /** The stackless loop refines recursive calls: if the recursive machine runs a function
      to its return, then the loop reaches a return of the same frame after some number of
      steps, with the same number of values, and returning leaves the same stack, frames and
      window behind.  Registers may differ only where the next instruction is RETN 0. */
  lemma {:induction false} StacklessRefines(P: Program, fuel: nat, S: State) returns (n: nat, T: State)
    requires Recursive(P, fuel, S).Done?
    ensures Valid(P, T) && Steps(P, S, n) == T && T.status == Running && AtReturn(P, T)
    ensures |T.frames| == |S.frames| && AllKept(S.frames, T.frames, |S.frames| - 1)
            && Last(T.frames).reenter == Last(S.frames).reenter
    ensures SameReturn(P, T, Recursive(P, fuel, S).g) && Stays(P, S, |S.frames|, n)
    decreases fuel, 1
  {
    hide GoodProgram, GoodFrames, Step, Give, Leave, Assign, CallOf, Stays;
    var g := Recursive(P, fuel, S).g;
    if AtReturn(P, S) {
      n, T := 0, S;
      GiveFits(P, S);
      StaysNone(P, S);
    } else {
      var T0 := Step(P, S);
      StepKept(P, S);
      StepValid(P, S);
      if |T0.frames| == |S.frames| {
        n, T := StacklessRefines(P, fuel - 1, T0);
        KeptThen(S.frames, T0.frames, T.frames, |S.frames| - 1);
        StaysFirst(P, S, |S.frames|, n);
        n := n + 1;
      } else {
        n, T := StacklessCall(P, fuel, S);
      }
    }
  }

  lemma GiveFits(P: Program, S: State)
    requires Valid(P, S) && AtReturn(P, S)
    ensures SameReturn(P, S, Give(P, S))
  {
  }

  lemma RecursiveCall(P: Program, fuel: nat, S: State) returns (g: Given, L: State, A: State)
    requires Recursive(P, fuel, S).Done? && !AtReturn(P, S) && |Step(P, S).frames| > |S.frames|
    ensures fuel > 0 && S.status == Running && Valid(P, S)
    ensures Recursive(P, fuel - 1, Step(P, S)) == Done(g) && CanLeave(P, g.S, g.rvc) && L == Leave(g.S, g.rvc)
    ensures TopFn(P, S).code[Last(S.frames).pc].Call?
    ensures var I := TopFn(P, S).code[Last(S.frames).pc];
            && g.rvc <= |L.stk| && L.off + I.from + I.want <= |L.stk| - g.rvc && A == Assign(L, I.want, I.from, g.rvc)
            && Recursive(P, fuel, S) == Recursive(P, fuel - 1, A)
  {
    hide GoodProgram, GoodFrames, Step, Give, Leave, Assign;
    CallOnly(P, S);
    var I := TopFn(P, S).code[Last(S.frames).pc];
    g := Recursive(P, fuel - 1, Step(P, S)).g;
    L := Leave(g.S, g.rvc);
    A := Assign(L, I.want, I.from, g.rvc);
  }

  lemma CallKept(ss: seq<Frame>, fs: seq<Frame>, ts: seq<Frame>, us: seq<Frame>, ls: seq<Frame>)
    requires ss != [] && |fs| == |ss| && Front(fs) == Front(ss) && ts != [] && Front(ts) == fs
    requires |us| == |ts| && AllKept(ts, us, |ts| - 1) && ls == Front(us)
    ensures |ls| == |ss| && AllKept(ss, ls, |ss| - 1) && Kept(Last(fs), Last(ls))
  {
    assert forall i | 0 <= i < |fs| :: ts[i] == fs[i];
    assert forall i | 0 <= i < |ss| - 1 :: fs[i] == Front(fs)[i] == ss[i];
  }

  lemma RecursiveReturn(P: Program, fuel: nat, S: State)
    requires Recursive(P, fuel, S).Done?
    ensures S.status == Running && Valid(P, S) && (AtReturn(P, S) ==> Recursive(P, fuel, S) == Done(Give(P, S)))
  {
  }

  /** A script call: the callee by induction, its return, then the rest by induction. */
  lemma {:induction false} StacklessCall(P: Program, fuel: nat, S: State) returns (n: nat, T: State)
    requires Recursive(P, fuel, S).Done? && !AtReturn(P, S) && |Step(P, S).frames| > |S.frames|
    ensures Valid(P, T) && Steps(P, S, n) == T && T.status == Running && AtReturn(P, T)
    ensures |T.frames| == |S.frames| && AllKept(S.frames, T.frames, |S.frames| - 1)
            && Last(T.frames).reenter == Last(S.frames).reenter
    ensures SameReturn(P, T, Recursive(P, fuel, S).g) && Stays(P, S, |S.frames|, n)
    decreases fuel, 0
  {
    hide GoodProgram, GoodFrames, Step, Give, Leave, Assign, CallOf, Recursive, Waits, AtReturn, GoodFrame, Stays;
    var g1, L, A := RecursiveCall(P, fuel, S);
    CallOnly(P, S);
    var F := Last(S.frames);
    var I := TopFn(P, S).code[F.pc];
    var T0 := Step(P, S);
    StepKept(P, S);
    StepValid(P, S);
    RecursiveReturn(P, fuel - 1, T0);
    var fs := SetPc(S.frames, F.pc + 1);
    var n1, T1 := StacklessRefines(P, fuel - 1, T0);
    var h, L1, U := ReturnStep(P, T1);
    assert L1 == L && h.rvc == g1.rvc;
    assert Steps(P, S, n1 + 1) == T1;
    StepsAdd(P, S, n1 + 1, 1);
    assert Steps(P, S, n1 + 2) == U by { StepsOne(P, T1); }
    AssignFrame(L, I.want, I.from, h.rvc);
    CallKept(S.frames, fs, T0.frames, T1.frames, L.frames);
    StaysCall(P, S, n1);
    if !Last(L.frames).aborted { CallIs(P, S, L); }
    if U == A {
      var n2;
      n2, T := StacklessRefines(P, fuel - 1, A);
      StepsAdd(P, S, n1 + 2, n2);
      StaysThen(P, S, |S.frames|, n1 + 2, n2);
      n := n1 + 2 + n2;
      KeptThen(S.frames, L.frames, T.frames, |S.frames| - 1);
    } else {
      n, T := n1 + 2, U;
      EndsAtReturn(P, U);
      RecursiveReturn(P, fuel - 1, A);
      EndsAtReturn(P, A);
      DeadResults(P, L, I.want, I.from, h.rvc);
    }
  }

  /** A call, the callee's run, and its return. */
  lemma StaysCall(P: Program, S: State, n: nat)
    requires |Step(P, S).frames| > |S.frames| && Stays(P, Step(P, S), |Step(P, S).frames|, n)
             && |Steps(P, S, n + 2).frames| >= |S.frames|
    ensures Stays(P, S, |S.frames|, n + 2)
  {
    hide Step;
    var T0, h := Step(P, S), |S.frames|;
    StaysLower(P, T0, |T0.frames|, h, n);
    StaysFirst(P, S, h, n);
    StaysLast(P, S, h, n + 1);
  }

  lemma StaysLower(P: Program, S: State, h: nat, h': nat, n: nat)
    requires Stays(P, S, h, n) && h' <= h
    ensures Stays(P, S, h', n)
  {
    hide Steps;
    forall k: nat | k <= n ensures |Steps(P, S, k).frames| >= h' {
      assert |Steps(P, S, k).frames| >= h;
    }
  }

  lemma StaysLast(P: Program, S: State, h: nat, n: nat)
    requires Stays(P, S, h, n) && |Steps(P, S, n + 1).frames| >= h
    ensures Stays(P, S, h, n + 1)
  {
    hide Steps;
    forall k: nat | k <= n + 1 ensures |Steps(P, S, k).frames| >= h {
      if k <= n { assert |Steps(P, S, k).frames| >= h; }
    }
  }

  /* ---- abort ---- */

  /** Everything from the top frame down to the base of the run has been aborted. */
  predicate AbortedDown(fs: seq<Frame>)
    decreases |fs|
  {
    fs != [] && Last(fs).aborted && (Last(fs).reenter ==> AbortedDown(Front(fs)))
  }

  /** How many frames the run has. */
  function Height(fs: seq<Frame>): (h: nat)
    ensures fs != [] ==> 1 <= h <= |fs|
    decreases |fs|
  {
    if fs == [] then 0 else if Last(fs).reenter && |fs| > 1 then 1 + Height(Front(fs)) else 1
  }

  lemma {:induction false} AbortMarks(P: Program, fs: seq<Frame>, off: nat, top: nat)
    requires GoodProgram(P) && GoodFrames(P, fs, off, top)
    ensures AbortedDown(AbortFrames(P, fs)) && Height(AbortFrames(P, fs)) == Height(fs)
    decreases |fs|
  {
    var F, r := Last(fs), AbortFrames(P, fs);
    assert GoodFn(P.fns[F.fn]);
    assert Front(r) == AbortFrames(P, Front(fs));
    if F.reenter {
      Caller(P, fs, off, top);
      AbortMarks(P, Front(fs), F.stkoff, F.argbeg - 1);
    }
  }

  /** Aborting stops at a native frame: it and everything under it are as they were. */
  lemma {:induction false} AbortStops(P: Program, fs: seq<Frame>, k: nat)
    requires k < |fs| && fs[k].native
    ensures AbortFrames(P, fs)[..k + 1] == fs[..k + 1]
    decreases |fs|
  {
    if k < |fs| - 1 {
      AbortStops(P, Front(fs), k);
      assert AbortFrames(P, fs)[..k + 1] == AbortFrames(P, Front(fs))[..k + 1] || AbortFrames(P, fs) == fs;
    }
  }

  /** From an aborted frame, one step for each frame of the run returns from it with no
      values; the last one leaves the loop, and then the stack is what it was below the call
      that started the run. */
  lemma {:induction false} AbortUnwinds(P: Program, S: State)
    requires Valid(P, S) && S.status == Running && AbortedDown(S.frames)
    ensures var m := Height(S.frames);
            var T, B := Steps(P, S, m), S.frames[|S.frames| - m];
            && T.status == Returned(0) && CanLeave(P, T, 0) && 1 <= B.argbeg <= S.off <= |S.stk|
            && Leave(T, 0) == S.(stk := S.stk[..B.argbeg - 1], off := B.stkoff, frames := S.frames[..|S.frames| - m],
               status := Returned(0))
    decreases |S.frames|
  {
    hide GoodProgram, GoodFrames, PostCall, Waits, Step, Assign;
    var F, m := Last(S.frames), Height(S.frames);
    TopLies(P, S.frames, S.off, |S.stk|);
    AbortedTop(P, S);
    if F.reenter {
      var h, L, U := ReturnStep(P, S);
      AbortedLeave(S);
      AbortUnwinds(P, U);
      AbortedBase(S.frames);
      assert S.stk[..F.argbeg - 1][..S.frames[|S.frames| - m].argbeg - 1]
             == S.stk[..S.frames[|S.frames| - m].argbeg - 1];
    } else {
      StepsOne(P, S);
      var T := Step(P, S);
      AbortedLeave(T);
    }
  }

  lemma AbortedTop(P: Program, S: State)
    requires Valid(P, S) && S.status == Running && Last(S.frames).aborted
    ensures AtReturn(P, S) && Give(P, S) == Given(S, 0) && (Last(S.frames).reenter ==> |S.frames| > 1)
    ensures !Last(S.frames).reenter ==>
            Step(P, S) == S.(frames := SetPc(S.frames, Last(S.frames).pc + 1), status := Returned(0))
  {
    if Last(S.frames).reenter { Caller(P, S.frames, S.off, |S.stk|); }
  }

  lemma AbortedLeave(S: State)
    requires S.frames != [] && 1 <= Last(S.frames).argbeg <= |S.stk|
    ensures Leave(S, 0)
            == S.(stk := S.stk[..Last(S.frames).argbeg - 1], off := Last(S.frames).stkoff, frames := Front(S.frames))
    ensures Leave(S, 0).stk[..|Leave(S, 0).stk|] == Leave(S, 0).stk
  {
    assert S.stk[|S.stk|..] == [];
  }

  lemma AbortedBase(fs: seq<Frame>)
    requires |fs| > 1 && Last(fs).reenter
    ensures var m, below := Height(fs), Front(fs);
            && m == 1 + Height(below) && below[|below| - (m - 1)] == fs[|fs| - m]
            && below[..|below| - (m - 1)] == fs[..|fs| - m]
  {
    hide Height;
    assert Height(fs) == 1 + Height(Front(fs)) by { HeightFront(fs); }
  }

  lemma HeightFront(fs: seq<Frame>)
    requires |fs| > 1 && Last(fs).reenter
    ensures Height(fs) == 1 + Height(Front(fs))
  {
  }

  /** The next instruction calls a native function, and that will say what it does. */
  ghost predicate CallsNative(P: Program, S: State)
    requires Valid(P, S)
  {
    var I := TopFn(P, S).code[Last(S.frames).pc];
    && I.Call? && |S.frames| < MAX_FRAMES && S.inputs != [] && S.off + I.from < |S.stk|
    && var callee := S.stk[S.off + I.from];
      callee.Func? && callee.f < |P.fns| && P.fns[callee.f].Native?
  }

  /** A native call as one step. */
  lemma NativeStep(P: Program, S: State) returns (I: Op, args: nat, T: State, U: State)
    requires Valid(P, S) && S.status == Running && CallsNative(P, S)
    ensures I == TopFn(P, S).code[Last(S.frames).pc] && I.Call? && S.off + I.from + I.want <= |S.stk|
    ensures !Last(S.frames).aborted && GoodFrames(P, SetPc(S.frames, Last(S.frames).pc + 1), S.off, |S.stk|)
    ensures T == S.(stk := S.stk + S.stk[S.off + I.from..S.off + I.last + 1],
            frames := SetPc(S.frames, Last(S.frames).pc + 1))
    ensures |S.stk| + args <= |T.stk| && args == I.last - I.from - (if I.gotthis then 1 else 0)
    ensures U == CallNative(P, T, |S.stk|, args, S.inputs[0]).(inputs := S.inputs[1..]) && U.frames != []
    ensures |U.stk| == |S.stk| + Rvc(S.inputs[0], args) && U.off == S.off
    ensures Step(P, S) == if Last(U.frames).paused then U.(status := Paused(Rvc(S.inputs[0], args)))
                          else Assign(U, I.want, I.from, Rvc(S.inputs[0], args))
  {
    hide GoodProgram, Assign, CallNative, GoodFrame, Waits;
    TopGood(P, S);
    HasNext(P, S);
    I := TopFn(P, S).code[Last(S.frames).pc];
    args := I.last - I.from - (if I.gotthis then 1 else 0);
    GoodPc(P, S.frames, S.off, |S.stk|, Last(S.frames).pc + 1, |S.stk|);
    T := S.(stk := S.stk + S.stk[S.off + I.from..S.off + I.last + 1], frames := SetPc(S.frames, Last(S.frames).pc + 1));
    NativeValid(P, T, |S.stk|, args, S.inputs[0]);
    U := CallNative(P, T, |S.stk|, args, S.inputs[0]).(inputs := S.inputs[1..]);
  }

  /** A native function that aborts, whatever it returns: the run unwinds. */
  lemma AbortedCall(P: Program, S: State)
    requires Valid(P, S) && S.status == Running && CallsNative(P, S) && S.inputs[0].Aborts?
    ensures var T := Step(P, S);
            && T.status == Running && Valid(P, T) && AbortedDown(T.frames)
            && |T.frames| == |S.frames| && Height(T.frames) == Height(S.frames) && T.off == S.off && |T.stk| == |S.stk|
            && forall i | 0 <= i < S.off :: T.stk[i] == S.stk[i]
  {
    hide GoodProgram, GoodFrames, Step, GoodFrame, Waits;
    StepValid(P, S);
    var I, args, T, U := NativeStep(P, S);
    NativeValid(P, T, |S.stk|, args, S.inputs[0]);
    AbortMarks(P, T.frames, S.off, |S.stk|);
    AbortUnpaused(P, T.frames, S.off, |S.stk|);
    HeightPc(S.frames, Last(S.frames).pc + 1);
    AssignFrame(U, I.want, I.from, Rvc(S.inputs[0], args));
    assert U.stk[..|S.stk|] == S.stk;
  }

  lemma AbortUnpaused(P: Program, fs: seq<Frame>, off: nat, top: nat)
    requires GoodProgram(P) && GoodFrames(P, fs, off, top)
    ensures !Last(AbortFrames(P, fs)).paused
  {
    GoodAbort(P, fs, off, top);
  }

  lemma HeightPc(fs: seq<Frame>, pc: nat)
    requires fs != []
    ensures Height(SetPc(fs, pc)) == Height(fs)
  {
  }

  /* ---- coroutines ---- */

  /** The same native call when it does not pause but simply returns the answer. */
  function Plainly(o: NatOutcome): NatOutcome {
    if o.Yields? then Returns(o.answer, |o.answer|) else o
  }

  function PlainAll(inputs: seq<NatOutcome>): seq<NatOutcome> {
    seq(|inputs|, i requires 0 <= i < |inputs| => Plainly(inputs[i]))
  }

  function Uncut(S: State): State {
    S.(inputs := PlainAll(S.inputs))
  }

  /** The host's part: it takes the yielded values, pushes the answer and resumes. */
  ghost function Answer(P: Program, S: State, answer: seq<Val>): State {
    if S.status.Paused? && ValidPaused(P, S, S.status.rvc) then
      Resume(P, S.(stk := S.stk[..|S.stk| - S.status.rvc] + answer), |answer|)
    else S
  }

  /** A step of a run that is chopped wherever a native function pauses. */
  ghost function CutStep(P: Program, S: State): State {
    var T := Step(P, S);
    if T.status.Paused? && S.status == Running && S.inputs != []
        && S.inputs[0].Yields? then Answer(P, T, S.inputs[0].answer) else T
  }

  ghost function CutSteps(P: Program, S: State, n: nat): State
    decreases n
  {
    if n == 0 then S else CutSteps(P, CutStep(P, S), n - 1)
  }

  /** A run that the host started: script frames only, all re-entrant but the first. */
  predicate HostRun(fs: seq<Frame>) {
    AllScript(fs) && forall i | 0 <= i < |fs| :: fs[i].reenter <==> i > 0
  }

  lemma {:induction false} NotAborted(P: Program, fs: seq<Frame>, off: nat, top: nat)
    requires GoodProgram(P) && GoodFrames(P, fs, off, top) && HostRun(fs) && !Last(fs).aborted
    ensures !fs[0].aborted
    decreases |fs|
  {
    if |fs| > 1 {
      Caller(P, fs, off, top);
      NotAborted(P, Front(fs), Last(fs).stkoff, Last(fs).argbeg - 1);
    }
  }

  lemma PlainFirst(inputs: seq<NatOutcome>)
    ensures inputs != [] ==>
            PlainAll(inputs) != [] && PlainAll(inputs)[0] == Plainly(inputs[0])
            && PlainAll(inputs)[1..] == PlainAll(inputs[1..])
  {
  }

  lemma PostCallInputs(P: Program, S: State, rvc: nat, inputs: seq<NatOutcome>)
    requires GoodProgram(P) && rvc <= |S.stk| && GoodFrames(P, S.frames, S.off, |S.stk| - rvc) && Last(S.frames).reenter
    ensures PostCall(P, S.(inputs := inputs), rvc) == PostCall(P, S, rvc).(inputs := inputs)
            && PostCall(P, S, rvc).inputs == S.inputs
  {
    hide GoodProgram, GoodFrames, Waits, Assign;
    TopLies(P, S.frames, S.off, |S.stk| - rvc);
    Caller(P, S.frames, S.off, |S.stk| - rvc);
    var T := Leave(S, rvc);
    assert Leave(S.(inputs := inputs), rvc) == T.(inputs := inputs);
    if !EndsNext(P, T) { AssignUnseen(T, CallOf(P, T).want, CallOf(P, T).from, rvc, inputs); }
  }

  lemma FastReturnInputs(P: Program, S: State, v: Val, inputs: seq<NatOutcome>)
    requires GoodProgram(P) && GoodFrames(P, S.frames, S.off, |S.stk|) && Last(S.frames).reenter
             && !Last(S.frames).aborted
    ensures FastReturn(P, S.(inputs := inputs), v) == FastReturn(P, S, v).(inputs := inputs)
            && FastReturn(P, S, v).inputs == S.inputs
  {
    hide GoodProgram, GoodFrames, Waits, Overwrite;
    Caller(P, S.frames, S.off, |S.stk|);
  }

  lemma AssignUnseen(S: State, want: nat, from: nat, rvc: nat, inputs: seq<NatOutcome>)
    requires rvc <= |S.stk| && S.off + from + want <= |S.stk| - rvc
    ensures Assign(S.(inputs := inputs), want, from, rvc) == Assign(S, want, from, rvc).(inputs := inputs)
    ensures Assign(S, want, from, rvc).inputs == S.inputs
  {
  }

  lemma DoCallInputs(P: Program, S: State, I: Op, inputs: seq<NatOutcome>)
    requires I.Call? && GoodProgram(P) && S.frames != [] && S.off + I.last < |S.stk|
    requires I.from + (if I.gotthis then 1 else 0) <= I.last && S.off + I.from + I.want <= |S.stk|
    requires S.inputs == [] <==> inputs == []
    requires var callee := S.stk[S.off + I.from];
             !(|S.frames| < MAX_FRAMES && S.inputs != [] && callee.Func? && callee.f < |P.fns|
                 && P.fns[callee.f].Native?)
    ensures DoCall(P, S.(inputs := inputs), I) == DoCall(P, S, I).(inputs := inputs)
    ensures DoCall(P, S, I).inputs == S.inputs && (S.status == Running ==> !DoCall(P, S, I).status.Paused?)
  {
    hide GoodProgram, UnderWindow, StartWindow;
  }

  /** Instructions other than native calls do not look at what native calls will do. */
  lemma InputsUnseen(P: Program, S: State, inputs: seq<NatOutcome>)
    requires Valid(P, S) && S.status == Running && !CallsNative(P, S) && (S.inputs == [] <==> inputs == [])
    ensures Step(P, S.(inputs := inputs)) == Step(P, S).(inputs := inputs)
    ensures Step(P, S).inputs == S.inputs && !Step(P, S).status.Paused?
  {
    hide GoodProgram, GoodFrames, PostCall, FastReturn, DoCall;
    TopGood(P, S);
    TopFits(P, S);
    var I := TopFn(P, S).code[Last(S.frames).pc];
    match I
    case Call(_, _, _, _) => DoCallInputs(P, S.(frames := SetPc(S.frames, Last(S.frames).pc + 1)), I, inputs);
    case RetN(k) =>
      if S.off + Width(TopFn(P, S)) + k <= |S.stk| && Last(S.frames).reenter {
        GoodShrink(P, S.frames, S.off, |S.stk|, |S.stk| - k);
        PostCallInputs(P, S, k, inputs);
        PostCallValid(P, S, k);
      }
    case Ret1(src) =>
      if Last(S.frames).reenter {
        HasNext(P, S);
        FastReturnInputs(P, S, Get(S, src), inputs);
        FastReturnValid(P, S, Get(S, src));
      }
    case _ =>
  }

  lemma StepHost(P: Program, S: State)
    requires Valid(P, S) && S.status == Running && HostRun(S.frames)
    ensures var T := Step(P, S); T.status == Running ==> HostRun(T.frames)
  {
    hide GoodProgram, Step, GoodFrames, GoodFrame, Give;
    TopFits(P, S);
    var T := Step(P, S);
    if AtReturn(P, S) {
      if Last(S.frames).reenter {
        var h, L, U := ReturnStep(P, S);
        AssignFrames(S, L, U);
      } else {
        ReturnsAtBase(P, S);
      }
    } else {
      StepKept(P, S);
      forall i | 0 <= i < |S.frames| ensures SameBut(S.frames[i], T.frames[i]) {
        if i < |S.frames| - 1 { assert Kept(S.frames[i], T.frames[i]); }
      }
      if |T.frames| > |S.frames| { CallPushes(P, S); }
    }
  }

  lemma CallPushes(P: Program, S: State)
    requires Valid(P, S) && S.status == Running && |Step(P, S).frames| > |S.frames| && !AtReturn(P, S)
    ensures |Step(P, S).frames| == |S.frames| + 1 && Last(Step(P, S).frames).reenter && !Last(Step(P, S).frames).native
  {
    StepKept(P, S);
    CallOnly(P, S);
  }

  lemma ReturnsAtBase(P: Program, S: State)
    requires Valid(P, S) && S.status == Running && AtReturn(P, S) && !Last(S.frames).reenter
    ensures Step(P, S).status.Returned?
  {
  }

  lemma AssignFrames(S: State, L: State, U: State)
    requires HostRun(S.frames) && |S.frames| > 1 && L.frames == Front(S.frames) && U.frames == L.frames
    ensures HostRun(U.frames)
  {
    assert forall i | 0 <= i < |L.frames| :: L.frames[i] == S.frames[i];
  }

  /** What CALL makes of a native function that returns exactly what it pushed. */
  lemma PlainCall(P: Program, S: State, below: nat, args: nat, answer: seq<Val>)
    requires below + args <= |S.stk| && S.frames != []
    ensures Rvc(Returns(answer, |answer|), args) == |answer|
    ensures CallNative(P, S, below, args, Returns(answer, |answer|)) == S.(stk := S.stk[..below] + answer)
  {
    var all := S.stk[|S.stk| - args..] + answer;
    assert all[|all| - |answer|..] == answer;
  }

  /** What the host's answer makes of a state that has just paused. */
  lemma AnswerIs(P: Program, S: State, answer: seq<Val>)
    requires S.status.Paused? && ValidPaused(P, S, S.status.rvc) && !S.frames[0].aborted
    ensures var I, n := CallOf(P, S), |S.stk| - S.status.rvc;
            && S.off + I.from + I.want <= n
            && Answer(P, S, answer) == Assign(S.(stk := S.stk[..n] + answer), I.want, I.from, |answer|)
                                       .(frames := Front(S.frames) + [Last(S.frames).(paused := false)],
                                           status := Running)
  {
    hide GoodProgram, AllScript, Assign;
  }

  /** A native call that yields leaves its caller past the CALL, paused. */
  lemma YieldStep(P: Program, S: State) returns (I: Op, T: State, X: State)
    requires Valid(P, S) && S.status == Running && HostRun(S.frames) && CallsNative(P, S) && S.inputs[0].Yields?
    ensures I == TopFn(P, S).code[Last(S.frames).pc] && I.Call? && S.off + I.from + I.want <= |S.stk| && X == Step(P, S)
    ensures X.status.Paused? && |X.stk| == |S.stk| + X.status.rvc && X.stk[..|S.stk|] == S.stk && X.off == S.off
    ensures T.frames == SetPc(S.frames, Last(S.frames).pc + 1)
            && X.frames == Front(T.frames) + [Last(T.frames).(paused := true)]
    ensures X.inputs == S.inputs[1..] && ValidPaused(P, X, X.status.rvc) && !X.frames[0].aborted && CallOf(P, X) == I
  {
    hide GoodProgram, GoodFrames, Step, GoodFrame, Waits, Assign, CallNative, CallsNative, Valid, ValidPaused,
        HostRun, AllScript;
    StepValid(P, S);
    UncutCalls(P, S);
    var args, U;
    I, args, T, U := NativeStep(P, S);
    X := Step(P, S);
    NativeValid(P, T, |S.stk|, args, S.inputs[0]);
    HostPauses(P, S, T, |S.stk|, args);
    assert X.stk[..|S.stk|] == T.stk[..|S.stk|] == S.stk;
    NotAborted(P, T.frames, S.off, |S.stk|);
  }

  /** The same call when the native function just returns the answer. */
  lemma PlainStep(P: Program, S: State) returns (U: State)
    requires Valid(P, S) && S.status == Running && CallsNative(P, S) && S.inputs[0].Yields?
    ensures var I, answer := TopFn(P, S).code[Last(S.frames).pc], S.inputs[0].answer;
            && I.Call? && S.off + I.from + I.want <= |S.stk| && S.inputs != []
            && U == S.(stk := S.stk + answer, frames := SetPc(S.frames, Last(S.frames).pc + 1),
               inputs := PlainAll(S.inputs[1..]))
            && Step(P, Uncut(S)) == Assign(U, I.want, I.from, |answer|)
  {
    hide GoodProgram, GoodFrames, Step, GoodFrame, Waits, Assign, CallNative, CallsNative, PlainAll;
    PlainFirst(S.inputs);
    UncutCalls(P, S);
    var I', args', T', U' := NativeStep(P, Uncut(S));
    PlainCall(P, T', |S.stk|, args', S.inputs[0].answer);
    assert T'.stk[..|S.stk|] == S.stk;
    Unpaused(P, S);
    U := U';
  }

  /** A native call that yields, answered by the host, is a native call that returns the answer. */
  lemma YieldAnswered(P: Program, S: State)
    requires Valid(P, S) && S.status == Running && HostRun(S.frames) && CallsNative(P, S) && S.inputs[0].Yields?
    ensures Step(P, S).status.Paused?
    ensures Uncut(Answer(P, Step(P, S), S.inputs[0].answer)) == Step(P, Uncut(S))
    ensures Answer(P, Step(P, S), S.inputs[0].answer).status == Running
  {
    hide GoodProgram, GoodFrames, Step, Assign, Answer, CallsNative, Valid, ValidPaused, HostRun, PlainAll;
    UncutCalls(P, S);
    var answer := S.inputs[0].answer;
    var I, T, X := YieldStep(P, S);
    var U := PlainStep(P, S);
    AnswerIs(P, X, answer);
    var A := X.(stk := S.stk + answer);
    AssignInputs(A, I.want, I.from, |answer|, U);
    assert Front(X.frames) + [Last(X.frames).(paused := false)] == T.frames by {
      Unpaused(P, S);
      UnpauseLast(T.frames);
    }
  }

  lemma Unpaused(P: Program, S: State)
    requires Valid(P, S)
    ensures S.frames != [] && !Last(S.frames).paused && !Last(SetPc(S.frames, Last(S.frames).pc + 1)).paused
  {
  }

  lemma UnpauseLast(fs: seq<Frame>)
    requires fs != [] && !Last(fs).paused
    ensures var gs := Front(fs) + [Last(fs).(paused := true)]; Front(gs) + [Last(gs).(paused := false)] == fs
  {
  }

  lemma UncutCalls(P: Program, S: State)
    requires Valid(P, S) && CallsNative(P, S)
    ensures S.inputs != [] && S.frames != [] && Valid(P, Uncut(S)) && CallsNative(P, Uncut(S))
  {
  }

  lemma HostPauses(P: Program, S: State, T: State, n: nat, args: nat)
    requires HostRun(S.frames) && S.inputs != [] && S.inputs[0].Yields? && S.frames != []
    requires T.frames == SetPc(S.frames, Last(S.frames).pc + 1) && n + args <= |T.stk|
    ensures HostRun(T.frames)
    ensures CallNative(P, T, n, args, S.inputs[0]).frames == Front(T.frames) + [Last(T.frames).(paused := true)]
    ensures T.frames[0].aborted == (Front(T.frames) + [Last(T.frames).(paused := true)])[0].aborted
  {
  }

  lemma AssignInputs(A: State, want: nat, from: nat, rvc: nat, B: State)
    requires rvc <= |A.stk| && A.off + from + want <= |A.stk| - rvc && B.stk == A.stk && B.off == A.off
    ensures var X, Y := Assign(A, want, from, rvc), Assign(B, want, from, rvc);
            X.stk == Y.stk && X.off == Y.off && X.frames == A.frames && Y.frames == B.frames
            && X.inputs == A.inputs && Y.inputs == B.inputs && X.status == A.status && Y.status == B.status
  {
  }

  /** A native call that does not yield is the same with or without cuts. */
  lemma NativeUncut(P: Program, S: State)
    requires Valid(P, S) && S.status == Running && CallsNative(P, S) && !S.inputs[0].Yields?
    ensures Uncut(Step(P, S)) == Step(P, Uncut(S)) && !Step(P, S).status.Paused?
  {
    hide GoodProgram, GoodFrames, Step, GoodFrame, Waits, Assign, CallsNative;
    PlainFirst(S.inputs);
    UncutCalls(P, S);
    var I, args, T, U := NativeStep(P, S);
    var I', args', T', U' := NativeStep(P, Uncut(S));
    NativeValid(P, T, |S.stk|, args, S.inputs[0]);
    AssignUnseen(U, I.want, I.from, Rvc(S.inputs[0], args), PlainAll(S.inputs[1..]));
    AssignFrame(U, I.want, I.from, Rvc(S.inputs[0], args));
  }

  lemma CutStepSame(P: Program, S: State)
    requires Valid(P, S) && S.status == Running && HostRun(S.frames)
    ensures Uncut(CutStep(P, S)) == Step(P, Uncut(S))
    ensures CutStep(P, S).status == Running ==> Valid(P, CutStep(P, S)) && HostRun(CutStep(P, S).frames)
  {
    hide GoodProgram, GoodFrames, Step, GoodFrame, CallsNative, HostRun, Answer;
    StepValid(P, Uncut(S));
    StepHost(P, Uncut(S));
    if CallsNative(P, S) {
      UncutCalls(P, S);
      if S.inputs[0].Yields? { YieldAnswered(P, S); } else { NativeUncut(P, S); }
    } else {
      InputsUnseen(P, S, PlainAll(S.inputs));
    }
  }

  /** Coroutine transparency.  Chop a run wherever a native function pauses, let the host
      take what was yielded and resume with an answer: after every instruction the stack, the
      frames and the results are those of the run in which the same native functions just
      returned the answers. */
  lemma {:induction false} CoroutineTransparent(P: Program, S: State, n: nat)
    requires Valid(P, S) && S.status == Running && HostRun(S.frames)
    ensures Uncut(CutSteps(P, S, n)) == Steps(P, Uncut(S), n)
    decreases n
  {
    hide Valid, Step, CutStep, HostRun;
    if n > 0 {
      CutStepSame(P, S);
      if CutStep(P, S).status == Running { CoroutineTransparent(P, CutStep(P, S), n - 1); }
      else { CutStays(P, CutStep(P, S), n - 1); }
    }
  }

  lemma {:induction false} CutStays(P: Program, S: State, n: nat)
    requires S.status != Running
    ensures CutSteps(P, S, n) == S && Steps(P, Uncut(S), n) == Uncut(S)
    decreases n
  {
    if n > 0 { CutStays(P, S, n - 1); }
  }
}
