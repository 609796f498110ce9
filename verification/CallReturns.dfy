/** The other half of the refinement: whenever the loop without recursion reaches a return of
    the frame it started in, the recursive machine returns too.  Together with
    CallProof.StacklessRefines: both return for the same functions, and with the same results. */
module CallReturns {
  import opened CallMachine
  import opened CallProof

  /** After `n` steps the run is at a return of the frame it started in, and has not left that
      frame on the way. */
  ghost predicate ReturnsAt(P: Program, S: State, n: nat) {
    var T := Steps(P, S, n);
    && T.status == Running && Valid(P, T) && |T.frames| == |S.frames| && AtReturn(P, T) && Stays(P, S, |S.frames|, n)
  }

  /* ---- single steps ---- */

  /** From a return the next step leaves the frame, or ends the run. */
  lemma ReturnLeaves(P: Program, S: State)
    requires Valid(P, S) && S.status == Running && AtReturn(P, S)
    ensures Step(P, S).status != Running || |Step(P, S).frames| < |S.frames|
  {
    if Last(S.frames).reenter { var h, L, U := ReturnStep(P, S); } else { ReturnsAtBase(P, S); }
  }

  /** Only a return leaves a frame, and only that one. */
  lemma OnlyReturns(P: Program, S: State)
    requires Valid(P, S) && S.status == Running && Step(P, S).status == Running && |Step(P, S).frames| < |S.frames|
    ensures AtReturn(P, S) && |Step(P, S).frames| == |S.frames| - 1
  {
    hide Step, GoodProgram, GoodFrames, Give;
    if AtReturn(P, S) {
      if Last(S.frames).reenter { var h, L, U := ReturnStep(P, S); } else { ReturnsAtBase(P, S); }
    } else {
      StepKept(P, S);
    }
  }

  /** A RETN that finds too little on the stack stops the machine. */
  lemma StuckReturn(P: Program, S: State)
    requires Valid(P, S) && S.status == Running && !AtReturn(P, S) && Step(P, S).status == Running
    ensures !TopFn(P, S).code[Last(S.frames).pc].RetN?
  {
    hide PostCall, FastReturn, DoCall, GoodFrame, Waits, GoodProgram;
  }

  lemma {:induction false} StepsLater(P: Program, S: State, n: nat)
    ensures Steps(P, S, n + 1) == Step(P, Steps(P, S, n))
  {
    StepsAdd(P, S, n, 1);
    StepsOne(P, Steps(P, S, n));
  }

  /** A run that is running has been running, and well-formed. */
  lemma {:induction false} RunningBefore(P: Program, S: State, k: nat, n: nat)
    requires Valid(P, S) && Steps(P, S, n).status == Running && k <= n
    ensures Steps(P, S, k).status == Running && Valid(P, Steps(P, S, k))
    decreases k
  {
    hide Step, Valid;
    if Steps(P, S, k).status != Running { StoppedStays(P, S, k, n); }
    if k > 0 {
      StepsLater(P, S, k - 1);
      RunningBefore(P, S, k - 1, n);
      StepValid(P, Steps(P, S, k - 1));
    }
  }

  lemma {:induction false} StoppedStays(P: Program, S: State, k: nat, n: nat)
    requires k <= n && Steps(P, S, k).status != Running
    ensures Steps(P, S, n).status != Running
    decreases n
  {
    hide Step, Steps;
    if k < n {
      StepsLater(P, S, n - 1);
      StoppedStays(P, S, k, n - 1);
      StepStopped(P, Steps(P, S, n - 1));
    }
  }

  lemma StepStopped(P: Program, S: State)
    requires S.status != Running
    ensures Step(P, S) == S
  {
  }

  /* ---- where the run returns ---- */

  /** A run that has left its frame was at the return of that frame. */
  lemma FindReturn(P: Program, S: State, m: nat) returns (j: nat)
    requires Valid(P, S) && Steps(P, S, m).status == Running && |Steps(P, S, m).frames| < |S.frames|
    ensures j < m && ReturnsAt(P, S, j)
  {
    hide Step, Steps, Stays, Valid, AtReturn;
    var h := |S.frames|;
    j := 0;
    StaysNone(P, S);
    assert Steps(P, S, 0) == S by { StepsNone(P, S); }
    while |Steps(P, S, j + 1).frames| >= h
      invariant j < m && Stays(P, S, h, j)
      decreases m - j
    {
      StaysLast(P, S, h, j);
      j := j + 1;
    }
    RunningBefore(P, S, j, m);
    RunningBefore(P, S, j + 1, m);
    StepsLater(P, S, j);
    StaysAt(P, S, h, j, j);
    OnlyReturns(P, Steps(P, S, j));
  }

  lemma StepsNone(P: Program, S: State)
    ensures Steps(P, S, 0) == S
  {
  }

  lemma StaysAt(P: Program, S: State, h: nat, n: nat, k: nat)
    requires Stays(P, S, h, n) && k <= n
    ensures |Steps(P, S, k).frames| >= h
  {
    hide Steps;
  }

  /** It does so once. */
  lemma ReturnsOnce(P: Program, S: State, m: nat, n: nat)
    requires ReturnsAt(P, S, m) && ReturnsAt(P, S, n)
    ensures m == n
  {
    ReturnsFirst(P, S, m, n);
    ReturnsFirst(P, S, n, m);
  }

  lemma ReturnsFirst(P: Program, S: State, m: nat, n: nat)
    requires ReturnsAt(P, S, m) && ReturnsAt(P, S, n)
    ensures n <= m
  {
    hide Step, Steps, Stays, AtReturn, Valid;
    StepsLater(P, S, m);
    ReturnLeaves(P, Steps(P, S, m));
    if m < n {
      if Steps(P, S, m + 1).status != Running {
        StoppedStays(P, S, m + 1, n);
      } else {
        StaysAt(P, S, |S.frames|, n, m + 1);
      }
    }
  }

  /** Fuel left over changes nothing. */
  lemma {:induction false} MoreFuel(P: Program, f: nat, f': nat, S: State)
    requires f <= f' && Recursive(P, f, S).Done?
    ensures Recursive(P, f', S) == Recursive(P, f, S)
    decreases f
  {
    hide Step, AtReturn, Give, Leave, Assign, GoodFrames, GoodProgram;
    RecursiveReturn(P, f, S);
    TopFits(P, S);
    if !AtReturn(P, S) {
      var T := Step(P, S);
      if |T.frames| == |S.frames| || !TopFn(P, S).code[Last(S.frames).pc].Call? {
        MoreFuel(P, f - 1, f' - 1, T);
      } else {
        var g := Recursive(P, f - 1, T).g;
        MoreFuel(P, f - 1, f' - 1, T);
        var L, I := Leave(g.S, g.rvc), TopFn(P, S).code[Last(S.frames).pc];
        MoreFuel(P, f - 1, f' - 1, Assign(L, I.want, I.from, g.rvc));
      }
    }
  }

  /** The run from the next step on. */
  lemma ReturnsNext(P: Program, S: State, n: nat, m: nat)
    requires ReturnsAt(P, S, n) && m <= n && |Steps(P, S, m).frames| == |S.frames|
    ensures ReturnsAt(P, Steps(P, S, m), n - m)
  {
    hide Step, Steps, AtReturn, Valid;
    StepsAdd(P, S, m, n - m);
    forall k: nat | k <= n - m ensures |Steps(P, Steps(P, S, m), k).frames| >= |S.frames| {
      StepsAdd(P, S, m, k);
    }
  }

  /* ---- the recursive machine returns too ---- */

  /** If the loop reaches a return of the frame after `n` steps, the recursive machine returns
      with at most one more unit of fuel. */
  lemma {:induction false} LoopReturns(P: Program, S: State, n: nat)
    requires Valid(P, S) && S.status == Running && ReturnsAt(P, S, n)
    ensures Recursive(P, n + 1, S).Done?
    decreases n, 2
  {
    hide Step, Steps, Stays, Give, Leave, Assign, GoodFrames, GoodProgram, AtReturn;
    TopFits(P, S);
    if !AtReturn(P, S) {
      NotYet(P, S, n);
      var T := Step(P, S);
      StepKept(P, S);
      StuckReturn(P, S);
      if |T.frames| == |S.frames| {
        StepsOne(P, S);
        ReturnsNext(P, S, n, 1);
        StepValid(P, S);
        LoopReturns(P, T, n - 1);
      } else {
        CallOnly(P, S);
        CallReturned(P, S, n);
      }
    }
  }

  lemma NotYet(P: Program, S: State, n: nat)
    requires Valid(P, S) && ReturnsAt(P, S, n) && !AtReturn(P, S)
    ensures n > 0 && Step(P, S).status == Running
  {
    hide Step, Stays, AtReturn, Valid;
    if n > 0 {
      StepsOne(P, S);
      RunningBefore(P, S, 1, n);
    }
  }

  /** A call: the callee's run to its return, the return, and the rest. */
  lemma {:induction false} CallReturned(P: Program, S: State, n: nat)
    requires Valid(P, S) && S.status == Running && ReturnsAt(P, S, n) && n > 0 && !AtReturn(P, S)
    requires Step(P, S).status == Running && |Step(P, S).frames| > |S.frames|
             && TopFn(P, S).code[Last(S.frames).pc].Call?
    ensures Recursive(P, n + 1, S).Done?
    decreases n, 1
  {
    hide Step, Steps, Stays, Give, Leave, Assign, GoodFrames, GoodProgram, AtReturn, CallOf, Waits, Recursive;
    TopFits(P, S);
    var I, T0 := TopFn(P, S).code[Last(S.frames).pc], Step(P, S);
    StepKept(P, S);
    StepValid(P, S);
    StepsFrom(P, S, n);
    var j := FindReturn(P, T0, n - 1);
    LoopReturns(P, T0, j);
    MoreFuel(P, j + 1, n, T0);
    var g := Recursive(P, n, T0).g;
    var k, T1 := StacklessRefines(P, n, T0);
    StacklessAt(P, T0, k, j, T1);
    var h, L, U := ReturnStep(P, T1);
    CallerWindow(P, S, T1, L, h.rvc);
    AfterCall(P, S, n, j, T1, h.rvc, L, U);
    UnfoldCall(P, S, n, g, L);
  }

  lemma StepsFrom(P: Program, S: State, n: nat)
    requires n > 0
    ensures Steps(P, S, n) == Steps(P, Step(P, S), n - 1)
  {
  }

  lemma StacklessAt(P: Program, S: State, k: nat, j: nat, T: State)
    requires ReturnsAt(P, S, j) && Steps(P, S, k) == T && T.status == Running && Valid(P, T) && AtReturn(P, T)
    requires |T.frames| == |S.frames| && Stays(P, S, |S.frames|, k)
    ensures T == Steps(P, S, j)
  {
    hide Step, Steps, Stays, AtReturn, Valid;
    ReturnsOnce(P, S, k, j);
  }

  /** When the callee has returned, the caller's window is still there for the results. */
  lemma CallerWindow(P: Program, S: State, T: State, L: State, rvc: nat)
    requires Valid(P, S) && S.status == Running && !AtReturn(P, S) && |Step(P, S).frames| > |S.frames|
    requires |T.frames| == |Step(P, S).frames| && AllKept(Step(P, S).frames, T.frames, |T.frames| - 1)
             && L.frames == Front(T.frames)
    requires L.frames != [] && rvc <= |L.stk| && GoodFrames(P, L.frames, L.off, |L.stk| - rvc)
    ensures var I := TopFn(P, S).code[Last(S.frames).pc];
            && I.Call? && L.off + I.from + I.want <= |L.stk| - rvc && |L.frames| == |S.frames|
            && (!Last(L.frames).aborted ==> Last(L.frames).pc >= 1 && CallOf(P, L) == I)
  {
    hide Step, Give, GoodFrames, GoodProgram, Waits;
    StepKept(P, S);
    CallOnly(P, S);
    TopGood(P, S);
    TopFits(P, S);
    TopFits(P, L.(stk := L.stk[..|L.stk| - rvc]));
    CallKept(S.frames, SetPc(S.frames, Last(S.frames).pc + 1), Step(P, S).frames, T.frames, L.frames);
    if !Last(L.frames).aborted { CallIs(P, S, L); }
  }

  /** The recursive machine goes on as the loop does, or is at the caller's RETN 0. */
  lemma {:induction false} AfterCall(P: Program, S: State, n: nat, j: nat, T: State, rvc: nat, L: State, U: State)
    requires Valid(P, S) && S.status == Running && ReturnsAt(P, S, n) && j + 2 <= n
             && Step(P, Steps(P, Step(P, S), j)) == U
    requires U.status == Running && Valid(P, U) && U.frames == L.frames && |L.frames| == |S.frames| && L.frames != []
    requires rvc <= |L.stk| && GoodFrames(P, L.frames, L.off, |L.stk| - rvc)
             && TopFn(P, S).code[Last(S.frames).pc].Call?
    requires var I, drop := TopFn(P, S).code[Last(S.frames).pc], L.(stk := L.stk[..|L.stk| - rvc]);
             && L.off + I.from + I.want <= |L.stk| - rvc
             && (U == Assign(L, I.want, I.from, rvc) || (EndsNext(P, L) && U == drop))
    ensures var I := TopFn(P, S).code[Last(S.frames).pc]; Recursive(P, n, Assign(L, I.want, I.from, rvc)).Done?
    decreases n, 0
  {
    hide Step, Steps, Stays, Give, Leave, Assign, GoodFrames, GoodProgram, AtReturn, CallOf, Recursive;
    TopFits(P, S);
    var I := TopFn(P, S).code[Last(S.frames).pc];
    var A := Assign(L, I.want, I.from, rvc);
    AssignFrame(L, I.want, I.from, rvc);
    StepsLater(P, Step(P, S), j);
    StepsFrom(P, S, j + 2);
    if U == A {
      ReturnsNext(P, S, n, j + 2);
      LoopReturns(P, A, n - j - 2);
      MoreFuel(P, n - j - 1, n, A);
    } else {
      EndsAtReturn(P, A);
      RecursiveAt(P, n, A);
    }
  }

  lemma RecursiveAt(P: Program, f: nat, S: State)
    requires f > 0 && S.status == Running && Valid(P, S) && AtReturn(P, S)
    ensures Recursive(P, f, S) == Done(Give(P, S))
  {
    hide Give, GoodFrames, GoodProgram;
  }

  lemma UnfoldCall(P: Program, S: State, f: nat, g: Given, L: State)
    requires Valid(P, S) && S.status == Running && !AtReturn(P, S) && |Step(P, S).frames| > |S.frames|
    requires Recursive(P, f, Step(P, S)) == Done(g) && CanLeave(P, g.S, g.rvc) && L == Leave(g.S, g.rvc)
    requires var I := TopFn(P, S).code[Last(S.frames).pc];
             && I.Call? && g.rvc <= |L.stk| && L.off + I.from + I.want <= |L.stk| - g.rvc
             && Recursive(P, f, Assign(L, I.want, I.from, g.rvc)).Done?
    ensures Recursive(P, f + 1, S).Done?
  {
    hide Step, Give, Leave, Assign, GoodFrames, GoodProgram, AtReturn;
  }

  /** The loop without recursion and the recursive machine return for the same functions; then
      they hand over as many values, and returning leaves the same stack, frames and window. */
  lemma LoopIsRecursion(P: Program, S: State)
    requires Valid(P, S) && S.status == Running
    ensures (exists f: nat :: Recursive(P, f, S).Done?) <==> (exists n: nat :: ReturnsAt(P, S, n))
    ensures forall f: nat, n: nat :: Recursive(P, f, S).Done? && ReturnsAt(P, S, n) ==>
            SameReturn(P, Steps(P, S, n), Recursive(P, f, S).g)
  {
    hide Step, Steps, Stays, AtReturn, GoodFrames, GoodProgram, Recursive, SameReturn;
    if f: nat :| Recursive(P, f, S).Done? {
      var k, T := StacklessRefines(P, f, S);
      assert ReturnsAt(P, S, k);
    }
    if n: nat :| ReturnsAt(P, S, n) {
      LoopReturns(P, S, n);
      assert Recursive(P, n + 1, S).Done?;
    }
    forall f: nat, n: nat | Recursive(P, f, S).Done? && ReturnsAt(P, S, n)
        ensures SameReturn(P, Steps(P, S, n), Recursive(P, f, S).g) {
      var k, T := StacklessRefines(P, f, S);
      ReturnsOnce(P, S, k, n);
    }
  }
}
