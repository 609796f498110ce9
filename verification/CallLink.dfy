/** Where compiled functions meet the call machine: the window that a call sets up is the one
    that the compiled code was numbered for, and when it holds the arguments where that code
    looks for them. */
module CallLink {
  import opened Bytecode
  import opened Source
  import opened Compile
  import opened ExprProof
  import opened StmtProof
  import opened Bounds
  import opened FunctionProof
  import opened SourceFacts
  import CM = CallMachine
  import CP = CallProof

  /** The registers that an instruction reads or writes. */
  predicate RegistersBelow(i: Instr, w: int) {
    match i
    case Ret1(c) => c < w || c >= 256
    case CondJump(_, _, c) => c < w || c >= 256
    case NForPrep(_, c) => 0 <= c && c + 3 < w
    case NForJump(_, c) => 0 <= c && c + 3 < w
    case LoadConst(_, c) => 0 <= c < w
    case Set(a, b) => 0 <= a < w && (b < w || b >= 256)
    case UnI(_, a, b) => 0 <= a < w && (b < w || b >= 256)
    case IncDecI(_, a, b) => 0 <= a < w && (b < w || b >= 256)
    case BinI(_, a, b, c) => 0 <= a < w && (b < w || b >= 256) && (c < w || c >= 256)
    case _ => true
  }

  /** The `this` of a call, if one is passed. */
  function SelfOf(S: CM.State, args: nat, gotthis: bool): CM.Val
    requires args + (if gotthis then 2 else 1) <= |S.stk|
  {
    if gotthis then S.stk[|S.stk| - args - 1] else CM.Null
  }

  /** For every compiled function with `numargs` declared arguments (and `this`, if wanted)
      as its first variables, called with any number of arguments, with or without `this`:
      the callee's window has the size the compiler counted, holds `this`, the arguments and
      nulls in that order, and every register of the code lies inside it. */
  lemma CompiledWindow(lev: nat, vars: seq<FCVar>, body: Stmt, f: CM.Fn, P: CM.Program, S: CM.State, fn: nat,
                       args: nat, gotthis: bool, i: nat)
    requires Wf(body, 0, true) && Depth(body) <= lev && ScopedS(vars, body) && VarsOk(vars)
             && CompFn(lev, vars, body).st.ok
    requires f.Script? && f.numargs + (if f.gotthis then 1 else 0) + f.numtmp == CompFn(lev, vars, body).st.lastreg
    requires CM.GoodProgram(P) && fn < |P.fns| && P.fns[fn] == f
    requires var g := if gotthis then 2 else 1;
             && args + g <= |S.stk| && CM.GoodFrames(P, S.frames, S.off, |S.stk| - args - g)
             && !CM.Last(S.frames).aborted && CM.Last(S.frames).pc >= 1
             && P.fns[CM.Last(S.frames).fn].code[CM.Last(S.frames).pc - 1].Call?
    requires i < |CompFn(lev, vars, body).code|
    ensures var T := CM.Enter(P, S, fn, args, gotthis);
            && CM.Valid(P, T) && |CM.Window(P, T)| == CompFn(lev, vars, body).st.lastreg
            && CM.Window(P, T) == CM.StartWindow(f, SelfOf(S, args, gotthis), S.stk[|S.stk| - args..])
            && T.off + |CM.Window(P, T)| == |T.stk|
    ensures RegistersBelow(CompFn(lev, vars, body).code[i], CompFn(lev, vars, body).st.lastreg)
  {
    FnShape(lev, vars, body);
    var r := CompFn(lev, vars, body);
    assert InstrOk(r.code[i], i, 0, |r.code|, Limits(r.st.lastreg, |r.st.consts|, 0));
    CP.EnterValid(P, S, fn, args, gotthis);
    WindowIs(P, S, f, fn, args, gotthis);
  }

  lemma WindowIs(P: CM.Program, S: CM.State, f: CM.Fn, fn: nat, args: nat, gotthis: bool)
    requires f.Script? && fn < |P.fns| && P.fns[fn] == f && args + (if gotthis then 2 else 1) <= |S.stk|
    requires CM.Valid(P, CM.Enter(P, S, fn, args, gotthis))
    ensures var T := CM.Enter(P, S, fn, args, gotthis);
            && CM.Window(P, T) == CM.StartWindow(f, SelfOf(S, args, gotthis), S.stk[|S.stk| - args..])
            && T.off + |CM.Window(P, T)| == |T.stk|
  {
    hide CM.GoodProgram, CM.UnderWindow;
    var T := CM.Enter(P, S, fn, args, gotthis);
    var argbeg := |S.stk| - args - (if gotthis then 1 else 0);
    var self, a := (if gotthis then S.stk[argbeg] else CM.Null), S.stk[|S.stk| - args..];
    assert T.stk == S.stk[..argbeg] + CM.UnderWindow(f, gotthis, self, a) + CM.StartWindow(f, self, a);
  }

  /* ---- arguments and parameters ---- */

  /** A stretch of the value stack as the compiled code sees it. */
  function Seen(val: CM.Val -> Value, w: seq<CM.Val>): (r: seq<Value>)
    ensures |r| == |w| && forall i | 0 <= i < |w| :: r[i] == val(w[i])
  {
    seq(|w|, i requires 0 <= i < |w| => val(w[i]))
  }

  /** The declared parameters, and `this` in front of them if the function uses it. */
  function Params(f: CM.Fn): nat
    requires f.Script?
  {
    f.numargs + (if f.gotthis then 1 else 0)
  }

  /** What a call passes to each of them: missing arguments are null, surplus ones nobody's. */
  function Passed(f: CM.Fn, self: CM.Val, args: seq<CM.Val>): (r: seq<CM.Val>)
    requires f.Script?
    ensures |r| == Params(f)
  {
    (if f.gotthis then [self] else []) + seq(f.numargs, i requires 0 <= i => if i < |args| then args[i] else CM.Null)
  }

  /** The store of a function that has just been called: parameters have their arguments'
      values, other variables none. */
  function Bind(vars: seq<FCVar>, vs: seq<Value>): Store
    requires |vs| <= |vars|
    decreases |vs|
  {
    if vs == [] then map[] else Bind(vars[1..], vs[1..])[vars[0].name := vs[0]]
  }

  lemma {:induction false} BindAt(vars: seq<FCVar>, vs: seq<Value>, k: nat)
    requires Plain(vars) && |vs| <= |vars| && k < |vars|
    ensures Get(Bind(vars, vs), vars[k].name) == if k < |vs| then vs[k] else Null
    decreases |vs|
  {
    if vs != [] {
      PlainRest(vars);
      if k > 0 { BindAt(vars[1..], vs[1..], k - 1); }
    }
  }

  lemma PlainRest(vars: seq<FCVar>)
    requires Plain(vars) && vars != []
    ensures Plain(vars[1..]) && forall k | 1 <= k < |vars| ::
            vars[k] == vars[1..][k - 1] && vars[k].name != vars[0].name
  {
    hide IsHidden;
  }

  lemma StartWindowAt(f: CM.Fn, self: CM.Val, args: seq<CM.Val>, r: nat)
    requires f.Script? && r < CM.Width(f)
    ensures CM.StartWindow(f, self, args)[r] == if r < Params(f) then Passed(f, self, args)[r] else CM.Null
  {
    var n := CM.Min(|args|, f.numargs);
    var head, rest := if f.gotthis then [self] else [], args[..n] + CM.Nulls(f.numargs - n + f.numtmp);
    assert CM.StartWindow(f, self, args) == head + rest;
    if r >= |head| { assert rest[r - |head|] == if r - |head| < n then args[r - |head|] else CM.Null; }
  }

  /** In the callee's registers, as the call of function `fn` leaves them, every variable has
      the value that it should have: a parameter its argument's, any other null. */
  ghost predicate ArgumentsArrive(P: CM.Program, fn: nat, vars: seq<FCVar>, val: CM.Val -> Value, S: CM.State,
                          args: nat, gotthis: bool)
    requires fn < |P.fns| && P.fns[fn].Script? && Params(P.fns[fn]) <= |vars|
             && args + (if gotthis then 2 else 1) <= |S.stk|
  {
    var f, T := P.fns[fn], CM.Enter(P, S, fn, args, gotthis);
    var self := SelfOf(S, args, gotthis);
    Rel(Expand(vars), Bind(vars, Seen(val, Passed(f, self, S.stk[|S.stk| - args..]))), Seen(val, T.stk[T.off..]))
  }

  lemma ArriveInWindow(P: CM.Program, fn: nat, vars: seq<FCVar>, val: CM.Val -> Value, S: CM.State, args: nat,
                       gotthis: bool)
    requires fn < |P.fns| && P.fns[fn].Script? && Params(P.fns[fn]) <= |vars|
             && args + (if gotthis then 2 else 1) <= |S.stk|
    ensures var f := P.fns[fn];
            var self, a := SelfOf(S, args, gotthis), S.stk[|S.stk| - args..];
            ArgumentsArrive(P, fn, vars, val, S, args, gotthis)
            <==> Rel(Expand(vars), Bind(vars, Seen(val, Passed(f, self, a))), Seen(val, CM.StartWindow(f, self, a)))
  {
    hide Rel, Expand, Bind, CM.UnderWindow, CM.StartWindow;
    var T := CM.Enter(P, S, fn, args, gotthis);
    var f := P.fns[fn];
    var self, a := SelfOf(S, args, gotthis), S.stk[|S.stk| - args..];
    assert T.stk[T.off..] == CM.StartWindow(f, self, a);
  }

  /** No parameter but the last one is the variable of a numeric loop. */
  predicate NoLoopBetween(vars: seq<FCVar>, params: nat)
    requires params <= |vars|
  {
    forall i | 0 <= i < params - 1 :: !vars[i].numfor
  }

  lemma BoundRel(f: CM.Fn, vars: seq<FCVar>, val: CM.Val -> Value, self: CM.Val, args: seq<CM.Val>)
    requires f.Script? && Plain(vars) && Params(f) <= |vars| && |Expand(vars)| <= CM.Width(f) && val(CM.Null) == Null
    requires NoLoopBetween(vars, Params(f))
    ensures Rel(Expand(vars), Bind(vars, Seen(val, Passed(f, self, args))), Seen(val, CM.StartWindow(f, self, args)))
  {
    hide Find, IsHidden, Expand, Bind, CM.StartWindow;
    var all, vs, regs := Expand(vars), Seen(val, Passed(f, self, args)), Seen(val, CM.StartWindow(f, self, args));
    forall x | !IsHidden(x) && Find(all, x) >= 0 ensures Get(Bind(vars, vs), x) == regs[Find(all, x)] {
      if Find(vars, x) < 0 { ExpandOnly(vars, x); }
      var k := Find(vars, x);
      BindAt(vars, vs, k);
      ExpandPlace(vars, k);
      StartWindowAt(f, self, args, Find(all, x));
      if k < Params(f) { InsertedNone(vars, k); }
    }
  }

  /** A call that passes `v` to parameter `k`, and null to the others. */
  function OnlySelf(f: CM.Fn, k: nat, v: CM.Val): CM.Val
    requires f.Script?
  {
    if f.gotthis && k == 0 then v else CM.Null
  }

  function OnlyArg(f: CM.Fn, k: nat, v: CM.Val): seq<CM.Val>
    requires f.Script?
  {
    seq(f.numargs, i => if i == k - (Params(f) - f.numargs) then v else CM.Null)
  }

  /** Hidden registers start out as null. */
  lemma {:induction false} BoundTracks(f: CM.Fn, vars: seq<FCVar>, val: CM.Val -> Value, self: CM.Val,
                                       args: seq<CM.Val>)
    requires f.Script? && Plain(vars) && Params(f) <= |vars| && |Expand(vars)| <= CM.Width(f) && val(CM.Null) == Null
    requires NoLoopBetween(vars, Params(f))
    ensures Tracks(Expand(vars), Bind(vars, Seen(val, Passed(f, self, args))), Seen(val, CM.StartWindow(f, self, args)))
  {
    hide Find, IsHidden, Expand, Bind, CM.StartWindow, Hid;
    var all, vs, regs := Expand(vars), Seen(val, Passed(f, self, args)), Seen(val, CM.StartWindow(f, self, args));
    forall x | ScopedNum(all, x) && HasHidden(all, Find(all, x))
      ensures TracksAt(Bind(vars, vs), regs, x, Find(all, x))
    {
      if Find(vars, x) < 0 { ExpandOnly(vars, x); }
      var k := Find(vars, x);
      ExpandPlace(vars, k);
      InsertedNone(vars, k);
      forall j | 1 <= j <= 3 ensures regs[Find(all, x) + j] == Null && Get(Bind(vars, vs), Hid(x, j)) == Null {
        StartWindowAt(f, self, args, Find(all, x) + j);
        HidApart(x, j, x, j);
        BindNone(vars, vs, Hid(x, j));
      }
    }
  }

  lemma {:induction false} BindNone(vars: seq<FCVar>, vs: seq<Value>, y: Name)
    requires Plain(vars) && |vs| <= |vars| && IsHidden(y)
    ensures Get(Bind(vars, vs), y) == Null
    decreases |vs|
  {
    hide IsHidden;
    if vs != [] {
      PlainRest(vars);
      BindNone(vars[1..], vs[1..], y);
    }
  }

  /** If a loop variable stands before parameter `k`, a call whose only argument that is not
      null is that parameter's goes wrong. */
  lemma ParameterLost(f: CM.Fn, vars: seq<FCVar>, val: CM.Val -> Value, v: CM.Val, k: nat)
    requires f.Script? && Plain(vars) && k < Params(f) <= |vars| && |Expand(vars)| <= CM.Width(f)
             && val(CM.Null) == Null != val(v)
    requires Inserted(vars, k) > 0
    ensures var self, args := OnlySelf(f, k, v), OnlyArg(f, k, v);
            !Rel(Expand(vars), Bind(vars, Seen(val, Passed(f, self, args))), Seen(val, CM.StartWindow(f, self, args)))
  {
    hide Expand, Bind, CM.StartWindow;
    var self, args := OnlySelf(f, k, v), OnlyArg(f, k, v);
    var r := k + Inserted(vars, k);
    ExpandPlace(vars, k);
    BindAt(vars, Seen(val, Passed(f, self, args)), k);
    StartWindowAt(f, self, args, r);
  }

  /** Whatever is passed, the arguments arrive where the compiled code looks for the
      parameters, exactly if no parameter but the last one is the variable of a numeric loop. */
  lemma ArgumentsArriveExactly(P: CM.Program, fn: nat, vars: seq<FCVar>, val: CM.Val -> Value, v: CM.Val)
    requires fn < |P.fns| && P.fns[fn].Script? && Plain(vars) && Params(P.fns[fn]) <= |vars|
             && |Expand(vars)| <= CM.Width(P.fns[fn])
    requires val(CM.Null) == Null != val(v)
    ensures (forall S: CM.State, args: nat, gotthis | args + (if gotthis then 2 else 1) <= |S.stk| ::
               ArgumentsArrive(P, fn, vars, val, S, args, gotthis))
            <==> NoLoopBetween(vars, Params(P.fns[fn]))
  {
    hide ArgumentsArrive, Rel, Expand, Bind, CM.StartWindow;
    var f := P.fns[fn];
    if NoLoopBetween(vars, Params(f)) {
      forall S: CM.State, args: nat, gotthis | args + (if gotthis then 2 else 1) <= |S.stk|
        ensures ArgumentsArrive(P, fn, vars, val, S, args, gotthis)
      {
        ArriveInWindow(P, fn, vars, val, S, args, gotthis);
        BoundRel(f, vars, val, SelfOf(S, args, gotthis), S.stk[|S.stk| - args..]);
      }
    } else {
      var i :| 0 <= i < Params(f) - 1 && vars[i].numfor;
      var k := i + 1;
      InsertedNone(vars, k);
      ParameterLost(f, vars, val, v, k);
      var self, args := OnlySelf(f, k, v), OnlyArg(f, k, v);
      var S := CM.State([CM.Func(fn), self] + args, 0, [], [], CM.Running);
      assert S.stk[|S.stk| - |args|..] == args && S.stk[|S.stk| - |args| - 1] == self;
      ArriveInWindow(P, fn, vars, val, S, |args|, true);
    }
  }

  /** For example, in `function(i, b)` with a loop `for i : (...)` the compiled code reads `b`
      from register 4, and the caller has put it into register 1. */
  lemma SecondParameterLost()
    ensures var vars, f := [FCVar("i", true), FCVar("b", false)], CM.Script([CM.RetN(0)], 2, false, 3);
            var w := CM.StartWindow(f, CM.Null, [CM.Data(1), CM.Data(2)]);
            Find(Expand(vars), "b") == 4 && w[1] == CM.Data(2) && w[4] == CM.Null
  {
    var vars := [FCVar("i", true), FCVar("b", false)];
    assert vars[1..] == [vars[1]] && vars[1..][1..] == [];
    assert Expand(vars[1..]) == [vars[1]];
    assert Expand(vars) == [vars[0]] + NUM_HIDDEN + [vars[1]];
    FindAt(Expand(vars), 4);
  }

  /** Calls of compiled functions are correct: the words that the VM starts to run in the
      window of the call do what the body does from the store that binds the parameters to
      the arguments. */
  lemma CallCorrect(m: LoopMode, ops: Ops, lev: nat, vars: seq<FCVar>, body: Stmt, pre: seq<Instr>, fuel: nat,
                    P: CM.Program, S: CM.State, fn: nat, args: nat, gotthis: bool, val: CM.Val -> Value)
    returns (n: nat, c: Config)
    requires Plain(vars) && Wf(body, 0, true) && Depth(body) <= lev && ScopedS(Expand(vars), body)
    requires m == Own ==> NoReuse(body)
    requires var fnc := CompFn(lev, Expand(vars), body);
             fnc.st.ok && IsPrefix(pre) && |Assemble(pre, fnc.code)| <= MAX_CODE
             && fn < |P.fns| && P.fns[fn].Script? && CM.Width(P.fns[fn]) == fnc.st.lastreg
    requires Params(P.fns[fn]) <= |vars| && NoLoopBetween(vars, Params(P.fns[fn])) && val(CM.Null) == Null
    requires args + (if gotthis then 2 else 1) <= |S.stk|
    ensures var f, T := P.fns[fn], CM.Enter(P, S, fn, args, gotthis);
            var self, a := SelfOf(S, args, gotthis), S.stk[|S.stk| - args..];
            Agrees(Loaded(ops, pre, CompFn(lev, Expand(vars), body)), Expand(vars), fuel,
                   Run(m, ops, fuel, body, Bind(vars, Seen(val, Passed(f, self, a)))), Seen(val, T.stk[T.off..]), n, c)
  {
    hide CompFn, Rel, Tracks, Expand, Bind, Run, Agrees, ScopedS, NoReuse, CM.StartWindow, CM.UnderWindow, IsPrefix,
        Assemble, Loaded;
    var f, T := P.fns[fn], CM.Enter(P, S, fn, args, gotthis);
    var self, a := SelfOf(S, args, gotthis), S.stk[|S.stk| - args..];
    ExpandOk(vars);
    WidthFits(lev, Expand(vars), body);
    BoundRel(f, vars, val, self, a);
    BoundTracks(f, vars, val, self, a);
    assert T.stk[T.off..] == CM.StartWindow(f, self, a);
    n, c := CompileCorrect(m, ops, lev, Expand(vars), body, pre, fuel, Bind(vars, Seen(val, Passed(f, self, a))),
        Seen(val, T.stk[T.off..]));
  }

  lemma WidthFits(lev: nat, vars: seq<FCVar>, body: Stmt)
    requires Wf(body, 0, true) && Depth(body) <= lev && CompFn(lev, vars, body).st.ok
    ensures |vars| <= CompFn(lev, vars, body).st.lastreg <= 255
  {
    hide CompFn;
    FnFacts(lev, vars, body);
  }
}
