/** The bytecode generator as it runs: one pass over the function's statements, appending to
    the code, patching it in place, and moving the register watermark, the pending list of
    breaks and the deferred statements of the function context.  Every method leaves the
    context as the specification in Compile.dfy says, or reports an error exactly when the
    specification does. */
module CodeGen {
  import opened Bytecode
  import opened Source
  import opened Compile
  import opened CompileFacts
  import opened ExitProof
  import opened Pending
  import opened FunctionProof

  /* ---- what a statement of the specification sees of the function context ---- */

  /** A deferred statement is compiled in the middle of another one and sees nothing of it:
      `fd` and `fl` are how many deferred statements and open loops there were before it;
      a statement of the function itself (`top`) sees everything. */
  ghost predicate Floors(defers: seq<Stmt>, loopinfo: seq<nat>, fd: nat, fl: nat, top: bool) {
    && fd <= |defers| && fl <= |loopinfo| && (top ==> fd == 0 && fl == 0)
    && forall k | fl <= k < |loopinfo| :: fd <= loopinfo[k] <= |defers|
  }

  ghost function EnvOf(vars: seq<FCVar>, defers: seq<Stmt>, loopinfo: seq<nat>, fd: nat, fl: nat, top: bool): (env: Env)
    requires Floors(defers, loopinfo, fd, fl, top)
    ensures env.vars == vars && env.defers == defers[fd..] && env.top == top && env.under == fd
            && |env.loops| == |loopinfo| - fl
    ensures forall k | 0 <= k < |env.loops| :: env.loops[k] == loopinfo[fl + k] - fd
  {
    Env(vars, defers[fd..], seq(|loopinfo| - fl, k requires 0 <= k < |loopinfo| - fl => loopinfo[fl + k] - fd), top, fd)
  }

  lemma EnvPush(vars: seq<FCVar>, defers: seq<Stmt>, loopinfo: seq<nat>, fd: nat, fl: nat, top: bool, lev: nat)
    requires Floors(defers, loopinfo, fd, fl, top)
    ensures Floors(defers, loopinfo + [|defers|], fd, fl, top)
    ensures var env := EnvOf(vars, defers, loopinfo, fd, fl, top);
            && EnvOf(vars, defers, loopinfo + [|defers|], fd, fl, top) == EnterLoop(env)
            && (WfEnv(lev, env) ==> WfEnv(lev, EnterLoop(env)))
  {
    var env := EnvOf(vars, defers, loopinfo, fd, fl, top);
    assert EnvOf(vars, defers, loopinfo + [|defers|], fd, fl, top).loops == EnterLoop(env).loops;
  }

  lemma EnvDefer(vars: seq<FCVar>, defers: seq<Stmt>, loopinfo: seq<nat>, fd: nat, fl: nat, top: bool, lev: nat,
                 d: Stmt)
    requires Floors(defers, loopinfo, fd, fl, top)
    ensures Floors(defers + [d], loopinfo, fd, fl, top)
    ensures var env := EnvOf(vars, defers, loopinfo, fd, fl, top);
            && EnvOf(vars, defers + [d], loopinfo, fd, fl, top) == env.(defers := env.defers + [d])
            && (WfEnv(lev, env) && Depth(d) < lev && Wf(d, 0, false) ==> WfEnv(lev, env.(defers := env.defers + [d])))
  {
    var env := EnvOf(vars, defers, loopinfo, fd, fl, top);
    assert (defers + [d])[fd..] == defers[fd..] + [d];
    assert EnvOf(vars, defers + [d], loopinfo, fd, fl, top).loops == env.loops;
  }

  lemma EnvClean(vars: seq<FCVar>, defers: seq<Stmt>, loopinfo: seq<nat>, fd: nat, fl: nat, top: bool)
    requires Floors(defers, loopinfo, fd, fl, top)
    ensures Floors(defers, loopinfo, |defers|, |loopinfo|, false)
    ensures EnvOf(vars, defers, loopinfo, |defers|, |loopinfo|, false)
            == DeferEnv(EnvOf(vars, defers, loopinfo, fd, fl, top))
    ensures forall lev: nat :: WfEnv(lev, DeferEnv(EnvOf(vars, defers, loopinfo, fd, fl, top)))
  {
    assert EnvOf(vars, defers, loopinfo, |defers|, |loopinfo|, false).loops == [];
  }

  /** One statement of a block, in the specification. */
  lemma SeqStep(lev: nat, env: Env, start: nat, st: CState, ss: seq<Stmt>)
    requires WfEnv(lev, env) && WfSeq(ss, |env.loops|, env.top) && DepthSeq(ss) <= lev && start <= |env.defers|
             && ss != []
    ensures WfSeq(ss[1..], |env.loops|, env.top) && DepthSeq(ss[1..]) <= lev
    ensures ss[0].Defer? ==>
              && Depth(ss[0].d) < lev && Wf(ss[0].d, 0, false)
              && var env' := env.(defers := env.defers + [ss[0].d]);
                if env.under + |env.defers| >= MAX_DEFERS then !CompSeq(lev, env, start, st, ss).st.ok
                else
                  && WfEnv(lev, env')
                  && CompSeq(lev, env, start, st, ss) == CompSeq(lev, env', start, Unwind(st, st.regs), ss[1..])
    ensures !ss[0].Defer? ==>
              && Wf(ss[0], |env.loops|, env.top) && Depth(ss[0]) <= lev
              && var r := CompS(lev, env, st, ss[0]);
                var rest := CompSeq(lev, env, start, Unwind(r.st, st.regs), ss[1..]);
                && CompSeq(lev, env, start, st, ss) == SCode(r.code + rest.code, rest.st)
                && (!r.st.ok ==> !rest.st.ok) && r.st.regs == st.regs
  {
    hide CompS, CompDefers, Prefix, Peak;
    if ss[0].Defer? {
      assert Depth(ss[0]) == 1 + Depth(ss[0].d);
      SettlesSeq(lev, env, start, Unwind(Fail(st), st.regs), ss[1..]);
    } else {
      var r := CompS(lev, env, st, ss[0]);
      SettlesS(lev, env, st, ss[0]);
      SettlesSeq(lev, env, start, Unwind(r.st, st.regs), ss[1..]);
    }
  }

  lemma PendNone(k: int)
    ensures PendUpTo([], k)
  {
  }

  lemma Regroup(a: seq<Instr>, b: seq<Instr>, c: seq<Instr>, d: seq<Instr>)
    ensures ((a + b) + c) + d == a + (b + (c + d))
  {
  }

  lemma ForCode(lev: nat, env: Env, st: CState, init: Option<seq<Expr>>, test: Option<Expr>, incr: Option<seq<Expr>>,
                body: seq<Stmt>)
    requires WfEnv(lev, env) && WfEnv(lev, EnterLoop(env)) && WfSeq(body, |env.loops| + 1, env.top)
             && DepthSeq(body) <= lev
    ensures var ri := CompInit(env.vars, st, init);
            var rc := if test.Some? then CompE(env.vars, ri.st, test.value, true) else ECode([], ri.st, 0);
            var rb := CompSeq(lev, EnterLoop(env), |env.defers|, Unwind(rc.st, st.regs), body);
            var ru := CompInit(env.vars, Unwind(rb.st, st.regs), incr);
            var d := |env.loops| + 1;
            var skip := if test.Some? then [CondJump(IfFalse, |rb.code| + |ru.code| + 1, rc.out)] else [];
            var back := -(|rc.code| + |skip| + |rb.code| + |ru.code|) - 1;
            var b1 := Patch(rb.code, d, true, |rb.code|);
            var b2 := Patch(b1, d, false, |rb.code| + |ru.code| + 1);
            var r := CompFor(lev, env, st, init, test, incr, body);
            && r == SCode(ri.code + (rc.code + (skip + (b2 + (ru.code + [Jump(back)])))),
                          Unwind(Check(ru.st, PatchInRange(rb.code, d, true, |rb.code|) && InJumpRange(back)
                                              && PatchInRange(b1, d, false, |rb.code| + |ru.code| + 1)), st.regs))
            && (r.st.ok ==> ri.st.ok && rc.st.ok && rb.st.ok && ru.st.ok)
            && ri.st.regs == st.regs <= rc.st.regs && rb.st.regs == st.regs && ru.st.regs == st.regs
  {
    hide CompE, CompInit, CompSeq, Patch, PatchInRange, Prefix, Peak, WfSeq, DepthSeq, InJumpRange, WfEnv;
    ForGrows(lev, env, st, init, test, incr, body);
    if CompFor(lev, env, st, init, test, incr, body).st.ok { ForOk(lev, env, st, init, test, incr, body); }
  }

  lemma DoCode(lev: nat, env: Env, st: CState, body: seq<Stmt>, c: Expr)
    requires WfEnv(lev, env) && WfEnv(lev, EnterLoop(env)) && WfSeq(body, |env.loops| + 1, env.top)
             && DepthSeq(body) <= lev
    ensures var rb := CompSeq(lev, EnterLoop(env), |env.defers|, st, body);
            var rc := CompE(env.vars, Unwind(rb.st, st.regs), c, true);
            var d := |env.loops| + 1;
            var back := -(|rb.code| + |rc.code|) - 1;
            var b1 := Patch(rb.code, d, true, |rb.code|);
            var b2 := Patch(b1, d, false, |rb.code| + |rc.code| + 1);
            var r := CompDo(lev, env, st, body, c);
            && r == SCode(b2 + (rc.code + [CondJump(IfTrue, back, rc.out)]),
                          Unwind(Check(rc.st, PatchInRange(rb.code, d, true, |rb.code|) && InJumpRange(back)
                                              && PatchInRange(b1, d, false, |rb.code| + |rc.code| + 1)), st.regs))
            && (r.st.ok ==> rb.st.ok && rc.st.ok) && rb.st.regs == st.regs <= rc.st.regs
  {
    hide CompE, CompSeq, Patch, PatchInRange, Prefix, Peak, WfSeq, DepthSeq, InJumpRange, WfEnv;
    var rb := CompSeq(lev, EnterLoop(env), |env.defers|, st, body);
    SettlesSeq(lev, EnterLoop(env), |env.defers|, st, body);
    GrowsE(env.vars, Unwind(rb.st, st.regs), c, true);
    if CompDo(lev, env, st, body, c).st.ok { DoOk(lev, env, st, body, c); }
  }

  lemma NumCode(lev: nat, env: Env, st: CState, x: Name, start: Option<Expr>, last: Expr, stride: Option<Expr>,
                body: seq<Stmt>)
    requires WfEnv(lev, env) && WfEnv(lev, EnterLoop(env)) && WfSeq(body, |env.loops| + 1, env.top)
             && DepthSeq(body) <= lev
    ensures var reg := Find(env.vars, x);
            var r1 := CompBound(env.vars, st, start, 0, reg + 1);
            var r2 := CompInto(env.vars, r1.st, last, reg + 2);
            var r3 := CompBound(env.vars, r2.st, stride, 1, reg + 3);
            var rb := CompSeq(lev, EnterLoop(env), |env.defers|, r3.st, body);
            var d := |env.loops| + 1;
            var back := -|rb.code| - 1;
            var b1 := Patch(rb.code, d, true, |rb.code|);
            var b2 := Patch(b1, d, false, |rb.code| + 1);
            var r := CompNum(lev, env, st, x, start, last, stride, body);
            && r == SCode(r1.code
               + (r2.code + (r3.code + ([NForPrep(|rb.code| + 1, reg)] + (b2 + [NForJump(back, reg)])))),
                          Unwind(Check(Unwind(rb.st, st.regs), PatchInRange(rb.code, d, true, |rb.code|)
                              && InJumpRange(back + 2)
                                                              && PatchInRange(b1, d, false, |rb.code| + 1)), st.regs))
            && (r.st.ok ==> r1.st.ok && r2.st.ok && r3.st.ok && rb.st.ok)
            && st.regs <= r1.st.regs == r2.st.regs <= r3.st.regs == rb.st.regs
  {
    hide CompE, CompSeq, CompBound, CompInto, Patch, PatchInRange, Prefix, Peak, WfSeq, DepthSeq, InJumpRange, WfEnv,
        Find;
    NumRegs(lev, env, st, x, start, last, stride, body);
    if CompNum(lev, env, st, x, start, last, stride, body).st.ok { NumOk(lev, env, st, x, start, last, stride, body); }
  }

  lemma NumRegs(lev: nat, env: Env, st: CState, x: Name, start: Option<Expr>, last: Expr, stride: Option<Expr>,
                body: seq<Stmt>)
    requires WfEnv(lev, env) && WfEnv(lev, EnterLoop(env)) && WfSeq(body, |env.loops| + 1, env.top)
             && DepthSeq(body) <= lev
    ensures var reg := Find(env.vars, x);
            var r1 := CompBound(env.vars, st, start, 0, reg + 1);
            var r2 := CompInto(env.vars, r1.st, last, reg + 2);
            var r3 := CompBound(env.vars, r2.st, stride, 1, reg + 3);
            var rb := CompSeq(lev, EnterLoop(env), |env.defers|, r3.st, body);
            st.regs <= r1.st.regs == r2.st.regs <= r3.st.regs == rb.st.regs
  {
    hide CompE, CompSeq, CompBound, CompInto, Prefix, Peak, WfSeq, DepthSeq, WfEnv, Find;
    var reg := Find(env.vars, x);
    var r1 := CompBound(env.vars, st, start, 0, reg + 1);
    var r2 := CompInto(env.vars, r1.st, last, reg + 2);
    GrowsBound(env.vars, st, start, 0, reg + 1);
    GrowsInto(env.vars, r1.st, last, reg + 2);
    GrowsBound(env.vars, r2.st, stride, 1, reg + 3);
    SettlesSeq(lev, EnterLoop(env), |env.defers|, CompBound(env.vars, r2.st, stride, 1, reg + 3).st, body);
  }

  lemma FnStart(lev: nat, vars: seq<FCVar>, body: Stmt)
    ensures Floors([], [], 0, 0, true) && TopEnv(vars) == EnvOf(vars, [], [], 0, 0, true) && WfEnv(lev, TopEnv(vars))
  {
    assert EnvOf(vars, [], [], 0, 0, true).loops == [];
  }

  /** Where compiling a function can fail. */
  lemma FnSteps(lev: nat, vars: seq<FCVar>, body: Stmt)
    requires Wf(body, 0, true) && Depth(body) <= lev
    ensures var st := AllocN(START, |vars|);
            var r := CompS(lev, TopEnv(vars), st, body);
            && CompFn(lev, vars, body) == SCode(r.code, Check(Unwind(r.st, 0), Unwind(r.st, 0).lastreg <= 0xff))
            && (!st.ok ==> !r.st.ok) && (st.ok ==> st.regs == |vars|)
            && (st.ok && r.st.ok ==> |vars| <= Unwind(r.st, 0).lastreg)
  {
    hide CompS, Prefix;
    var st := AllocN(START, |vars|);
    AllocNRegs(START, |vars|);
    SettlesS(lev, TopEnv(vars), st, body);
  }

  lemma ListedNone(code: seq<Instr>, loops: int)
    ensures Listed(code, [], loops)
  {
  }

  lemma EmittedShape(c: seq<Instr>, k1: seq<Instr>, b1: seq<BreakInfo>)
    requires Emitted([], [], c, 0, k1, b1) && PendUpTo(c, 0)
    ensures k1 == c && b1 == []
  {
    EntriesNone(c, 0, 0);
    assert [] + c == c;
  }

  lemma SeqEnd(lev: nat, env: Env, start: nat, st: CState)
    requires WfEnv(lev, env) && start <= |env.defers|
    ensures CompSeq(lev, env, start, st, []) == CompDefers(lev, env, |env.defers|, start, st)
  {
  }

  /** Expanding one variable of the list in place. */
  lemma ExpandStep(vars: seq<FCVar>, i: nat)
    requires i < |vars|
    ensures vars[i].numfor ==>
              var vars' := vars[..i + 1] + NUM_HIDDEN + vars[i + 1..];
              |vars'| == |vars| + 3 && vars'[..i + 4] + Expand(vars'[i + 4..]) == vars[..i] + Expand(vars[i..])
    ensures !vars[i].numfor ==> vars[..i + 1] + Expand(vars[i + 1..]) == vars[..i] + Expand(vars[i..])
  {
    assert vars[i..] == [vars[i]] + vars[i + 1..];
    if vars[i].numfor {
      var vars' := vars[..i + 1] + NUM_HIDDEN + vars[i + 1..];
      assert vars'[..i + 4] == vars[..i] + [vars[i]] + NUM_HIDDEN && vars'[i + 4..] == vars[i + 1..];
    }
  }

  lemma ExpandDone(vars: seq<FCVar>)
    ensures vars[..|vars|] + Expand(vars[|vars|..]) == vars
  {
  }

  /** The closure prefix for the first `args` variables: for each of them that is captured,
      in order, one instruction that puts it into the first closure slot of its name. */
  predicate IsCapture(vars: seq<FCVar>, clsr: seq<Name>, args: nat, pre: seq<Instr>)
    requires args <= |vars|
  {
    && (forall k | 0 <= k < |pre| :: Captures(vars, clsr, args, pre[k]))
    && (forall j, k | 0 <= j < k < |pre| :: pre[j].SetClsr? && pre[k].SetClsr? && pre[j].c < pre[k].c)
    && (forall i | 0 <= i < args && vars[i].name in clsr :: exists k ::
       0 <= k < |pre| && pre[k].SetClsr? && pre[k].c == i)
  }

  predicate Captures(vars: seq<FCVar>, clsr: seq<Name>, args: nat, i: Instr)
    requires args <= |vars|
  {
    && i.SetClsr? && 0 <= i.c < args && 0 <= i.b < |clsr|
    && clsr[i.b] == vars[i.c].name && vars[i.c].name !in clsr[..i.b]
  }

  lemma CaptureSkip(vars: seq<FCVar>, clsr: seq<Name>, i: nat, pre: seq<Instr>)
    requires i < |vars| && IsCapture(vars, clsr, i, pre) && vars[i].name !in clsr
    ensures IsCapture(vars, clsr, i + 1, pre)
  {
    forall k | 0 <= k < |pre| ensures Captures(vars, clsr, i + 1, pre[k]) { assert Captures(vars, clsr, i, pre[k]); }
  }

  lemma PrefixPut(pre: seq<Instr>, which: int, i: int)
    requires IsPrefix(pre) && 0 <= which < 256 && 0 <= i < 256
    ensures IsPrefix(pre + [SetClsr(which, i)])
  {
  }

  lemma CapturePut(vars: seq<FCVar>, clsr: seq<Name>, i: nat, pre: seq<Instr>, which: nat)
    requires i < |vars| && which < |clsr| && IsCapture(vars, clsr, i, pre)
    requires clsr[which] == vars[i].name && forall j | 0 <= j < which :: clsr[j] != vars[i].name
    ensures IsCapture(vars, clsr, i + 1, pre + [SetClsr(which, i)])
  {
    var all := pre + [SetClsr(which, i)];
    forall k | 0 <= k < |pre| ensures Captures(vars, clsr, i + 1, pre[k]) && pre[k].c < i {
      assert Captures(vars, clsr, i, pre[k]);
    }
    assert Captures(vars, clsr, i + 1, SetClsr(which, i));
    hide Captures;
    assert forall k | 0 <= k < |all| :: all[k] == if k < |pre| then pre[k] else SetClsr(which, i);
    forall j | 0 <= j < i + 1 && vars[j].name in clsr
      ensures exists k :: 0 <= k < |all| && all[k].SetClsr? && all[k].c == j
    {
      if j < i {
        var k :| 0 <= k < |pre| && pre[k].SetClsr? && pre[k].c == j;
        assert all[k].c == j;
      } else {
        assert all[|pre|].c == j;
      }
    }
  }

  class FuncCtx {
    var code: seq<Instr>
    var consts: seq<Value>
    var regs: int
    var lastreg: int
    var vars: seq<FCVar>
    var loops: nat
    /** Newest first, as the linked list has it. */
    var binfo: seq<BreakInfo>
    var defers: seq<Stmt>
    /** For every open loop: how many deferred statements there were when its body began. */
    var loopinfo: seq<nat>

    constructor ()
      ensures code == [] && consts == [] && regs == 0 && lastreg == -1 && vars == [] && loops == 0
      ensures binfo == [] && defers == [] && loopinfo == []
    {
      code, consts, regs, lastreg, vars, loops, binfo, defers, loopinfo := [], [], 0, -1, [], 0, [], [], [];
    }

    function St(): CState
      reads this
    {
      CState(regs, lastreg, consts, true)
    }

    /* ---- registers, constants, variables ---- */

    method RegAlloc() returns (ok: bool, out: int)
      modifies `regs
      ensures out == old(regs) && ok == (old(regs) <= 255)
      ensures ok ==> St() == Alloc(old(St()))
      ensures regs == old(regs) + 1
    {
      out := regs;
      regs := regs + 1;
      ok := out <= 0xff;
    }

    method RegUnwind(pos: int)
      modifies `regs, `lastreg
      ensures St() == Unwind(old(St()), pos)
    {
      if regs > lastreg { lastreg := regs; }
      regs := pos;
    }

    /** The add_const functions. */
    method AddConstant(v: Value) returns (cid: nat)
      modifies `consts
      ensures cid == ConstIndex(old(consts), v) && consts == AddConst(old(consts), v)
    {
      cid := 0;
      while cid < |consts|
        invariant cid <= |consts| && consts == old(consts)
        invariant forall i | 0 <= i < cid :: consts[i] != v
      {
        if consts[cid] == v { return; }
        cid := cid + 1;
      }
      consts := consts + [v];
    }

    method FindVar(x: Name) returns (pos: int)
      ensures pos == Find(vars, x)
    {
      pos := 0;
      while pos < |vars|
        invariant 0 <= pos <= |vars|
        invariant forall i | 0 <= i < pos :: vars[i].name != x
      {
        if vars[pos].name == x { return; }
        pos := pos + 1;
      }
      pos := -1;
    }

    method ConstMaybeLoad(cid: nat) returns (ok: bool, out: int)
      modifies `code, `regs
      ensures ok == (cid <= 65535 && (cid >= 256 ==> Alloc(old(St())).ok))
      ensures ok && cid < 256 ==> out == 256 + cid && code == old(code) && regs == old(regs)
      ensures ok && cid >= 256 ==>
              out == old(regs) && code == old(code) + [LoadConst(cid, out)] && St() == Alloc(old(St()))
    {
      if cid > 65535 { return false, 0; }
      if cid < 256 { return true, 256 + cid; }
      ok, out := RegAlloc();
      code := code + [LoadConst(cid, out)];
    }

    method Emit(i: Instr)
      modifies `code
      ensures code == old(code) + [i]
    {
      code := code + [i];
    }

    /** Overwrites a placeholder: nothing else is ever overwritten. */
    method Fix(at: nat, i: Instr)
      requires at < |code| && code[at] == Placeholder
      modifies `code
      ensures code == old(code)[at := i]
    {
      code := code[at := i];
    }

    /* ---- expressions ---- */

    method CompileConst(v: Value) returns (ok: bool, out: int)
      modifies `code, `consts, `regs
      ensures var r := CompConst(old(St()), v);
              && ok == r.st.ok
              && (ok ==> code == old(code) + r.code && St() == r.st && out == r.out)
    {
      var cid := AddConstant(v);
      ok, out := ConstMaybeLoad(cid);
    }

    /** compile_node_w for a local */
    method CompileNodeW(x: Name, src: int)
      modifies `code, `regs, `lastreg
      ensures code == old(code) + CompWrite(Find(vars, x), src) && St() == Unwind(old(St()), old(regs))
      ensures |code| == |old(code)| + if Find(vars, x) == src then 0 else 1
    {
      var bkup := regs;
      var pos := FindVar(x);
      if pos != src { Emit(Set(pos, src)); }
      RegUnwind(bkup);
    }

    /** compile_node_r; `wanted` is compile_oper's `expect`. */
    method CompileNodeR(e: Expr, wanted: bool) returns (ok: bool, out: int)
      requires |vars| <= regs
      modifies `code, `consts, `regs, `lastreg
      ensures var r := CompE(vars, old(St()), e, wanted);
              && ok == r.st.ok
              && (ok ==> code == old(code) + r.code && St() == r.st && (wanted ==> out == r.out) && regs >= old(regs))
      decreases e, 1
    {
      match e
      case Const(v) => ok, out := CompileConst(v);
      case Var(x) => out := FindVar(x); ok := true;
      case Unary(op, a) => ok, out := CompileUnary(op, a, wanted);
      case Binary(op, a, b) => ok, out := CompileBinary(op, a, b, wanted);
      case Lazy(op, a, b) => ok, out := CompileLazy(op, a, b, wanted);
      case Assign(x, a) => ok, out := CompileAssign(x, a, wanted);
      case OpAssign(op, x, a) => ok, out := CompileOpAssign(op, x, a, wanted);
      case LazyAssign(op, x, a) => ok, out := CompileLazyAssign(op, x, a, wanted);
      case Bump(inc, postfix, x) => ok, out := CompileBump(inc, postfix, x, wanted);
    }

    method CompileUnary(op: UnOp, a: Expr, wanted: bool) returns (ok: bool, out: int)
      requires |vars| <= regs
      modifies `code, `consts, `regs, `lastreg
      ensures var r := CompE(vars, old(St()), Unary(op, a), wanted);
              && ok == r.st.ok
              && (ok ==> code == old(code) + r.code && St() == r.st && (wanted ==> out == r.out) && regs >= old(regs))
      decreases a, 2
    {
      hide CompE;
      ghost var st := St();
      UnaryCode(vars, st, op, a, wanted);
      GrowsE(vars, Alloc(st), a, true);
      ok, out := RegAlloc();
      if !ok { return; }
      var ireg;
      ok, ireg := CompileNodeR(a, true);
      if !ok { return; }
      Emit(UnInstr(op, out, ireg));
    }

    method CompileBinary(op: BinOp, a: Expr, b: Expr, wanted: bool) returns (ok: bool, out: int)
      requires |vars| <= regs
      modifies `code, `consts, `regs, `lastreg
      ensures var r := CompE(vars, old(St()), Binary(op, a, b), wanted);
              && ok == r.st.ok
              && (ok ==> code == old(code) + r.code && St() == r.st && (wanted ==> out == r.out) && regs >= old(regs))
      decreases Binary(op, a, b), 0
    {
      hide CompE;
      ghost var st := St();
      BinaryCode(vars, st, op, a, b, wanted);
      GrowsE(vars, Alloc(st), a, true);
      GrowsE(vars, CompE(vars, Alloc(st), a, true).st, b, true);
      var ireg1, ireg2;
      ok, out := RegAlloc();
      if !ok { return; }
      ok, ireg1 := CompileNodeR(a, true);
      if !ok { return; }
      ok, ireg2 := CompileNodeR(b, true);
      if !ok { return; }
      Emit(BinI(op, out, ireg1, ireg2));
    }

    /** `&&`, `||`, `??`: two placeholders, patched when their targets are known. */
    method CompileLazy(op: Logic, a: Expr, b: Expr, wanted: bool) returns (ok: bool, out: int)
      requires |vars| <= regs
      modifies `code, `consts, `regs, `lastreg
      ensures var r := CompE(vars, old(St()), Lazy(op, a, b), wanted);
              && ok == r.st.ok
              && (ok ==> code == old(code) + r.code && St() == r.st && (wanted ==> out == r.out) && regs >= old(regs))
      decreases Lazy(op, a, b), 0
    {
      hide CompE;
      ghost var st := St();
      LazyCode(vars, st, op, a, b, wanted);
      GrowsE(vars, Alloc(st), a, true);
      GrowsE(vars, CompE(vars, Alloc(st), a, true).st, b, true);
      var ireg1, ireg2;
      ok, out := RegAlloc();
      if !ok { return; }
      ok, ireg1 := CompileNodeR(a, true);
      if !ok { return; }
      Emit(Placeholder);
      var csz := |code|;
      Emit(Set(out, ireg1));
      Emit(Placeholder);
      var csz2 := |code|;
      Fix(csz - 1, CondJump(LazyCond(op), |code| - csz, ireg1));
      ok, ireg2 := CompileNodeR(b, true);
      if !ok { return; }
      Emit(Set(out, ireg2));
      Fix(csz2 - 1, Jump(|code| - csz2));
    }

    /** compile_node_rw, then a read back of the assigned variable */
    method CompileAssign(x: Name, a: Expr, wanted: bool) returns (ok: bool, out: int)
      requires |vars| <= regs
      modifies `code, `consts, `regs, `lastreg
      ensures var r := CompE(vars, old(St()), Assign(x, a), wanted);
              && ok == r.st.ok
              && (ok ==> code == old(code) + r.code && St() == r.st && (wanted ==> out == r.out) && regs >= old(regs))
      decreases Assign(x, a), 0
    {
      var bkup := regs;
      var ireg;
      ok, ireg := CompileNodeR(a, true);
      out := 0;
      if ok { CompileNodeW(x, ireg); }
      RegUnwind(bkup);
      if ok && wanted { out := FindVar(x); }
    }

    method CompileOpAssign(op: BinOp, x: Name, a: Expr, wanted: bool) returns (ok: bool, out: int)
      requires |vars| <= regs
      modifies `code, `consts, `regs, `lastreg
      ensures var r := CompE(vars, old(St()), OpAssign(op, x, a), wanted);
              && ok == r.st.ok
              && (ok ==> code == old(code) + r.code && St() == r.st && (wanted ==> out == r.out) && regs >= old(regs))
      decreases OpAssign(op, x, a), 0
    {
      hide CompE;
      ghost var st := St();
      OpAssignCode(vars, st, op, x, a, wanted);
      GrowsE(vars, Alloc(st), a, true);
      var oreg, ireg1, ireg2;
      ok, oreg := RegAlloc();
      if !ok { return false, 0; }
      ireg1 := FindVar(x);
      ok, ireg2 := CompileNodeR(a, true);
      if !ok { return false, 0; }
      Emit(BinI(op, oreg, ireg1, ireg2));
      CompileNodeW(x, oreg);
      out := FindVar(x);
    }

    method CompileLazyAssign(op: Logic, x: Name, a: Expr, wanted: bool) returns (ok: bool, out: int)
      requires |vars| <= regs
      modifies `code, `consts, `regs, `lastreg
      ensures var r := CompE(vars, old(St()), LazyAssign(op, x, a), wanted);
              && ok == r.st.ok
              && (ok ==> code == old(code) + r.code && St() == r.st && (wanted ==> out == r.out) && regs >= old(regs))
      decreases LazyAssign(op, x, a), 0
    {
      hide CompE;
      ghost var st := St();
      LazyAssignCode(vars, st, op, x, a, wanted);
      GrowsE(vars, Unwind(st, st.regs), a, true);
      var ireg1 := FindVar(x);
      Emit(Placeholder);
      var csz := |code|;
      CompileNodeW(x, ireg1);
      Emit(Placeholder);
      var csz2 := |code|;
      Fix(csz - 1, CondJump(LazyCond(op), |code| - csz, ireg1));
      var ireg2;
      ok, ireg2 := CompileNodeR(a, true);
      if !ok { return false, 0; }
      CompileNodeW(x, ireg2);
      Fix(csz2 - 1, Jump(|code| - csz2));
      out := FindVar(x);
    }

    method CompileBump(inc: bool, postfix: bool, x: Name, wanted: bool) returns (ok: bool, out: int)
      requires |vars| <= regs
      modifies `code, `consts, `regs, `lastreg
      ensures var r := CompE(vars, old(St()), Bump(inc, postfix, x), wanted);
              && ok == r.st.ok
              && (ok ==> code == old(code) + r.code && St() == r.st && (wanted ==> out == r.out) && regs >= old(regs))
      ensures ok ==> |code| == |old(code)| + if wanted && postfix then 2 else 1
      decreases Bump(inc, postfix, x), 0
    {
      var ireg := FindVar(x);
      ok, out := true, ireg;
      if wanted && postfix { ok, out := RegAlloc(); }
      if !ok { return; }
      if out != ireg { Emit(Set(out, ireg)); }
      Emit(IncDecI(inc, ireg, ireg));
      CompileNodeW(x, ireg);
    }

    /* ---- statements ---- */

    /** Ready to compile a statement that sees `env`. */
    ghost predicate Ready(lev: nat, env: Env, fd: nat, fl: nat)
      reads this
    {
      && Floors(defers, loopinfo, fd, fl, env.top) && env == EnvOf(vars, defers, loopinfo, fd, fl, env.top)
      && WfEnv(lev, env) && loops == |loopinfo| && |vars| <= regs && Listed(code, binfo, loops)
    }

    /** An expression statement. */
    method CompileEffect(e: Expr) returns (ok: bool)
      requires |vars| <= regs
      modifies `code, `consts, `regs, `lastreg
      ensures var r := CompEffect(vars, old(St()), e);
              ok == r.st.ok && (ok ==> code == old(code) + r.code && St() == r.st)
    {
      hide CompE;
      ok := true;
      var bkup := regs;
      var out;
      if !e.Const? && !e.Var? { ok, out := CompileNodeR(e, false); }
      if ok { RegUnwind(bkup); }
    }

    /** An expression list compiled as a statement. */
    method CompileEffects(es: seq<Expr>) returns (ok: bool)
      requires |vars| <= regs
      modifies `code, `consts, `regs, `lastreg
      ensures var r := CompEffects(vars, old(St()), es);
              ok == r.st.ok && (ok ==> code == old(code) + r.code && St() == r.st)
    {
      hide CompEffect;
      ghost var all := CompEffects(vars, St(), es);
      ghost var c: seq<Instr> := [];
      ok := true;
      var bkup, n := regs, 0;
      while n < |es|
        invariant n <= |es| && regs == bkup && ok && vars == old(vars)
        invariant code == old(code) + c
        invariant var rest := CompEffects(vars, St(), es[n..]); all == SCode(c + rest.code, rest.st)
      {
        GrowsEffect(vars, St(), es[n]);
        GrowsEffects(vars, CompEffect(vars, St(), es[n]).st, es[n..][1..]);
        c := c + CompEffect(vars, St(), es[n]).code;
        assert es[n..][1..] == es[n + 1..];
        ok := CompileEffect(es[n]);
        if !ok { return; }
        n := n + 1;
      }
      RegUnwind(bkup);
    }

    /** compile_node_rrw */
    method CompileNodeRrw(e: Expr, dst: int) returns (ok: bool)
      requires |vars| <= regs
      modifies `code, `consts, `regs, `lastreg
      ensures var r := CompInto(vars, old(St()), e, dst);
              ok == r.st.ok && (ok ==> code == old(code) + r.code && St() == r.st)
    {
      hide CompE;
      var bkup := regs;
      var ireg;
      ok, ireg := CompileNodeR(e, true);
      if !ok { return; }
      if ireg != dst { Emit(Set(dst, ireg)); }
      RegUnwind(bkup);
    }

    /** A bound of a numeric loop, or the constant that stands for it. */
    method CompileBound(e: Option<Expr>, v: int, dst: int) returns (ok: bool)
      requires |vars| <= regs
      modifies `code, `consts, `regs, `lastreg
      ensures var r := CompBound(vars, old(St()), e, v, dst);
              ok == r.st.ok && (ok ==> code == old(code) + r.code && St() == r.st)
    {
      if e.Some? { ok := CompileNodeRrw(e.value, dst); }
      else {
        var out;
        ok, out := CompileConst(Int(v));
        if ok { Emit(Set(dst, out)); }
      }
    }

    /** compile_breaks: resolves the breaks (or continues) of the innermost open loop to the
        current position, and takes them off the list. */
    method CompileBreaks(iscont: bool) returns (ok: bool)
      requires Listed(code, binfo, loops)
      modifies `code, `binfo
      ensures ok == AllInRange(old(binfo), loops, iscont, |old(code)|)
      ensures ok ==> Patched(old(code), old(binfo), loops, iscont, code) && binfo == Rest(old(binfo), loops, iscont)
    {
      hide Rest, Listed, Patched, AllInRange;
      ghost var code0, list0, k := code, binfo, 0;
      PatchNone(code, binfo, loops, iscont);
      var i := 0;
      while i < |binfo|
        invariant k <= |list0| && |code| == |code0| && i == |Rest(list0[..k], loops, iscont)|
                  && binfo == Rest(list0[..k], loops, iscont) + list0[k..]
        invariant Listed(code0, list0, loops) && AllInRange(list0[..k], loops, iscont, |code0|)
        invariant Patched(code0, list0[..k], loops, iscont, code)
        decreases |list0| - k
      {
        PatchStep(code0, list0, k, loops, iscont, loops, code);
        assert list0[k..] == [list0[k]] + list0[k + 1..];
        Unlink(Rest(list0[..k], loops, iscont), list0[k], list0[k + 1..], binfo);
        if binfo[i].numlp == loops && binfo[i].iscont == iscont {
          var off := |code| - binfo[i].jdoff - 1;
          if off > 32767 || off < -32767 {
            if AllInRange(list0, loops, iscont, |code0|) { RangePrefix(list0, k + 1, loops, iscont, |code0|); }
            return false;
          }
          code := code[binfo[i].jdoff := Jump(off)];
          binfo := binfo[..i] + binfo[i + 1..];
        } else {
          i := i + 1;
        }
        k := k + 1;
      }
      ok := true;
      assert list0[..k] == list0;
    }

    /** The construct `r` has been compiled, and the context is otherwise as it was. */
    twostate predicate Did(r: SCode, fl: nat)
      reads this
    {
      && Emitted(old(code), old(binfo), r.code, fl, code, binfo) && St() == r.st
      && unchanged(`vars, `loops, `defers, `loopinfo)
    }

    /** compile_defers: everything deferred since there were `end` of them, latest first. */
    method CompileDefers(end: nat, ghost lev: nat, ghost env: Env, ghost fd: nat, ghost fl: nat) returns (ok: bool)
      requires Ready(lev, env, fd, fl) && fd <= end <= |defers|
      modifies this
      ensures var r := CompDefers(lev, env, |env.defers|, end - fd, old(St()));
              ok == r.st.ok && (ok ==> Did(r, fl))
      decreases lev, 0, 0, 0
    {
      hide CompS, Emitted, Listed, EnvOf, Floors;
      ghost var k0, b0, c := code, binfo, [];
      ghost var all := CompDefers(lev, env, |env.defers|, end - fd, St());
      EmittedNone(k0, b0, fl);
      ok := true;
      var i := |defers|;
      while i > end
        invariant ok && end <= i <= |defers| && unchanged(`vars, `loops, `defers, `loopinfo)
        invariant regs == old(regs) && Listed(code, binfo, loops) && Emitted(k0, b0, c, fl, code, binfo)
        invariant var rest := CompDefers(lev, env, i - fd, end - fd, St()); all == SCode(c + rest.code, rest.st)
      {
        i := i - 1;
        var d := defers[i];
        ghost var st := St();
        assert env.defers[i - fd] == d;
        ghost var r := CompS(lev - 1, DeferEnv(env), st, d);
        SettlesDefers(lev, env, i - fd, end - fd, r.st);
        ok := CompileDefer(d, lev, env, fd, fl, k0, b0, c);
        if !ok { return; }
        c := c + r.code;
      }
      assert c + [] == c;
    }

    /** One deferred statement, which can reach nothing around it. */
    method CompileDefer(d: Stmt, ghost lev: nat, ghost env: Env, ghost fd: nat, ghost fl: nat, ghost k0: seq<Instr>,
                        ghost b0: seq<BreakInfo>,
                        ghost c: seq<Instr>) returns (ok: bool)
      requires Ready(lev, env, fd, fl) && Depth(d) < lev && Wf(d, 0, false) && Emitted(k0, b0, c, fl, code, binfo)
      modifies this
      ensures WfEnv(lev - 1, DeferEnv(env))
      ensures var r := CompS(lev - 1, DeferEnv(env), old(St()), d);
              && ok == r.st.ok
              && (ok ==>
                    && Emitted(k0, b0, c + r.code, fl, code, binfo) && St() == r.st && regs == old(regs)
                    && Listed(code, binfo, loops)
                         && unchanged(`vars, `loops, `defers, `loopinfo))
      decreases lev - 1, 1, d, 2
    {
      hide CompS, Emitted, Listed, EnvOf, Floors, WfEnv, Wf, Depth;
      ghost var st, k1, b1 := St(), code, binfo;
      EnvClean(vars, defers, loopinfo, fd, fl, env.top);
      SettlesS(lev - 1, DeferEnv(env), st, d);
      PendS(lev - 1, DeferEnv(env), st, d);
      ghost var r := CompS(lev - 1, DeferEnv(env), st, d);
      ok := CompileNode(d, lev - 1, DeferEnv(env), |defers|, |loopinfo|);
      if !ok { return; }
      EmittedShift(k1, b1, r.code, |loopinfo|, fl, code, binfo);
      EmittedListed(k1, b1, r.code, |loopinfo|, code, binfo, loops, loops);
      EmittedThen(k0, b0, c, fl, k1, b1, r.code, code, binfo);
    }

    /** fctx_defer_add */
    method DeferAdd(d: Stmt, ghost lev: nat, ghost env: Env, ghost fd: nat, ghost fl: nat) returns (ok: bool,
                    ghost env': Env)
      requires Ready(lev, env, fd, fl) && Depth(d) < lev && Wf(d, 0, false)
      modifies `defers
      ensures ok == (env.under + |env.defers| < 256)
      ensures ok ==> defers == old(defers) + [d] && env' == env.(defers := env.defers + [d]) && Ready(lev, env', fd, fl)
    {
      env' := env.(defers := env.defers + [d]);
      if |defers| >= MAX_DEFERS { return false, env; }
      EnvDefer(vars, defers, loopinfo, fd, fl, env.top, lev, d);
      defers := defers + [d];
      ok := true;
    }

    /** The statements of a block, between fctx_block_push and fctx_block_pop. */
    method CompileBlock(ss: seq<Stmt>, ghost lev: nat, ghost env: Env, ghost fd: nat, ghost fl: nat) returns (ok: bool)
      requires Ready(lev, env, fd, fl) && WfSeq(ss, |env.loops|, env.top) && DepthSeq(ss) <= lev
      modifies this
      ensures var r := CompSeq(lev, env, |env.defers|, old(St()), ss);
              ok == r.st.ok && (ok ==> Did(r, fl))
      decreases lev, 1, ss, 0
    {
      hide CompS, CompSeq, CompDefers, Emitted, Listed, Entries, Wf, WfSeq, Depth, DepthSeq, WfEnv, EnvOf, PendUpTo;
      PendNone(|env.loops|);
      var start := |defers|;
      ghost var k0, b0, c, env' := code, binfo, [], env;
      ghost var all := CompSeq(lev, env, start - fd, St(), ss);
      EmittedNone(k0, b0, fl);
      ok := true;
      var n := 0;
      assert ss[n..] == ss;
      while n < |ss|
        invariant ok && n <= |ss| && unchanged(`vars, `loops, `loopinfo) && start <= |defers|
                  && defers[..start] == old(defers)
        invariant Ready(lev, env', fd, fl) && env'.top == env.top && |env'.loops| == |env.loops| && regs == old(regs)
        invariant WfSeq(ss[n..], |env.loops|, env.top) && DepthSeq(ss[n..]) <= lev
        invariant Emitted(k0, b0, c, fl, code, binfo) && PendUpTo(c, |env.loops|)
        invariant var rest := CompSeq(lev, env', start - fd, St(), ss[n..]); all == SCode(c + rest.code, rest.st)
      {
        assert ss[n..][1..] == ss[n + 1..] && ss[n..][0] == ss[n];
        ghost var st, k1, b1 := St(), code, binfo;
        var regstate := regs;
        SeqStep(lev, env', start - fd, st, ss[n..]);
        if ss[n].Defer? {
          ok, env' := DeferAdd(ss[n].d, lev, env', fd, fl);
          if !ok { return; }
          RegUnwind(regstate);
        } else {
          ghost var r := CompS(lev, env', st, ss[n]);
          PendS(lev, env', st, ss[n]);
          ok := CompileNode(ss[n], lev, env', fd, fl);
          if !ok { return; }
          EmittedListed(k1, b1, r.code, fl, code, binfo, loops, loops);
          EmittedThen(k0, b0, c, fl, k1, b1, r.code, code, binfo);
          PendConcat(c, r.code, |env.loops|);
          c := c + r.code;
        }
        RegUnwind(regstate);
        n := n + 1;
      }
      assert ss[n..] == [];
      ghost var k1, b1, st := code, binfo, St();
      ghost var rd := CompDefers(lev, env', |env'.defers|, start - fd, st);
      SeqEnd(lev, env', start - fd, st);
      ok := CompileDefers(start, lev, env', fd, fl);
      if !ok { return; }
      EmittedThen(k0, b0, c, fl, k1, b1, rd.code, code, binfo);
      defers := defers[..start];
    }

    /** compile_node */
    method CompileNode(s: Stmt, ghost lev: nat, ghost env: Env, ghost fd: nat, ghost fl: nat) returns (ok: bool)
      requires Ready(lev, env, fd, fl) && Wf(s, |env.loops|, env.top) && Depth(s) <= lev
      modifies this
      ensures var r := CompS(lev, env, old(St()), s);
              ok == r.st.ok && (ok ==> Did(r, fl))
      decreases lev, 1, s, 1
    {
      hide CompFor, CompDo, CompNum, CompSeq, CompEffect, CompDefers, CompExit, Emitted, Listed, WfEnv, Floors, EnvOf;
      ghost var k0, b0, st := code, binfo, St();
      match s
      case ExprS(e) =>
        PendEffect(env.vars, st, e);
        ok := CompileEffect(e);
        if ok { EmittedPlain(k0, b0, CompEffect(env.vars, st, e).code, fl); }
      case Block(ss) =>
        var bkup := regs;
        ok := CompileBlock(ss, lev, env, fd, fl);
        if ok { RegUnwind(bkup); }
      case If(c, t, f) => ok := CompileIf(c, t, f, lev, env, fd, fl);
      case While(c, body) => ok := CompileFor(None, Some(c), None, body, lev, env, fd, fl);
      case DoWhile(body, c) => ok := CompileDo(body, c, lev, env, fd, fl);
      case For(init, test, incr, body) => ok := CompileFor(Some(init), test, Some(incr), body, lev, env, fd, fl);
      case NumFor(x, start, last, stride, body) => ok := CompileNum(x, start, last, stride, body, lev, env, fd, fl);
      case Break(n) => ok := CompileExit(n, false, lev, env, fd, fl);
      case Continue(n) => ok := CompileExit(n, true, lev, env, fd, fl);
      case Return(e) => ok := CompileReturn(e, lev, env, fd, fl);
    }

    /** break and continue */
    method CompileExit(n: int, iscont: bool, ghost lev: nat, ghost env: Env, ghost fd: nat,
                       ghost fl: nat) returns (ok: bool)
      requires Ready(lev, env, fd, fl) && (env.top || 1 <= n <= |env.loops|)
      modifies this
      ensures var r := CompExit(lev, env, old(St()), n, iscont);
              ok == r.st.ok && (ok ==> Did(r, fl))
      decreases lev, 0, 0, 1
    {
      hide CompDefers, Emitted, Listed, WfEnv;
      ghost var k0, b0, st := code, binfo, St();
      if n < 1 || n > 0xffff || n > loops { return false; }
      var regstate := regs;
      var until := loopinfo[|loopinfo| - n];
      assert env.loops[|env.loops| - n] == until - fd;
      ghost var rd := CompDefers(lev, env, |env.defers|, until - fd, st);
      ok := CompileDefers(until, lev, env, fd, fl);
      if !ok { return; }
      EmittedPend(k0, b0, rd.code, fl, code, binfo, |env.loops| + 1 - n, iscont);
      binfo := [BreakInfo(|code|, loops + 1 - n, iscont)] + binfo;
      Emit(Placeholder);
      RegUnwind(regstate);
    }

    method CompileReturn(e: Option<Expr>, ghost lev: nat, ghost env: Env, ghost fd: nat,
                         ghost fl: nat) returns (ok: bool)
      requires Ready(lev, env, fd, fl) && env.top
      modifies this
      ensures var r := CompS(lev, env, old(St()), Return(e));
              ok == r.st.ok && (ok ==> Did(r, fl))
      decreases lev, 1, Return(e), 0
    {
      hide CompDefers, Emitted, Listed, WfEnv, CompE;
      ghost var k0, b0, st, c: seq<Instr> := code, binfo, St(), [];
      var regstate := regs;
      var arg := 0;
      ok := true;
      EmittedNone(k0, b0, fl);
      if e.Some? {
        ghost var r := CompE(vars, st, e.value, true);
        GrowsE(vars, st, e.value, true);
        PendE(vars, st, e.value, true, 0);
        EmittedPlain(k0, b0, r.code, fl);
        EmittedListed(k0, b0, r.code, fl, k0 + r.code, b0, loops, loops);
        c := r.code;
        SettlesDefers(lev, env, |env.defers|, 0, r.st);
        ok, arg := CompileNodeR(e.value, true);
        if !ok { return; }
      }
      ghost var k1, b1 := code, binfo;
      ghost var rd := CompDefers(lev, env, |env.defers|, 0, St());
      ok := CompileDefers(0, lev, env, fd, fl);
      if !ok { return; }
      EmittedThen(k0, b0, c, fl, k1, b1, rd.code, code, binfo);
      ghost var last := if e.Some? then Ret1(arg) else RetN(0);
      EmittedMore(k0, b0, c + rd.code, fl, code, binfo, [last]);
      assert (c + rd.code) + [last] == if e.Some? then c + (rd.code + [last]) else rd.code + [last];
      if e.Some? { Emit(Ret1(arg)); } else { Emit(RetN(0)); }
      RegUnwind(regstate);
    }

    /** A test and the placeholder of the jump that depends on it. */
    method CompileTest(c: Expr) returns (ok: bool, arg: int)
      requires |vars| <= regs
      modifies `code, `consts, `regs, `lastreg
      ensures var st := old(St());
              var rc := CompE(vars, st, c, true);
              && ok == rc.st.ok
              && (ok ==>
                    && code == old(code) + (rc.code + [Placeholder]) && St() == Unwind(rc.st, st.regs)
                    && arg == rc.out)
              && PendUpTo(rc.code, 0) && PendUpTo(rc.code + [Placeholder], 0)
    {
      hide CompE;
      var regstate := regs;
      PendE(vars, St(), c, true, 0);
      ok, arg := CompileNodeR(c, true);
      if !ok { return; }
      RegUnwind(regstate);
      Emit(Placeholder);
    }

    method CompileIf(c: Expr, t: Stmt, f: Option<Stmt>, ghost lev: nat, ghost env: Env, ghost fd: nat,
                     ghost fl: nat) returns (ok: bool)
      requires Ready(lev, env, fd, fl) && Wf(If(c, t, f), |env.loops|, env.top) && Depth(If(c, t, f)) <= lev
      modifies this
      ensures var r := CompS(lev, env, old(St()), If(c, t, f));
              ok == r.st.ok && (ok ==> Did(r, fl))
      decreases lev, 1, If(c, t, f), 0
    {
      hide Emitted, Listed, WfEnv, CompE, CompS, EnvOf, Floors, Wf, Depth, PendUpTo;
      ghost var k0, b0, st := code, binfo, St();
      ghost var rc := CompE(vars, st, c, true);
      IfParts(c, t, f, |env.loops|, env.top, lev);
      ghost var rt := CompS(lev, env, Unwind(rc.st, st.regs), t);
      IfCode(lev, env, st, c, t, f);
      var jp1, arg;
      ok, jp1, arg := CompileThen(c, t, lev, env, fd, fl);
      if !ok { return; }
      if f.None? {
        ok := SkipThen(jp1, arg, fl, k0, b0, rc.code, rt.code);
      } else {
        ok := CompileElse(f.value, jp1, arg, lev, env, fd, fl, k0, b0, rc.code, rt.code);
      }
    }

    /** The test, a placeholder for the jump it waits for, and the then branch. */
    method CompileThen(c: Expr, t: Stmt, ghost lev: nat, ghost env: Env, ghost fd: nat, ghost fl: nat)
      returns (ok: bool, jp1: nat, arg: int)
      requires Ready(lev, env, fd, fl) && Wf(t, |env.loops|, env.top) && Depth(t) <= lev
      modifies this
      ensures var st := old(St());
              var rc := CompE(old(vars), st, c, true);
              var rt := CompS(lev, env, Unwind(rc.st, st.regs), t);
              && ok == (rc.st.ok && rt.st.ok)
              && (ok ==>
                    && arg == rc.out && jp1 == |old(code)| + |rc.code| + 1 && |code| == jp1 + |rt.code|
                       && St() == rt.st == Unwind(rt.st, st.regs)
                    && Emitted(old(code), old(binfo), rc.code + ([Placeholder] + rt.code), fl, code, binfo)
                    && PendUpTo(rc.code, 0) && PendUpTo(rt.code, |env.loops|) && Ready(lev, env, fd, fl)
                    && unchanged(`vars, `loops, `defers, `loopinfo))
      decreases lev, 1, t, 2
    {
      hide Emitted, Listed, WfEnv, CompE, CompS, EnvOf, Floors, Wf, Depth, Prefix, Peak;
      ghost var k0, b0, st := code, binfo, St();
      ghost var rc := CompE(vars, st, c, true);
      var regstate := regs;
      jp1 := 0;
      ok, arg := CompileTest(c);
      if !ok { return; }
      jp1 := |code|;
      ghost var head := rc.code + [Placeholder];
      EmittedPlain(k0, b0, head, fl);
      EmittedListed(k0, b0, head, fl, code, binfo, loops, loops);
      ghost var k1, b1, st1 := code, binfo, St();
      ghost var rt := CompS(lev, env, st1, t);
      SettlesS(lev, env, st1, t);
      PendS(lev, env, st1, t);
      ok := CompileNode(t, lev, env, fd, fl);
      if !ok { return; }
      EmittedThen(k0, b0, head, fl, k1, b1, rt.code, code, binfo);
      EmittedLength(k1, b1, rt.code, fl, code, binfo);
      RegUnwind(regstate);
      assert head + rt.code == rc.code + ([Placeholder] + rt.code);
      assert PendUpTo(head + rt.code, |env.loops|);
      EmittedListed(k0, b0, head + rt.code, fl, code, binfo, loops, loops);
    }

    /** Without an else branch: the jump over the then branch. */
    method SkipThen(jp1: nat, arg: int, ghost fl: nat, ghost k0: seq<Instr>, ghost b0: seq<BreakInfo>,
                    ghost c: seq<Instr>, ghost t: seq<Instr>)
      returns (ok: bool)
      requires Emitted(k0, b0, c + ([Placeholder] + t), fl, code, binfo) && jp1 == |k0| + |c| + 1 && |code| == jp1 + |t|
      modifies `code
      ensures ok == InJumpRange(|t|)
              && (ok ==> Emitted(k0, b0, c + ([CondJump(IfFalse, |t|, arg)] + t), fl, code, binfo))
    {
      hide Emitted;
      var off := |code| - jp1;
      if off > 32767 || off < -32767 { return false; }
      EmittedFix(k0, b0, c, t, fl, code, binfo, CondJump(IfFalse, off, arg));
      Fix(jp1 - 1, CondJump(IfFalse, off, arg));
      ok := true;
    }

    method CompileElse(f: Stmt, jp1: nat, arg: int, ghost lev: nat, ghost env: Env, ghost fd: nat, ghost fl: nat,
                       ghost k0: seq<Instr>, ghost b0: seq<BreakInfo>, ghost c: seq<Instr>, ghost t: seq<Instr>)
                           returns (ok: bool)
      requires Ready(lev, env, fd, fl) && Wf(f, |env.loops|, env.top) && Depth(f) <= lev && Listed(k0, b0, loops)
      requires Emitted(k0, b0, c + ([Placeholder] + t), fl, code, binfo) && jp1 == |k0| + |c| + 1
      requires |code| == jp1 + |t| && PendUpTo(c, 0) && PendUpTo(t, |env.loops|)
      modifies this
      ensures var st := old(St());
              var r := CompS(lev, env, st, f);
              && ok == (r.st.ok && InJumpRange(|t| + 1) && InJumpRange(|r.code|))
              && (ok ==> Emitted(k0, b0, c + ([CondJump(IfFalse, |t| + 1, arg)] + (t + ([Jump(|r.code|)] + r.code))),
                 fl, code, binfo)
                         && St() == Unwind(r.st, st.regs) && unchanged(`vars, `loops, `defers, `loopinfo))
      decreases lev, 1, f, 3
    {
      hide Emitted, Listed, WfEnv, CompS;
      ghost var st, more: seq<Instr> := St(), [Placeholder];
      var regstate := regs;
      ghost var c1 := c + ([Placeholder] + t);
      EmittedMore(k0, b0, c1, fl, code, binfo, more);
      assert c1 + more == c + ([Placeholder] + (t + more));
      Emit(Placeholder);
      var jp2 := |code|;
      var off := jp2 - jp1;
      if off > 32767 || off < -32767 { return false; }
      EmittedFix(k0, b0, c, t + more, fl, code, binfo, CondJump(IfFalse, off, arg));
      Fix(jp1 - 1, CondJump(IfFalse, off, arg));
      ghost var head := c + ([CondJump(IfFalse, |t| + 1, arg)] + t);
      assert c + ([CondJump(IfFalse, off, arg)] + (t + more)) == head + more;
      EmittedListed(k0, b0, head + more, fl, code, binfo, loops, loops);
      ghost var k1, b1, r := code, binfo, CompS(lev, env, st, f);
      ok := CompileNode(f, lev, env, fd, fl);
      if !ok { return; }
      EmittedThen(k0, b0, head + more, fl, k1, b1, r.code, code, binfo);
      EmittedLength(k1, b1, r.code, fl, code, binfo);
      var off2 := |code| - jp2;
      if off2 > 32767 || off2 < -32767 { return false; }
      assert (head + more) + r.code == head + ([Placeholder] + r.code);
      EmittedFix(k0, b0, head, r.code, fl, code, binfo, Jump(off2));
      Fix(jp2 - 1, Jump(off2));
      assert head + ([Jump(off2)] + r.code) == c
             + ([CondJump(IfFalse, |t| + 1, arg)] + (t + ([Jump(|r.code|)] + r.code)));
      RegUnwind(regstate);
    }

    /** The body of a loop, from LOOP_BEGIN to compile_breaks for its continues. */
    method LoopBody(body: seq<Stmt>, ghost lev: nat, ghost env: Env, ghost fd: nat, ghost fl: nat,
                    ghost k0: seq<Instr>, ghost b0: seq<BreakInfo>, ghost x: seq<Instr>) returns (ok: bool)
      requires Floors(defers, loopinfo, fd, fl, env.top) && env == EnvOf(vars, defers, loopinfo, fd, fl, env.top)
      requires WfEnv(lev, env) && WfEnv(lev, EnterLoop(env)) && loops == |loopinfo| + 1 && |vars| <= regs
      requires WfSeq(body, |env.loops| + 1, env.top) && DepthSeq(body) <= lev
      requires Emitted(k0, b0, x, fl, code, binfo) && PendUpTo(x, 0) && Listed(k0, b0, loops - 1)
      modifies this
      ensures var st := old(St());
              var rb := CompSeq(lev, EnterLoop(env), |env.defers|, st, body);
              var d := |env.loops| + 1;
              && ok == (rb.st.ok && PatchInRange(rb.code, d, true, |rb.code|))
              && (ok ==>
                    && Emitted(k0, b0, x + Patch(rb.code, d, true, |rb.code|), fl, code, binfo)
                    && PendUpTo(Patch(rb.code, d, true, |rb.code|), d) && |code| == |k0| + |x| + |rb.code|
                    && St() == Unwind(rb.st, st.regs) && unchanged(`vars, `loops, `defers, `loopinfo))
      decreases lev, 1, body, 1
    {
      hide Emitted, Listed, WfEnv, CompSeq, EnvOf, Floors, Patch, PatchInRange, Patched, AllInRange, Rest, WfSeq,
          DepthSeq;
      ghost var st, k1, b1, d := St(), code, binfo, |env.loops| + 1;
      var regstate := regs;
      EnvPush(vars, defers, loopinfo, fd, fl, env.top, lev);
      EmittedListed(k0, b0, x, fl, code, binfo, loops - 1, loops);
      ghost var rb := CompSeq(lev, EnterLoop(env), |env.defers|, st, body);
      PendSeq(lev, EnterLoop(env), |env.defers|, st, body);
      loopinfo := loopinfo + [|defers|];
      ok := CompileBlock(body, lev, EnterLoop(env), fd, fl);
      if !ok { return; }
      loopinfo := loopinfo[..|loopinfo| - 1];
      RegUnwind(regstate);
      EmittedThen(k0, b0, x, fl, k1, b1, rb.code, code, binfo);
      assert x + rb.code == x + (rb.code + []);
      BreaksBefore(k0, b0, x, rb.code, [], fl, code, binfo, d, true);
      ghost var k2, b2 := code, binfo;
      ok := CompileBreaks(true);
      if !ok { return; }
      BreaksAfter(k0, b0, x, rb.code, [], fl, k2, b2, d, true, code);
      assert x + (Patch(rb.code, d, true, |rb.code|) + []) == x + Patch(rb.code, d, true, |rb.code|);
      PendPatchedOne(rb.code, d, true, |rb.code|);
      EmittedLength(k0, b0, x + Patch(rb.code, d, true, |rb.code|), fl, code, binfo);
    }

    /** The end of a loop: compile_breaks for its breaks. */
    method LoopEnd(ghost fl: nat, ghost d: int, ghost k0: seq<Instr>, ghost b0: seq<BreakInfo>, ghost x: seq<Instr>,
                   ghost b: seq<Instr>, ghost y: seq<Instr>)
      returns (ok: bool)
      requires loops > 0 && loops == d + fl && Emitted(k0, b0, x + (b + y), fl, code, binfo)
               && Listed(k0, b0, loops - 1)
      requires PendUpTo(x, 0) && PendUpTo(b, d) && PendUpTo(y, 0)
      modifies `code, `binfo, `loops
      ensures ok == PatchInRange(b, d, false, |b| + |y|)
      ensures ok ==> Emitted(k0, b0, x + (Patch(b, d, false, |b| + |y|) + y), fl, code, binfo)
      ensures ok ==> loops == old(loops) - 1
    {
      hide Emitted, Listed, Patch, PatchInRange, Patched, AllInRange, Rest;
      BreaksBefore(k0, b0, x, b, y, fl, code, binfo, d, false);
      ghost var k2, b2 := code, binfo;
      ok := CompileBreaks(false);
      if !ok { return; }
      BreaksAfter(k0, b0, x, b, y, fl, k2, b2, d, false, code);
      loops := loops - 1;
    }

    /** The start of a while or for loop: initialisation and test. */
    method ForHead(init: Option<seq<Expr>>, test: Option<Expr>) returns (ok: bool, codesize: nat, arg: int)
      requires |vars| <= regs
      modifies `code, `consts, `regs, `lastreg
      ensures var st := old(St());
              var ri := CompInit(vars, st, init);
              var rc := if test.Some? then CompE(vars, ri.st, test.value, true) else ECode([], ri.st, 0);
              var head := ri.code + rc.code;
              var hole := if test.Some? then [Placeholder] else [];
              && (ok ==> rc.st.ok) && (ri.st.ok && rc.st.ok ==> ok)
              && (ok ==> code == old(code) + (head + hole) && St() == Unwind(rc.st, st.regs) && arg == rc.out
                         && codesize == |old(code)| + |ri.code|)
              && PendUpTo(head, 0) && PendUpTo(head + hole, 0)
    {
      hide CompE, CompInit;
      var regstate := regs;
      PendInit(vars, St(), init, 0);
      codesize, arg := 0, 0;
      ok := CompileInit(init);
      if !ok {
        if test.Some? { PendE(vars, CompInit(vars, old(St()), init).st, test.value, true, 0); }
        return;
      }
      codesize := |code|;
      if test.Some? { ok, arg := CompileTest(test.value); } else { RegUnwind(regstate); }
    }

    /** while and for: a while loop has no expression lists. */
    method CompileFor(init: Option<seq<Expr>>, test: Option<Expr>, incr: Option<seq<Expr>>, body: seq<Stmt>,
                      ghost lev: nat, ghost env: Env, ghost fd: nat, ghost fl: nat) returns (ok: bool)
      requires Ready(lev, env, fd, fl) && WfSeq(body, |env.loops| + 1, env.top) && DepthSeq(body) <= lev
      modifies this
      ensures var r := CompFor(lev, env, old(St()), init, test, incr, body);
              ok == r.st.ok && (ok ==> Did(r, fl))
      decreases lev, 1, body, 2
    {
      hide Emitted, Listed, WfEnv, CompE, CompSeq, CompInit, EnvOf, Floors, Patch, PatchInRange, Patched, AllInRange,
          Rest, CompFor, WfSeq, DepthSeq, PendUpTo, InJumpRange;
      ghost var k0, b0, st, d := code, binfo, St(), |env.loops| + 1;
      EnvPush(vars, defers, loopinfo, fd, fl, env.top, lev);
      ForCode(lev, env, st, init, test, incr, body);
      var regstate := regs;
      loops := loops + 1;
      var codesize, arg;
      ok, codesize, arg := ForHead(init, test);
      if !ok { return; }
      var jp1 := |code|;
      ghost var ri := CompInit(vars, st, init);
      ghost var rc := if test.Some? then CompE(vars, ri.st, test.value, true) else ECode([], ri.st, 0);
      ghost var head, hole: seq<Instr> := ri.code + rc.code, if test.Some? then [Placeholder] else [];
      EmittedPlain(k0, b0, head + hole, fl);

      ghost var st2 := St();
      ghost var rb := CompSeq(lev, EnterLoop(env), |env.defers|, st2, body);
      ok := LoopBody(body, lev, env, fd, fl, k0, b0, head + hole);
      if !ok { return; }
      ghost var b1 := Patch(rb.code, d, true, |rb.code|);
      ghost var ru := CompInit(vars, St(), incr);
      ok := ForTail(incr, codesize, jp1, test.Some?, arg, fl, d, k0, b0, head, b1);
      if !ok { return; }
      RegUnwind(regstate);
      ghost var skip := if test.Some? then [CondJump(IfFalse, |b1| + |ru.code| + 1, arg)] else [];
      ghost var b2, y := Patch(b1, d, false, |b1| + |ru.code| + 1), ru.code
          + [Jump(codesize - jp1 - |b1| - |ru.code| - 1)];
      Regroup(ri.code, rc.code, skip, b2 + y);
    }

    /** The rest of a while or for loop: increments, the jump back, the jump that its test
        waits for, its breaks. */
    method ForTail(incr: Option<seq<Expr>>, codesize: nat, jp1: nat, tested: bool, arg: int,
                   ghost fl: nat, ghost d: int, ghost k0: seq<Instr>, ghost b0: seq<BreakInfo>,
                       ghost head: seq<Instr>, ghost b: seq<Instr>)
      returns (ok: bool)
      requires |vars| <= regs && loops > 0 && loops == d + fl && Listed(k0, b0, loops - 1)
      requires Emitted(k0, b0, (head + (if tested then [Placeholder] else [])) + b, fl, code, binfo)
      requires jp1 == |k0| + |head| + (if tested then 1 else 0) && |code| == jp1 + |b|
      requires PendUpTo(head, 0) && PendUpTo(b, d)
      modifies `code, `consts, `regs, `lastreg, `binfo, `loops
      ensures var st := old(St());
              var ru := CompInit(vars, st, incr);
              var t := |b| + |ru.code| + 1;
              var off := codesize - jp1 - t;
              var skip := if tested then [CondJump(IfFalse, t, arg)] else [];
              && ok == (ru.st.ok && InJumpRange(off) && PatchInRange(b, d, false, t))
              && (ok ==> Emitted(k0, b0, (head + skip) + (Patch(b, d, false, t) + (ru.code + [Jump(off)])), fl, code,
                 binfo)
                         && St() == Unwind(ru.st, st.regs) && loops == old(loops) - 1)
    {
      hide Emitted, Listed, CompInit, Patch, PatchInRange;
      var regstate := regs;
      ghost var hole, k2 := if tested then [Placeholder] else [], code;
      ghost var ru := CompInit(vars, St(), incr);
      PendInit(vars, St(), incr, 0);
      ok := CompileInit(incr);
      if !ok { return; }
      RegUnwind(regstate);
      var jp2 := |code|;
      var off := codesize - jp2 - 1;
      if off > 32767 || off < -32767 { return false; }
      Emit(Jump(off));
      ghost var y := ru.code + [Jump(off)];
      EmittedMore(k0, b0, (head + hole) + b, fl, k2, binfo, y);
      assert code == k2 + y;
      ghost var skip := if tested then [CondJump(IfFalse, jp2 - jp1 + 1, arg)] else [];
      assert ((head + hole) + b) + y == head + (hole + (b + y));
      if tested {
        EmittedFix(k0, b0, head, b + y, fl, code, binfo, CondJump(IfFalse, jp2 - jp1 + 1, arg));
        Fix(jp1 - 1, CondJump(IfFalse, jp2 - jp1 + 1, arg));
      }
      assert head + (skip + (b + y)) == (head + skip) + (b + y);
      ok := LoopEnd(fl, d, k0, b0, head + skip, b, y);
    }

    method CompileInit(es: Option<seq<Expr>>) returns (ok: bool)
      requires |vars| <= regs
      modifies `code, `consts, `regs, `lastreg
      ensures var r := CompInit(vars, old(St()), es);
              ok == r.st.ok && (ok ==> code == old(code) + r.code && St() == r.st && regs == old(regs))
    {
      GrowsInit(vars, St(), es);
      ok := true;
      if es.Some? { ok := CompileEffects(es.value); }
    }

    method CompileDo(body: seq<Stmt>, c: Expr, ghost lev: nat, ghost env: Env, ghost fd: nat,
                     ghost fl: nat) returns (ok: bool)
      requires Ready(lev, env, fd, fl) && WfSeq(body, |env.loops| + 1, env.top) && DepthSeq(body) <= lev
      modifies this
      ensures var r := CompDo(lev, env, old(St()), body, c);
              ok == r.st.ok && (ok ==> Did(r, fl))
      decreases lev, 1, body, 2
    {
      hide Emitted, Listed, WfEnv, CompE, CompSeq, EnvOf, Floors, Patch, PatchInRange, CompDo, WfSeq, DepthSeq,
          InJumpRange, PendUpTo;
      ghost var k0, b0, st, d := code, binfo, St(), |env.loops| + 1;
      EnvPush(vars, defers, loopinfo, fd, fl, env.top, lev);
      DoCode(lev, env, st, body, c);
      var regstate := regs;
      loops := loops + 1;
      var codesize := |code|;
      EmittedNone(k0, b0, fl);
      PendNone(0);
      ghost var rb := CompSeq(lev, EnterLoop(env), |env.defers|, st, body);
      ok := LoopBody(body, lev, env, fd, fl, k0, b0, []);
      if !ok { return; }
      ghost var b1, k2 := Patch(rb.code, d, true, |rb.code|), code;
      ghost var y;
      ok, y := TestBack(c, codesize);
      if !ok { return; }
      EmittedMore(k0, b0, [] + b1, fl, k2, binfo, y);
      assert code == k2 + y && ([] + b1) + y == [] + (b1 + y);
      ok := LoopEnd(fl, d, k0, b0, [], b1, y);
      if !ok { return; }
      RegUnwind(regstate);
      ghost var b2 := Patch(b1, d, false, |b1| + |y|);
      assert [] + (b2 + y) == b2 + y;
    }

    /** The test of a do loop and the jump back to position `to`, if it is not too far. */
    method TestBack(c: Expr, to: nat) returns (ok: bool, ghost y: seq<Instr>)
      requires |vars| <= regs && to <= |code|
      modifies `code, `consts, `regs, `lastreg
      ensures var st := old(St());
              var rc := CompE(vars, st, c, true);
              var back := to - (|old(code)| + |rc.code|) - 1;
              && ok == (rc.st.ok && InJumpRange(back)) && PendUpTo(y, 0)
              && (ok ==>
                    && y == rc.code + [CondJump(IfTrue, back, rc.out)] && code == old(code) + y
                    && St() == Unwind(rc.st, st.regs))
    {
      hide CompE;
      y := [];
      PendE(vars, St(), c, true, 0);
      ghost var rc := CompE(vars, St(), c, true);
      var regstate, arg := regs, 0;
      ok, arg := CompileNodeR(c, true);
      if !ok { return; }
      RegUnwind(regstate);
      var off := to - |code| - 1;
      if off > 32767 || off < -32767 { return false, y; }
      Emit(CondJump(IfTrue, off, arg));
      y := rc.code + [CondJump(IfTrue, off, arg)];
    }

    /** The bounds of a numeric loop, into the three hidden registers behind its variable. */
    method NumHead(arg: int, start: Option<Expr>, last: Expr, stride: Option<Expr>, ghost fl: nat) returns (ok: bool,
                   ghost head: seq<Instr>)
      requires |vars| <= regs
      modifies `code, `consts, `regs, `lastreg
      ensures var st := old(St());
              var r1 := CompBound(vars, st, start, 0, arg + 1);
              var r2 := CompInto(vars, r1.st, last, arg + 2);
              var r3 := CompBound(vars, r2.st, stride, 1, arg + 3);
              && head == r1.code + (r2.code + r3.code) && PendUpTo(head, 0) && PendUpTo(head + [Placeholder], 0)
              && (ok ==> r3.st.ok) && (r1.st.ok && r2.st.ok && r3.st.ok ==> ok)
              && (ok ==>
                    && Emitted(old(code), binfo, head + [Placeholder], fl, code, binfo)
                    && |code| == |old(code)| + |head| + 1
                         && St() == r3.st && regs >= old(regs))
    {
      hide CompBound, CompInto, Emitted;
      ghost var st, k0 := St(), code;
      ghost var r1 := CompBound(vars, st, start, 0, arg + 1);
      ghost var r2 := CompInto(vars, r1.st, last, arg + 2);
      head := r1.code + (r2.code + CompBound(vars, r2.st, stride, 1, arg + 3).code);
      GrowsBound(vars, st, start, 0, arg + 1);
      GrowsInto(vars, r1.st, last, arg + 2);
      GrowsBound(vars, r2.st, stride, 1, arg + 3);
      PendBound(vars, st, start, 0, arg + 1, 0);
      PendBound(vars, r1.st, Some(last), 0, arg + 2, 0);
      BoundIsInto(vars, r1.st, last, arg + 2);
      PendBound(vars, r2.st, stride, 1, arg + 3, 0);
      ok := CompileBound(start, 0, arg + 1);
      if !ok { return; }
      ok := CompileNodeRrw(last, arg + 2);
      if !ok { return; }
      ok := CompileBound(stride, 1, arg + 3);
      if !ok { return; }
      Emit(Placeholder);
      assert code == k0 + (head + [Placeholder]);
      EmittedPlain(k0, binfo, head + [Placeholder], fl);
    }

    method CompileNum(x: Name, start: Option<Expr>, last: Expr, stride: Option<Expr>, body: seq<Stmt>,
                      ghost lev: nat, ghost env: Env, ghost fd: nat, ghost fl: nat) returns (ok: bool)
      requires Ready(lev, env, fd, fl) && WfSeq(body, |env.loops| + 1, env.top) && DepthSeq(body) <= lev
      modifies this
      ensures var r := CompNum(lev, env, old(St()), x, start, last, stride, body);
              ok == r.st.ok && (ok ==> Did(r, fl))
      decreases lev, 1, body, 2
    {
      hide Emitted, Listed, WfEnv, CompE, CompSeq, CompBound, CompInto, EnvOf, Floors, Patch, PatchInRange, CompNum,
          WfSeq, DepthSeq, Find, InJumpRange, PendUpTo;
      ghost var k0, b0, st, d := code, binfo, St(), |env.loops| + 1;
      EnvPush(vars, defers, loopinfo, fd, fl, env.top, lev);
      NumCode(lev, env, st, x, start, last, stride, body);
      var regstate := regs;
      var arg := FindVar(x);
      loops := loops + 1;
      ghost var head;
      ok, head := NumHead(arg, start, last, stride, fl);
      if !ok { return; }
      ghost var r1 := CompBound(vars, st, start, 0, arg + 1);
      ghost var r2 := CompInto(vars, r1.st, last, arg + 2);
      ghost var r3 := CompBound(vars, r2.st, stride, 1, arg + 3);
      var jp1 := |code|;
      ghost var rb := CompSeq(lev, EnterLoop(env), |env.defers|, r3.st, body);
      ok := LoopBody(body, lev, env, fd, fl, k0, b0, head + [Placeholder]);
      if !ok { return; }
      RegUnwind(regstate);
      ghost var b1 := Patch(rb.code, d, true, |rb.code|);
      ok := NumTail(jp1, arg, fl, d, k0, b0, head, b1);
      if !ok { return; }
      RegUnwind(regstate);
      ghost var b2, y := Patch(b1, d, false, |b1| + 1), [NForJump(-|b1| - 1, arg)];
      assert (head + [NForPrep(|b1| + 1, arg)]) + (b2 + y) == r1.code
             + (r2.code + (r3.code + ([NForPrep(|b1| + 1, arg)] + (b2 + y))));
    }

    method NumTail(jp1: nat, arg: int, ghost fl: nat, ghost d: int, ghost k0: seq<Instr>, ghost b0: seq<BreakInfo>,
                   ghost head: seq<Instr>, ghost b: seq<Instr>)
      returns (ok: bool)
      requires loops > 0 && loops == d + fl && Listed(k0, b0, loops - 1)
      requires Emitted(k0, b0, (head + [Placeholder]) + b, fl, code, binfo) && jp1 == |k0| + |head| + 1
      requires PendUpTo(head, 0) && PendUpTo(b, d)
      modifies `code, `binfo, `loops
      ensures var x, y := head + [NForPrep(|b| + 1, arg)], [NForJump(-|b| - 1, arg)];
              && ok == (InJumpRange(1 - |b|) && PatchInRange(b, d, false, |b| + 1))
              && (ok ==>
                    && Emitted(k0, b0, x + (Patch(b, d, false, |b| + 1) + y), fl, code, binfo)
                    && loops == old(loops) - 1)
    {
      hide Emitted, Listed, Patch, PatchInRange;
      EmittedLength(k0, b0, (head + [Placeholder]) + b, fl, code, binfo);
      var jp2 := |code|;
      var off := jp1 - jp2 - 1;
      if off + 2 > 32767 || off + 2 < -32767 { return false; }
      ghost var k2, y := code, [NForJump(off, arg)];
      Emit(NForJump(off, arg));
      EmittedMore(k0, b0, (head + [Placeholder]) + b, fl, k2, binfo, y);
      assert ((head + [Placeholder]) + b) + y == head + ([Placeholder] + (b + y));
      EmittedFix(k0, b0, head, b + y, fl, code, binfo, NForPrep(jp2 - jp1 + 1, arg));
      Fix(jp1 - 1, NForPrep(jp2 - jp1 + 1, arg));
      ghost var x := head + [NForPrep(jp2 - jp1 + 1, arg)];
      assert head + ([NForPrep(jp2 - jp1 + 1, arg)] + (b + y)) == x + (b + y);
      ok := LoopEnd(fl, d, k0, b0, x, b, y);
    }

    /* ---- whole functions ---- */

    /** expand_varlist: inserts the hidden registers while walking the list. */
    method ExpandVarlist()
      modifies `vars
      ensures vars == Expand(old(vars))
    {
      hide Expand;
      var i := 0;
      assert vars[..0] == [] && vars[0..] == vars;
      while i < |vars|
        invariant i <= |vars| && vars[..i] + Expand(vars[i..]) == Expand(old(vars))
        decreases |vars| - i
      {
        ExpandStep(vars, i);
        if vars[i].numfor {
          vars := vars[..i + 1] + NUM_HIDDEN + vars[i + 1..];
          i := i + 3;
        }
        i := i + 1;
      }
      ExpandDone(vars);
    }

    /** comp_reg_alloc_n: stops at the first error. */
    method RegAllocN(n: nat) returns (ok: bool)
      modifies `regs
      ensures ok == AllocN(old(St()), n).ok
      ensures ok ==> St() == AllocN(old(St()), n) && regs == old(regs) + n
    {
      ok := true;
      ghost var all := AllocN(St(), n);
      var k: nat := n;
      while k > 0
        invariant ok && k <= n && regs == old(regs) + (n - k) && all == AllocN(St(), k)
      {
        var out;
        ok, out := RegAlloc();
        if !ok { return; }
        k := k - 1;
      }
    }

    /** prefix_bytecode: closures take over the arguments they capture, then the code, then
        a return that the VM never runs past. */
    method PrefixBytecode(args: nat, clsr: seq<Name>, captures: bool) returns (ghost pre: seq<Instr>)
      requires args <= |vars| && args <= 256 && |clsr| <= 256
      modifies `code
      ensures IsPrefix(pre) && code == Assemble(pre, old(code))
      ensures IsCapture(vars, clsr, if captures then args else 0, pre)
    {
      var ncode := [];
      if captures {
        var i := 0;
        while i < args
          invariant i <= args && IsPrefix(ncode) && IsCapture(vars, clsr, i, ncode) && code == old(code)
        {
          hide IsCapture, IsPrefix;
          var which := 0;
          while which < |clsr| && clsr[which] != vars[i].name
            invariant which <= |clsr| && forall j | 0 <= j < which :: clsr[j] != vars[i].name
          {
            which := which + 1;
          }
          if which < |clsr| {
            CapturePut(vars, clsr, i, ncode, which);
            PrefixPut(ncode, which, i);
            ncode := ncode + [SetClsr(which, i)];
          } else {
            CaptureSkip(vars, clsr, i, ncode);
          }
          i := i + 1;
        }
      }
      pre := ncode;
      code := ncode + code + [RetN(0)];
    }

    /** compile_fn_base for a function with these variables, arguments first. */
    method CompileFn(varlist: seq<FCVar>, args: nat, body: Stmt, clsr: seq<Name>, captures: bool, ghost lev: nat)
      returns (ok: bool, numtmp: int, ghost pre: seq<Instr>)
      requires code == [] && consts == [] && regs == 0 && lastreg == -1 && loops == 0 && binfo == [] && defers == []
               && loopinfo == []
      requires Wf(body, 0, true) && Depth(body) <= lev && args <= |Expand(varlist)| && |clsr| <= 256
      modifies this
      ensures var fn := CompFn(lev, Expand(varlist), body);
              && ok == fn.st.ok
              && (ok ==> IsPrefix(pre) && code == Assemble(pre, fn.code) && consts == fn.st.consts
                         && args + numtmp == fn.st.lastreg && vars == Expand(varlist) && binfo == [])
      ensures ok ==> IsCapture(Expand(varlist), clsr, if captures then args else 0, pre)
    {
      hide CompS, Emitted, Listed, Wf, Depth;
      numtmp, pre := 0, [];
      vars := varlist;
      ExpandVarlist();
      ghost var st0 := AllocN(START, |vars|);
      FnStart(lev, vars, body);
      FnSteps(lev, vars, body);
      if CompFn(lev, vars, body).st.ok { FnFacts(lev, vars, body); }
      ok := RegAllocN(|vars|);
      if !ok { return; }
      ListedNone(code, loops);
      ghost var r := CompS(lev, TopEnv(vars), st0, body);
      ok := CompileNode(body, lev, TopEnv(vars), 0, 0);
      if !ok { return; }
      RegUnwind(0);
      if lastreg > 0xff { return false, 0, []; }
      PendS(lev, TopEnv(vars), st0, body);
      EmittedShape(r.code, code, binfo);
      pre := PrefixBytecode(args, clsr, captures);
      numtmp := lastreg - args;
    }
  }
}
