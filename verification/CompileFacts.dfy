/** What compiling never undoes: constants are only added, the register maximum only
    grows, an error stays an error, and a construct gives back its temporaries. */
module CompileFacts {
  import opened Bytecode
  import opened Source
  import opened Compile

  /* One unfolding of the generator for the composite expressions. */

  lemma UnaryCode(vars: seq<FCVar>, st: CState, op: UnOp, a: Expr, wanted: bool)
    ensures var r := CompE(vars, Alloc(st), a, true);
            CompE(vars, st, Unary(op, a), wanted) == ECode(r.code + [UnInstr(op, st.regs, r.out)], r.st, st.regs)
  {
  }

  lemma BinaryCode(vars: seq<FCVar>, st: CState, op: BinOp, a: Expr, b: Expr, wanted: bool)
    ensures var ra := CompE(vars, Alloc(st), a, true);
            var rb := CompE(vars, ra.st, b, true);
            CompE(vars, st, Binary(op, a, b), wanted)
                == ECode(ra.code + (rb.code + [BinI(op, st.regs, ra.out, rb.out)]), rb.st, st.regs)
  {
  }

  lemma LazyCode(vars: seq<FCVar>, st: CState, op: Logic, a: Expr, b: Expr, wanted: bool)
    ensures var ra := CompE(vars, Alloc(st), a, true);
            var rb := CompE(vars, ra.st, b, true);
            var l := [CondJump(LazyCond(op), 2, ra.out), Set(st.regs, ra.out), Jump(|rb.code| + 1)];
            CompE(vars, st, Lazy(op, a, b), wanted)
                == ECode(ra.code + (l + (rb.code + [Set(st.regs, rb.out)])), rb.st, st.regs)
  {
  }

  lemma OpAssignCode(vars: seq<FCVar>, st: CState, op: BinOp, x: Name, a: Expr, wanted: bool)
    ensures var r := CompE(vars, Alloc(st), a, true);
            var reg := Find(vars, x);
            var l := [BinI(op, st.regs, reg, r.out), Set(reg, st.regs)];
            CompE(vars, st, OpAssign(op, x, a), wanted) == ECode(r.code + l, Unwind(r.st, r.st.regs), reg)
  {
  }

  lemma LazyAssignCode(vars: seq<FCVar>, st: CState, op: Logic, x: Name, a: Expr, wanted: bool)
    ensures var r := CompE(vars, Unwind(st, st.regs), a, true);
            var reg := Find(vars, x);
            var w := CompWrite(reg, r.out);
            var l := [CondJump(LazyCond(op), 1, reg), Jump(|r.code| + |w|)];
            CompE(vars, st, LazyAssign(op, x, a), wanted) == ECode(l + (r.code + w), Unwind(r.st, r.st.regs), reg)
  {
  }

  predicate Prefix(a: seq<Value>, b: seq<Value>) {
    |a| <= |b| && forall i | 0 <= i < |a| :: a[i] == b[i]
  }

  predicate Grows(a: CState, b: CState) {
    Prefix(a.consts, b.consts) && (b.ok ==> a.ok) && Peak(a) <= Peak(b)
  }

  lemma {:induction false} GrowsE(vars: seq<FCVar>, st: CState, e: Expr, wanted: bool)
    ensures var r := CompE(vars, st, e, wanted); Grows(st, r.st) && st.regs <= r.st.regs
    decreases e
  {
    match e
    case Const(v) =>
    case Var(x) =>
    case Unary(op, a) => GrowsE(vars, Alloc(st), a, true);
    case Binary(op, a, b) =>
      GrowsE(vars, Alloc(st), a, true);
      GrowsE(vars, CompE(vars, Alloc(st), a, true).st, b, true);
    case Lazy(op, a, b) =>
      GrowsE(vars, Alloc(st), a, true);
      GrowsE(vars, CompE(vars, Alloc(st), a, true).st, b, true);
    case Assign(x, a) => GrowsE(vars, st, a, true);
    case OpAssign(op, x, a) => GrowsE(vars, Alloc(st), a, true);
    case LazyAssign(op, x, a) => GrowsE(vars, Unwind(st, st.regs), a, true);
    case Bump(inc, postfix, x) =>
  }

  lemma GrowsEffect(vars: seq<FCVar>, st: CState, e: Expr)
    ensures var r := CompEffect(vars, st, e); Grows(st, r.st) && r.st.regs == st.regs <= r.st.lastreg
  {
    GrowsE(vars, st, e, false);
  }

  lemma {:induction false} GrowsEffects(vars: seq<FCVar>, st: CState, es: seq<Expr>)
    ensures var r := CompEffects(vars, st, es); Grows(st, r.st) && r.st.regs == st.regs <= r.st.lastreg
    decreases es
  {
    if es != [] {
      GrowsEffect(vars, st, es[0]);
      GrowsEffects(vars, CompEffect(vars, st, es[0]).st, es[1..]);
    }
  }

  lemma GrowsInit(vars: seq<FCVar>, st: CState, es: Option<seq<Expr>>)
    ensures var r := CompInit(vars, st, es); Grows(st, r.st) && r.st.regs == st.regs
  {
    if es.Some? { GrowsEffects(vars, st, es.value); }
  }

  lemma GrowsBound(vars: seq<FCVar>, st: CState, e: Option<Expr>, v: int, dst: int)
    ensures var r := CompBound(vars, st, e, v, dst); Grows(st, r.st) && st.regs <= r.st.regs
  {
    if e.Some? { GrowsE(vars, st, e.value, true); }
  }

  /** Statement-level: the watermark is back where it was. */
  predicate Settles(a: CState, b: CState) {
    Grows(a, b) && b.regs == a.regs
  }

  lemma {:induction false} SettlesS(lev: nat, env: Env, st: CState, s: Stmt)
    requires WfEnv(lev, env) && Wf(s, |env.loops|, env.top) && Depth(s) <= lev
    ensures var r := CompS(lev, env, st, s); Settles(st, r.st) && st.regs <= r.st.lastreg
    decreases lev, 1, s, 1
  {
    match s
    case ExprS(e) => GrowsEffect(env.vars, st, e);
    case Block(ss) => SettlesSeq(lev, env, |env.defers|, st, ss);
    case If(c, t, f) =>
      GrowsE(env.vars, st, c, true);
      var st1 := Unwind(CompE(env.vars, st, c, true).st, st.regs);
      SettlesS(lev, env, st1, t);
      if f.Some? {
        var rt := CompS(lev, env, st1, t);
        SettlesS(lev, env, Check(rt.st, InJumpRange(|rt.code| + 1)), f.value);
      }
    case While(c, body) => SettlesFor(lev, env, st, None, Some(c), None, body);
    case DoWhile(body, c) => SettlesDo(lev, env, st, body, c);
    case For(init, test, incr, body) => SettlesFor(lev, env, st, Some(init), test, Some(incr), body);
    case NumFor(x, start, last, stride, body) => SettlesNum(lev, env, st, x, start, last, stride, body);
    case Break(n) => SettlesExit(lev, env, st, n, false);
    case Continue(n) => SettlesExit(lev, env, st, n, true);
    case Return(e) =>
      if e.Some? { GrowsE(env.vars, st, e.value, true); }
      SettlesDefers(lev, env, |env.defers|, 0, if e.Some? then CompE(env.vars, st, e.value, true).st else st);
  }

  lemma {:induction false} SettlesFor(lev: nat, env: Env, st: CState, init: Option<seq<Expr>>, test: Option<Expr>,
                                      incr: Option<seq<Expr>>, body: seq<Stmt>)
    requires WfEnv(lev, env) && WfSeq(body, |env.loops| + 1, env.top) && DepthSeq(body) <= lev
    ensures var r := CompFor(lev, env, st, init, test, incr, body); Settles(st, r.st) && st.regs <= r.st.lastreg
    decreases lev, 1, body, 1
  {
    hide CompE, CompInit, CompSeq, Patch, PatchInRange;
    var ri := CompInit(env.vars, st, init);
    GrowsInit(env.vars, st, init);
    if test.Some? { GrowsE(env.vars, ri.st, test.value, true); }
    var rc := if test.Some? then CompE(env.vars, ri.st, test.value, true) else ECode([], ri.st, 0);
    SettlesSeq(lev, EnterLoop(env), |env.defers|, Unwind(rc.st, st.regs), body);
    var rb := CompSeq(lev, EnterLoop(env), |env.defers|, Unwind(rc.st, st.regs), body);
    GrowsInit(env.vars, Unwind(rb.st, st.regs), incr);
  }

  lemma {:induction false} SettlesDo(lev: nat, env: Env, st: CState, body: seq<Stmt>, c: Expr)
    requires WfEnv(lev, env) && WfSeq(body, |env.loops| + 1, env.top) && DepthSeq(body) <= lev
    ensures var r := CompDo(lev, env, st, body, c); Settles(st, r.st) && st.regs <= r.st.lastreg
    decreases lev, 1, body, 1
  {
    hide CompE, CompSeq, Patch, PatchInRange;
    SettlesSeq(lev, EnterLoop(env), |env.defers|, st, body);
    var rb := CompSeq(lev, EnterLoop(env), |env.defers|, st, body);
    GrowsE(env.vars, Unwind(rb.st, st.regs), c, true);
  }

  lemma {:induction false} SettlesNum(lev: nat, env: Env, st: CState, x: Name, start: Option<Expr>, last: Expr,
                                      stride: Option<Expr>, body: seq<Stmt>)
    requires WfEnv(lev, env) && WfSeq(body, |env.loops| + 1, env.top) && DepthSeq(body) <= lev
    ensures var r := CompNum(lev, env, st, x, start, last, stride, body); Settles(st, r.st) && st.regs <= r.st.lastreg
    decreases lev, 1, body, 1
  {
    hide CompE, CompSeq, CompBound, Patch, PatchInRange;
    var reg := Find(env.vars, x);
    GrowsBound(env.vars, st, start, 0, reg + 1);
    var r1 := CompBound(env.vars, st, start, 0, reg + 1);
    GrowsE(env.vars, r1.st, last, true);
    var r2 := CompInto(env.vars, r1.st, last, reg + 2);
    GrowsBound(env.vars, r2.st, stride, 1, reg + 3);
    SettlesSeq(lev, EnterLoop(env), |env.defers|, CompBound(env.vars, r2.st, stride, 1, reg + 3).st, body);
  }

  lemma {:induction false} SettlesExit(lev: nat, env: Env, st: CState, n: int, iscont: bool)
    requires WfEnv(lev, env) && (env.top || 1 <= n <= |env.loops|)
    ensures var r := CompExit(lev, env, st, n, iscont); Settles(st, r.st) && st.regs <= r.st.lastreg
    decreases lev, 0, 0, 1
  {
    if GoodLevel(n, |env.loops|) {
      SettlesDefers(lev, env, |env.defers|, env.loops[|env.loops| - n], st);
    }
  }

  lemma {:induction false} SettlesSeq(lev: nat, env: Env, start: nat, st: CState, ss: seq<Stmt>)
    requires WfEnv(lev, env) && WfSeq(ss, |env.loops|, env.top) && DepthSeq(ss) <= lev && start <= |env.defers|
    ensures Settles(st, CompSeq(lev, env, start, st, ss).st)
    decreases lev, 1, ss, 0
  {
    if ss == [] {
      SettlesDefers(lev, env, |env.defers|, start, st);
    } else if ss[0].Defer? {
      if env.under + |env.defers| >= MAX_DEFERS {
        SettlesSeq(lev, env, start, Unwind(Fail(st), st.regs), ss[1..]);
      } else {
        SettlesSeq(lev, env.(defers := env.defers + [ss[0].d]), start, Unwind(st, st.regs), ss[1..]);
      }
    } else {
      SettlesS(lev, env, st, ss[0]);
      SettlesSeq(lev, env, start, Unwind(CompS(lev, env, st, ss[0]).st, st.regs), ss[1..]);
    }
  }

  lemma {:induction false} SettlesDefers(lev: nat, env: Env, i: nat, end: nat, st: CState)
    requires WfEnv(lev, env) && i <= |env.defers|
    ensures Settles(st, CompDefers(lev, env, i, end, st).st)
    decreases lev, 0, 0, 0, i
  {
    hide CompS;
    if i > end {
      assert Depth(env.defers[i - 1]) < lev;
      SettlesS(lev - 1, DeferEnv(env), st, env.defers[i - 1]);
      SettlesDefers(lev, env, i - 1, end, CompS(lev - 1, DeferEnv(env), st, env.defers[i - 1]).st);
    }
  }

  lemma ForGrows(lev: nat, env: Env, st: CState, init: Option<seq<Expr>>, test: Option<Expr>, incr: Option<seq<Expr>>,
                 body: seq<Stmt>)
    requires WfEnv(lev, env) && WfSeq(body, |env.loops| + 1, env.top) && DepthSeq(body) <= lev
    ensures WfEnv(lev, EnterLoop(env))
    ensures var ri := CompInit(env.vars, st, init);
            var rc := if test.Some? then CompE(env.vars, ri.st, test.value, true) else ECode([], ri.st, 0);
            var rb := CompSeq(lev, EnterLoop(env), |env.defers|, Unwind(rc.st, st.regs), body);
            var ru := CompInit(env.vars, Unwind(rb.st, st.regs), incr);
            && Grows(st, ri.st) && ri.st.regs == st.regs && Grows(ri.st, rc.st) && st.regs <= rc.st.regs
            && Settles(Unwind(rc.st, st.regs), rb.st) && Grows(Unwind(rb.st, st.regs), ru.st) && ru.st.regs == st.regs
  {
    hide CompE, CompSeq, CompInit, Prefix;
    var ri := CompInit(env.vars, st, init);
    GrowsInit(env.vars, st, init);
    var rc := if test.Some? then CompE(env.vars, ri.st, test.value, true) else ECode([], ri.st, 0);
    if test.Some? { GrowsE(env.vars, ri.st, test.value, true); } else { GrowsSame(ri.st); }
    var st2 := Unwind(rc.st, st.regs);
    SettlesSeq(lev, EnterLoop(env), |env.defers|, st2, body);
    var rb := CompSeq(lev, EnterLoop(env), |env.defers|, st2, body);
    GrowsInit(env.vars, Unwind(rb.st, st.regs), incr);
  }

  lemma GrowsSame(st: CState)
    ensures Grows(st, st)
  {
  }

  /* If a construct compiles, so did every part of it, and every jump was in range. */

  lemma IfOk(lev: nat, env: Env, st: CState, c: Expr, t: Stmt, f: Option<Stmt>)
    requires WfEnv(lev, env) && Wf(If(c, t, f), |env.loops|, env.top) && Depth(If(c, t, f)) <= lev
    requires CompS(lev, env, st, If(c, t, f)).st.ok
    ensures var rc := CompE(env.vars, st, c, true);
            var rt := CompS(lev, env, Unwind(rc.st, st.regs), t);
            && rc.st.ok && rt.st.ok && InJumpRange(|rt.code| + if f.Some? then 1 else 0)
            && (f.Some? ==> var rf := CompS(lev, env, Check(rt.st, true), f.value); rf.st.ok && InJumpRange(|rf.code|))
  {
    var rc := CompE(env.vars, st, c, true);
    var st1 := Unwind(rc.st, st.regs);
    var rt := CompS(lev, env, st1, t);
    SettlesS(lev, env, st1, t);
    if f.Some? {
      var st2 := Check(rt.st, InJumpRange(|rt.code| + 1));
      SettlesS(lev, env, st2, f.value);
    }
  }

  lemma IfParts(c: Expr, t: Stmt, f: Option<Stmt>, loops: nat, top: bool, lev: nat)
    requires Wf(If(c, t, f), loops, top) && Depth(If(c, t, f)) <= lev
    ensures Wf(t, loops, top) && Depth(t) <= lev && (f.Some? ==> Wf(f.value, loops, top) && Depth(f.value) <= lev)
  {
  }

  lemma IfCode(lev: nat, env: Env, st: CState, c: Expr, t: Stmt, f: Option<Stmt>)
    requires WfEnv(lev, env) && Wf(If(c, t, f), |env.loops|, env.top) && Depth(If(c, t, f)) <= lev
    ensures var rc := CompE(env.vars, st, c, true);
            var rt := CompS(lev, env, Unwind(rc.st, st.regs), t);
            var whole := CompS(lev, env, st, If(c, t, f));
            && (whole.st.ok ==> rc.st.ok && rt.st.ok)
            && (f.None? ==> whole == SCode(rc.code + ([CondJump(IfFalse, |rt.code|, rc.out)] + rt.code),
                                           Unwind(Check(rt.st, InJumpRange(|rt.code|)), st.regs)))
            && (f.Some? ==> whole.st.ok ==> InJumpRange(|rt.code| + 1))
            && (f.Some? && rt.st.ok && InJumpRange(|rt.code| + 1) ==>
                  var rf := CompS(lev, env, rt.st, f.value);
                  whole == SCode(rc.code
                      + ([CondJump(IfFalse, |rt.code| + 1, rc.out)] + (rt.code + ([Jump(|rf.code|)] + rf.code))),
                                 Unwind(Check(rf.st, InJumpRange(|rf.code|)), st.regs)))
  {
    hide CompE, Prefix, Peak;
    if CompS(lev, env, st, If(c, t, f)).st.ok { IfOk(lev, env, st, c, t, f); }
  }

  lemma ForOk(lev: nat, env: Env, st: CState, init: Option<seq<Expr>>, test: Option<Expr>, incr: Option<seq<Expr>>,
              body: seq<Stmt>)
    requires WfEnv(lev, env) && WfEnv(lev, EnterLoop(env)) && WfSeq(body, |env.loops| + 1, env.top)
             && DepthSeq(body) <= lev
    requires CompFor(lev, env, st, init, test, incr, body).st.ok
    ensures var ri := CompInit(env.vars, st, init);
            var rc := if test.Some? then CompE(env.vars, ri.st, test.value, true) else ECode([], ri.st, 0);
            var rb := CompSeq(lev, EnterLoop(env), |env.defers|, Unwind(rc.st, st.regs), body);
            var ru := CompInit(env.vars, Unwind(rb.st, st.regs), incr);
            ri.st.ok && rc.st.ok && rb.st.ok && ru.st.ok
  {
    hide CompE, CompInit, CompSeq, Patch, PatchInRange, Prefix, Peak, WfSeq, DepthSeq, InJumpRange, WfEnv;
    ForGrows(lev, env, st, init, test, incr, body);
  }

  lemma DoOk(lev: nat, env: Env, st: CState, body: seq<Stmt>, c: Expr)
    requires WfEnv(lev, env) && WfEnv(lev, EnterLoop(env)) && WfSeq(body, |env.loops| + 1, env.top)
             && DepthSeq(body) <= lev
    requires CompDo(lev, env, st, body, c).st.ok
    ensures var rb := CompSeq(lev, EnterLoop(env), |env.defers|, st, body);
            rb.st.ok && CompE(env.vars, Unwind(rb.st, st.regs), c, true).st.ok
  {
    hide CompE, CompSeq, Patch, PatchInRange, Prefix, Peak, WfSeq, DepthSeq, InJumpRange, WfEnv;
    var rb := CompSeq(lev, EnterLoop(env), |env.defers|, st, body);
    GrowsE(env.vars, Unwind(rb.st, st.regs), c, true);
  }

  lemma NumOk(lev: nat, env: Env, st: CState, x: Name, start: Option<Expr>, last: Expr, stride: Option<Expr>,
              body: seq<Stmt>)
    requires WfEnv(lev, env) && WfEnv(lev, EnterLoop(env)) && WfSeq(body, |env.loops| + 1, env.top)
             && DepthSeq(body) <= lev
    requires CompNum(lev, env, st, x, start, last, stride, body).st.ok
    ensures var reg := Find(env.vars, x);
            var r1 := CompBound(env.vars, st, start, 0, reg + 1);
            var r2 := CompInto(env.vars, r1.st, last, reg + 2);
            var r3 := CompBound(env.vars, r2.st, stride, 1, reg + 3);
            r1.st.ok && r2.st.ok && r3.st.ok && CompSeq(lev, EnterLoop(env), |env.defers|, r3.st, body).st.ok
  {
    hide CompE, CompSeq, CompBound, CompInto, Patch, PatchInRange, Prefix, Peak, WfSeq, DepthSeq, InJumpRange, WfEnv;
    var reg := Find(env.vars, x);
    var r1 := CompBound(env.vars, st, start, 0, reg + 1);
    var r2 := CompInto(env.vars, r1.st, last, reg + 2);
    GrowsInto(env.vars, r1.st, last, reg + 2);
    GrowsBound(env.vars, r2.st, stride, 1, reg + 3);
    SettlesSeq(lev, EnterLoop(env), |env.defers|, CompBound(env.vars, r2.st, stride, 1, reg + 3).st, body);
  }

  lemma GrowsInto(vars: seq<FCVar>, st: CState, e: Expr, dst: int)
    ensures var r := CompInto(vars, st, e, dst); Grows(st, r.st) && st.regs == r.st.regs
  {
    GrowsE(vars, st, e, true);
  }

  /* The limit on deferred statements: compiled with fewer of them around, a construct
     that compiles has the same code. */

  predicate Fewer(a: Env, b: Env) {
    a == b.(under := a.under) && a.under <= b.under
  }

  lemma {:induction false} FewerS(lev: nat, a: Env, b: Env, st: CState, s: Stmt)
    requires WfEnv(lev, a) && WfEnv(lev, b) && Fewer(a, b) && Wf(s, |b.loops|, b.top) && Depth(s) <= lev
    requires CompS(lev, b, st, s).st.ok
    ensures CompS(lev, a, st, s) == CompS(lev, b, st, s)
    decreases lev, 1, s, 1
  {
    match s
    case ExprS(e) =>
    case Block(ss) => FewerSeq(lev, a, b, |b.defers|, st, ss);
    case If(c, t, f) =>
      var st1 := Unwind(CompE(b.vars, st, c, true).st, st.regs);
      var rt := CompS(lev, b, st1, t);
      IfOk(lev, b, st, c, t, f);
      if f.Some? { FewerS(lev, a, b, Check(rt.st, true), f.value); }
      FewerS(lev, a, b, st1, t);
    case While(c, body) => FewerFor(lev, a, b, st, None, Some(c), None, body);
    case DoWhile(body, c) => FewerDo(lev, a, b, st, body, c);
    case For(init, test, incr, body) => FewerFor(lev, a, b, st, Some(init), test, Some(incr), body);
    case NumFor(x, start, last, stride, body) => FewerNum(lev, a, b, st, x, start, last, stride, body);
    case Break(n) => FewerExit(lev, a, b, st, n, false);
    case Continue(n) => FewerExit(lev, a, b, st, n, true);
    case Return(e) =>
      FewerDefers(lev, a, b, |b.defers|, 0, if e.Some? then CompE(b.vars, st, e.value, true).st else st);
  }

  lemma EnterBoth(lev: nat, a: Env, b: Env)
    requires WfEnv(lev, a) && WfEnv(lev, b) && Fewer(a, b)
    ensures WfEnv(lev, EnterLoop(a)) && WfEnv(lev, EnterLoop(b)) && Fewer(EnterLoop(a), EnterLoop(b))
  {
  }

  lemma {:induction false} FewerFor(lev: nat, a: Env, b: Env, st: CState, init: Option<seq<Expr>>, test: Option<Expr>,
                                    incr: Option<seq<Expr>>, body: seq<Stmt>)
    requires WfEnv(lev, a) && WfEnv(lev, b) && Fewer(a, b) && WfSeq(body, |b.loops| + 1, b.top) && DepthSeq(body) <= lev
    requires CompFor(lev, b, st, init, test, incr, body).st.ok
    ensures CompFor(lev, a, st, init, test, incr, body) == CompFor(lev, b, st, init, test, incr, body)
    decreases lev, 1, body, 1
  {
    hide CompE, CompInit, CompSeq, Patch, PatchInRange, Prefix, Peak, WfSeq, DepthSeq, InJumpRange, WfEnv, Grows,
        Unwind, Check, Depth, Wf;
    var ri := CompInit(b.vars, st, init);
    var rc := if test.Some? then CompE(b.vars, ri.st, test.value, true) else ECode([], ri.st, 0);
    EnterBoth(lev, a, b);
    ForOk(lev, b, st, init, test, incr, body);
    FewerSeq(lev, EnterLoop(a), EnterLoop(b), |b.defers|, Unwind(rc.st, st.regs), body);
  }

  lemma {:induction false} FewerDo(lev: nat, a: Env, b: Env, st: CState, body: seq<Stmt>, c: Expr)
    requires WfEnv(lev, a) && WfEnv(lev, b) && Fewer(a, b) && WfSeq(body, |b.loops| + 1, b.top) && DepthSeq(body) <= lev
    requires CompDo(lev, b, st, body, c).st.ok
    ensures CompDo(lev, a, st, body, c) == CompDo(lev, b, st, body, c)
    decreases lev, 1, body, 1
  {
    hide CompE, CompSeq, Patch, PatchInRange, Prefix, Peak, WfSeq, DepthSeq, InJumpRange, WfEnv;
    EnterBoth(lev, a, b);
    DoOk(lev, b, st, body, c);
    FewerSeq(lev, EnterLoop(a), EnterLoop(b), |b.defers|, st, body);
  }

  lemma {:induction false} FewerNum(lev: nat, a: Env, b: Env, st: CState, x: Name, start: Option<Expr>, last: Expr,
                                    stride: Option<Expr>, body: seq<Stmt>)
    requires WfEnv(lev, a) && WfEnv(lev, b) && Fewer(a, b) && WfSeq(body, |b.loops| + 1, b.top) && DepthSeq(body) <= lev
    requires CompNum(lev, b, st, x, start, last, stride, body).st.ok
    ensures CompNum(lev, a, st, x, start, last, stride, body) == CompNum(lev, b, st, x, start, last, stride, body)
    decreases lev, 1, body, 1
  {
    hide CompE, CompSeq, CompBound, CompInto, Prefix, Peak, WfSeq, DepthSeq, WfEnv, Find, CompNum;
    var reg := Find(b.vars, x);
    var r1 := CompBound(b.vars, st, start, 0, reg + 1);
    var r2 := CompInto(b.vars, r1.st, last, reg + 2);
    var r3 := CompBound(b.vars, r2.st, stride, 1, reg + 3);
    EnterBoth(lev, a, b);
    NumOk(lev, b, st, x, start, last, stride, body);
    FewerSeq(lev, EnterLoop(a), EnterLoop(b), |b.defers|, r3.st, body);
    NumSame(lev, a, b, st, x, start, last, stride, body);
  }

  /** What a numeric loop compiles to depends on its surroundings only through its body. */
  lemma NumSame(lev: nat, a: Env, b: Env, st: CState, x: Name, start: Option<Expr>, last: Expr, stride: Option<Expr>,
                body: seq<Stmt>)
    requires WfEnv(lev, a) && WfEnv(lev, b) && WfEnv(lev, EnterLoop(a)) && WfEnv(lev, EnterLoop(b))
    requires a.vars == b.vars && |a.loops| == |b.loops| && a.top == b.top
    requires WfSeq(body, |b.loops| + 1, b.top) && DepthSeq(body) <= lev
    requires var reg := Find(b.vars, x);
             var r1 := CompBound(b.vars, st, start, 0, reg + 1);
             var r2 := CompInto(b.vars, r1.st, last, reg + 2);
             var r3 := CompBound(b.vars, r2.st, stride, 1, reg + 3);
             CompSeq(lev, EnterLoop(a), |a.defers|, r3.st, body) == CompSeq(lev, EnterLoop(b), |b.defers|, r3.st, body)
    ensures CompNum(lev, a, st, x, start, last, stride, body) == CompNum(lev, b, st, x, start, last, stride, body)
  {
    hide CompSeq, CompBound, CompInto, Patch, PatchInRange, WfSeq, DepthSeq, InJumpRange, WfEnv, Find;
  }


  lemma {:induction false} FewerExit(lev: nat, a: Env, b: Env, st: CState, n: int, iscont: bool)
    requires WfEnv(lev, a) && WfEnv(lev, b) && Fewer(a, b) && (b.top || 1 <= n <= |b.loops|)
    requires CompExit(lev, b, st, n, iscont).st.ok
    ensures CompExit(lev, a, st, n, iscont) == CompExit(lev, b, st, n, iscont)
    decreases lev, 0, 0, 1
  {
    if GoodLevel(n, |b.loops|) { FewerDefers(lev, a, b, |b.defers|, b.loops[|b.loops| - n], st); }
  }

  lemma {:induction false} FewerSeq(lev: nat, a: Env, b: Env, start: nat, st: CState, ss: seq<Stmt>)
    requires WfEnv(lev, a) && WfEnv(lev, b) && Fewer(a, b) && WfSeq(ss, |b.loops|, b.top) && DepthSeq(ss) <= lev
             && start <= |b.defers|
    requires CompSeq(lev, b, start, st, ss).st.ok
    ensures CompSeq(lev, a, start, st, ss) == CompSeq(lev, b, start, st, ss)
    decreases lev, 1, ss, 0
  {
    if ss == [] {
      FewerDefers(lev, a, b, |b.defers|, start, st);
    } else if ss[0].Defer? {
      SettlesSeq(lev, b, start, Unwind(Fail(st), st.regs), ss[1..]);
      var d := ss[0].d;
      FewerSeq(lev, a.(defers := a.defers + [d]), b.(defers := b.defers + [d]), start, Unwind(st, st.regs), ss[1..]);
    } else {
      var st1 := Unwind(CompS(lev, b, st, ss[0]).st, st.regs);
      SettlesSeq(lev, b, start, st1, ss[1..]);
      FewerSeq(lev, a, b, start, st1, ss[1..]);
      FewerS(lev, a, b, st, ss[0]);
    }
  }

  lemma {:induction false} FewerDefers(lev: nat, a: Env, b: Env, i: nat, end: nat, st: CState)
    requires WfEnv(lev, a) && WfEnv(lev, b) && Fewer(a, b) && i <= |b.defers|
    requires CompDefers(lev, b, i, end, st).st.ok
    ensures CompDefers(lev, a, i, end, st) == CompDefers(lev, b, i, end, st)
    decreases lev, 0, 0, 0, i
  {
    hide CompS, CompE;
    if i > end {
      assert Depth(b.defers[i - 1]) < lev;
      var r := CompS(lev - 1, DeferEnv(b), st, b.defers[i - 1]);
      SettlesDefers(lev, b, i - 1, end, r.st);
      FewerDefers(lev, a, b, i - 1, end, r.st);
      FewerS(lev - 1, DeferEnv(a), DeferEnv(b), st, b.defers[i - 1]);
    }
  }
}
