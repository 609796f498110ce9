/** The places where control leaves statements: pending jumps, patched loops, and the
    deferred statements compiled in front of every exit. */
module ExitProof {
  import opened Bytecode
  import opened Source
  import opened Compile
  import opened CompileFacts
  import opened ExprProof

  /* ---- pending breaks and continues ---- */

  /** Every pending jump names one of the `k` enclosing loops. */
  predicate PendUpTo(code: seq<Instr>, k: int) {
    forall i | 0 <= i < |code| && code[i].Pend? :: 1 <= code[i].depth <= k
  }

  lemma PendConcat(a: seq<Instr>, b: seq<Instr>, k: int)
    requires PendUpTo(a, k) && PendUpTo(b, k)
    ensures PendUpTo(a + b, k)
  {
  }

  lemma PendAround(a: seq<Instr>, mid: seq<Instr>, b: seq<Instr>, tail: seq<Instr>, k: int)
    requires PendUpTo(a, k) && PendUpTo(mid, k) && PendUpTo(b, k) && PendUpTo(tail, k)
    ensures PendUpTo(a + (mid + (b + tail)), k)
  {
    hide PendUpTo;
    PendConcat(b, tail, k);
    PendConcat(mid, b + tail, k);
    PendConcat(a, mid + (b + tail), k);
  }

  lemma {:induction false} PendE(vars: seq<FCVar>, st: CState, e: Expr, wanted: bool, k: int)
    ensures PendUpTo(CompE(vars, st, e, wanted).code, k)
    decreases e
  {
    match e
    case Const(v) =>
    case Var(x) =>
    case Unary(op, a) => PendE(vars, Alloc(st), a, true, k);
    case Binary(op, a, b) =>
      PendE(vars, Alloc(st), a, true, k);
      PendE(vars, CompE(vars, Alloc(st), a, true).st, b, true, k);
    case Lazy(op, a, b) =>
      var ra := CompE(vars, Alloc(st), a, true);
      var rb := CompE(vars, ra.st, b, true);
      PendE(vars, Alloc(st), a, true, k);
      PendE(vars, ra.st, b, true, k);
      PendAround(ra.code, [CondJump(LazyCond(op), 2, ra.out), Set(st.regs, ra.out), Jump(|rb.code| + 1)], rb.code,
          [Set(st.regs, rb.out)], k);
    case Assign(x, a) => PendE(vars, st, a, true, k);
    case OpAssign(op, x, a) => PendE(vars, Alloc(st), a, true, k);
    case LazyAssign(op, x, a) => PendE(vars, Unwind(st, st.regs), a, true, k);
    case Bump(inc, postfix, x) =>
  }

  lemma PendEffect(vars: seq<FCVar>, st: CState, e: Expr)
    ensures PendUpTo(CompEffect(vars, st, e).code, 0)
  {
    PendE(vars, st, e, false, 0);
  }

  lemma {:induction false} PendEffects(vars: seq<FCVar>, st: CState, es: seq<Expr>, k: int)
    ensures PendUpTo(CompEffects(vars, st, es).code, k)
    decreases es
  {
    if es != [] {
      PendE(vars, st, es[0], false, k);
      PendEffects(vars, CompEffect(vars, st, es[0]).st, es[1..], k);
    }
  }

  lemma PendInit(vars: seq<FCVar>, st: CState, es: Option<seq<Expr>>, k: int)
    ensures PendUpTo(CompInit(vars, st, es).code, k)
  {
    if es.Some? { PendEffects(vars, st, es.value, k); }
  }

  lemma PendBound(vars: seq<FCVar>, st: CState, e: Option<Expr>, v: int, dst: int, k: int)
    ensures PendUpTo(CompBound(vars, st, e, v, dst).code, k)
  {
    if e.Some? { PendE(vars, st, e.value, true, k); }
  }

  lemma PendOne(i: Instr, k: int)
    requires !i.Pend?
    ensures PendUpTo([i], k)
  {
  }

  lemma BoundIsInto(vars: seq<FCVar>, st: CState, e: Expr, dst: int)
    ensures CompBound(vars, st, Some(e), 0, dst) == CompInto(vars, st, e, dst)
  {
  }

  lemma PendPatchedOne(b: seq<Instr>, k: nat, iscont: bool, t: int)
    requires PendUpTo(b, k)
    ensures PendUpTo(Patch(b, k, iscont, t), k)
  {
  }

  /** After its breaks and continues are patched, a loop has none pending. */
  lemma PendPatched(b: seq<Instr>, k: nat, c: int, t: int)
    requires PendUpTo(b, k + 1)
    ensures PendUpTo(Patch(Patch(b, k + 1, true, c), k + 1, false, t), k)
  {
  }

  lemma {:induction false} PendS(lev: nat, env: Env, st: CState, s: Stmt)
    requires WfEnv(lev, env) && Wf(s, |env.loops|, env.top) && Depth(s) <= lev
    ensures PendUpTo(CompS(lev, env, st, s).code, |env.loops|)
    decreases lev, 1, s, 1
  {
    var k := |env.loops|;
    match s
    case ExprS(e) => PendE(env.vars, st, e, false, k);
    case Block(ss) => PendSeq(lev, env, |env.defers|, st, ss);
    case If(c, t, f) =>
      PendE(env.vars, st, c, true, k);
      var st1 := Unwind(CompE(env.vars, st, c, true).st, st.regs);
      PendS(lev, env, st1, t);
      if f.Some? {
        var rt := CompS(lev, env, st1, t);
        PendS(lev, env, Check(rt.st, InJumpRange(|rt.code| + 1)), f.value);
      }
    case While(c, body) => PendFor(lev, env, st, None, Some(c), None, body);
    case DoWhile(body, c) => PendDo(lev, env, st, body, c);
    case For(init, test, incr, body) => PendFor(lev, env, st, Some(init), test, Some(incr), body);
    case NumFor(x, start, last, stride, body) => PendNum(lev, env, st, x, start, last, stride, body);
    case Break(n) => PendExit(lev, env, st, n, false);
    case Continue(n) => PendExit(lev, env, st, n, true);
    case Return(e) =>
      if e.Some? { PendE(env.vars, st, e.value, true, k); }
      PendDefers(lev, env, |env.defers|, 0, if e.Some? then CompE(env.vars, st, e.value, true).st else st, k);
  }

  lemma {:induction false} PendFor(lev: nat, env: Env, st: CState, init: Option<seq<Expr>>, test: Option<Expr>,
                                   incr: Option<seq<Expr>>, body: seq<Stmt>)
    requires WfEnv(lev, env) && WfSeq(body, |env.loops| + 1, env.top) && DepthSeq(body) <= lev
    ensures PendUpTo(CompFor(lev, env, st, init, test, incr, body).code, |env.loops|)
    decreases lev, 1, body, 1
  {
    hide CompE, CompInit, CompSeq, Patch, PatchInRange;
    var k := |env.loops|;
    var ri := CompInit(env.vars, st, init);
    PendInit(env.vars, st, init, k);
    if test.Some? { PendE(env.vars, ri.st, test.value, true, k); }
    var rc := if test.Some? then CompE(env.vars, ri.st, test.value, true) else ECode([], ri.st, 0);
    var st2 := Unwind(rc.st, st.regs);
    PendSeq(lev, EnterLoop(env), |env.defers|, st2, body);
    var rb := CompSeq(lev, EnterLoop(env), |env.defers|, st2, body);
    var st3 := Unwind(rb.st, st.regs);
    PendInit(env.vars, st3, incr, k);
    PendPatched(rb.code, k, |rb.code|, |rb.code| + |CompInit(env.vars, st3, incr).code| + 1);
  }

  lemma {:induction false} PendDo(lev: nat, env: Env, st: CState, body: seq<Stmt>, c: Expr)
    requires WfEnv(lev, env) && WfSeq(body, |env.loops| + 1, env.top) && DepthSeq(body) <= lev
    ensures PendUpTo(CompDo(lev, env, st, body, c).code, |env.loops|)
    decreases lev, 1, body, 1
  {
    hide CompE, CompSeq, Patch, PatchInRange;
    PendSeq(lev, EnterLoop(env), |env.defers|, st, body);
    var rb := CompSeq(lev, EnterLoop(env), |env.defers|, st, body);
    PendE(env.vars, Unwind(rb.st, st.regs), c, true, |env.loops|);
    PendPatched(rb.code, |env.loops|, |rb.code|, |rb.code| + |CompE(env.vars, Unwind(rb.st, st.regs), c, true).code|
        + 1);
  }

  lemma {:induction false} PendNum(lev: nat, env: Env, st: CState, x: Name, start: Option<Expr>, last: Expr,
                                   stride: Option<Expr>, body: seq<Stmt>)
    requires WfEnv(lev, env) && WfSeq(body, |env.loops| + 1, env.top) && DepthSeq(body) <= lev
    ensures PendUpTo(CompNum(lev, env, st, x, start, last, stride, body).code, |env.loops|)
    decreases lev, 1, body, 1
  {
    hide CompE, CompSeq, CompBound, CompInto, Patch, PatchInRange, PendUpTo;
    var k, reg := |env.loops|, Find(env.vars, x);
    PendBound(env.vars, st, start, 0, reg + 1, k);
    var r1 := CompBound(env.vars, st, start, 0, reg + 1);
    PendBound(env.vars, r1.st, Some(last), 0, reg + 2, k);
    var r2 := CompBound(env.vars, r1.st, Some(last), 0, reg + 2);
    PendBound(env.vars, r2.st, stride, 1, reg + 3, k);
    var r3 := CompBound(env.vars, r2.st, stride, 1, reg + 3);
    PendSeq(lev, EnterLoop(env), |env.defers|, r3.st, body);
    var rb := CompSeq(lev, EnterLoop(env), |env.defers|, r3.st, body);
    PendPatched(rb.code, k, |rb.code|, |rb.code| + 1);
    var b2 := Patch(Patch(rb.code, k + 1, true, |rb.code|), k + 1, false, |rb.code| + 1);
    var prep, jump := NForPrep(|rb.code| + 1, reg), NForJump(-|rb.code| - 1, reg);
    PendOne(jump, k);
    PendOne(prep, k);
    PendConcat(b2, [jump], k);
    PendConcat([prep], b2 + [jump], k);
    PendConcat(r3.code, [prep] + (b2 + [jump]), k);
    PendConcat(r2.code, r3.code + ([prep] + (b2 + [jump])), k);
    PendConcat(r1.code, r2.code + (r3.code + ([prep] + (b2 + [jump]))), k);
    BoundIsInto(env.vars, r1.st, last, reg + 2);
  }

  lemma {:induction false} PendExit(lev: nat, env: Env, st: CState, n: int, iscont: bool)
    requires WfEnv(lev, env) && (env.top || 1 <= n <= |env.loops|)
    ensures PendUpTo(CompExit(lev, env, st, n, iscont).code, |env.loops|)
    decreases lev, 0, 0, 1
  {
    if GoodLevel(n, |env.loops|) {
      PendDefers(lev, env, |env.defers|, env.loops[|env.loops| - n], st, |env.loops|);
    }
  }

  lemma {:induction false} PendSeq(lev: nat, env: Env, start: nat, st: CState, ss: seq<Stmt>)
    requires WfEnv(lev, env) && WfSeq(ss, |env.loops|, env.top) && DepthSeq(ss) <= lev && start <= |env.defers|
    ensures PendUpTo(CompSeq(lev, env, start, st, ss).code, |env.loops|)
    decreases lev, 1, ss, 0
  {
    if ss == [] {
      PendDefers(lev, env, |env.defers|, start, st, |env.loops|);
    } else if ss[0].Defer? {
      if env.under + |env.defers| >= MAX_DEFERS {
        PendSeq(lev, env, start, Unwind(Fail(st), st.regs), ss[1..]);
      } else {
        PendSeq(lev, env.(defers := env.defers + [ss[0].d]), start, Unwind(st, st.regs), ss[1..]);
      }
    } else {
      PendS(lev, env, st, ss[0]);
      PendSeq(lev, env, start, Unwind(CompS(lev, env, st, ss[0]).st, st.regs), ss[1..]);
    }
  }

  /** Deferred statements leave nothing pending at all. */
  lemma {:induction false} PendDefers(lev: nat, env: Env, i: nat, end: nat, st: CState, k: nat)
    requires WfEnv(lev, env) && i <= |env.defers|
    ensures PendUpTo(CompDefers(lev, env, i, end, st).code, k)
    decreases lev, 0, 0, 0, i
  {
    if i > end {
      assert Depth(env.defers[i - 1]) < lev;
      PendS(lev - 1, DeferEnv(env), st, env.defers[i - 1]);
      PendDefers(lev, env, i - 1, end, CompS(lev - 1, DeferEnv(env), st, env.defers[i - 1]).st, k);
    }
  }

  /** A patched loop body, seen as the unpatched one whose own loop has known targets. */
  lemma PatchedBody(code: seq<Instr>, p: int, b: seq<Instr>, T: seq<Target>, c: int, t: int)
    requires Placed(code, p, Patch(Patch(b, |T| + 1, true, c), |T| + 1, false, t), T)
    ensures Placed(code, p, b, T + [Target(p + t, p + c)])
  {
    var d := |T| + 1;
    var b2 := Patch(Patch(b, d, true, c), d, false, t);
    var T' := T + [Target(p + t, p + c)];
    forall i | 0 <= i < |b| ensures Resolves(code[p + i], b[i], p + i, T') {
      assert Resolves(code[p + i], b2[i], p + i, T);
    }
  }

  /** Code without pending jumps needs no targets. */
  lemma PlacedAnywhere(code: seq<Instr>, p: int, c: seq<Instr>, T: seq<Target>)
    requires Placed(code, p, c, T) && PendUpTo(c, 0)
    ensures Placed(code, p, c, [])
  {
  }

  /* ---- exits ---- */

  /** What follows the deferred statements at an exit. */
  datatype Tail = Fall(to: int) | ToPc(to: int) | Ret(opd: int) | RetNone

  predicate TailAt(P: Prog, t: int, tail: Tail) {
    match tail
    case Fall(to) => t == to
    case ToPc(to) => 0 <= t < |P.code| && P.code[t] == Jump(to - t - 1)
    case Ret(opd) => 0 <= t < |P.code| && P.code[t] == Ret1(opd)
    case RetNone => 0 <= t < |P.code| && P.code[t] == RetN(0)
  }

  /** At `q` stand the deferred statements `env.defers[end..]`, latest first, compiled from
      state `cs`, and behind them the tail. */
  predicate AtExit(P: Prog, lev: nat, env: Env, end: int, cs: CState, tail: Tail, q: int, regs: seq<Value>)
    requires WfEnv(lev, env)
  {
    && 0 <= end <= |env.defers|
    && var r := CompDefers(lev, env, |env.defers|, end, cs);
      && Placed(P.code, q, r.code, [])
      && Room(P, env.vars, cs, r.st, regs)
      && TailAt(P, q + |r.code|, tail)
  }

  /** The code of the first `i` deferred statements depends on nothing else; `env'` is
      further in than `env`. */
  lemma {:induction false} DefersOnly(lev: nat, env: Env, env': Env, i: nat, end: nat, st: CState)
    requires WfEnv(lev, env) && WfEnv(lev, env') && env.vars == env'.vars && env.under == env'.under
    requires i <= |env.defers| <= |env'.defers| && env.defers[..i] == env'.defers[..i]
    requires CompDefers(lev, env', i, end, st).st.ok
    ensures CompDefers(lev, env, i, end, st) == CompDefers(lev, env', i, end, st)
    decreases i
  {
    hide CompS;
    if i > end {
      assert env.defers[i - 1] == env.defers[..i][i - 1] == env'.defers[i - 1];
      assert env.defers[..i - 1] == env.defers[..i][..i - 1] == env'.defers[..i - 1];
      assert Depth(env.defers[i - 1]) < lev;
      var r := CompS(lev - 1, DeferEnv(env'), st, env'.defers[i - 1]);
      SettlesDefers(lev, env', i - 1, end, r.st);
      FewerS(lev - 1, DeferEnv(env), DeferEnv(env'), st, env.defers[i - 1]);
      DefersOnly(lev, env, env', i - 1, end, r.st);
    }
  }

  /** An exit seen from inside a loop is the same exit seen from outside it. */
  lemma AtExitOuter(P: Prog, lev: nat, env: Env, env': Env, end: int, cs: CState, tail: Tail, q: int, regs: seq<Value>)
    requires WfEnv(lev, env) && WfEnv(lev, env') && env.vars == env'.vars && env.defers == env'.defers
             && env.under == env'.under
    requires AtExit(P, lev, env, end, cs, tail, q, regs)
    ensures AtExit(P, lev, env', end, cs, tail, q, regs)
  {
    hide Placed, TailAt, CompDefers;
    DefersOnly(lev, env', env, |env.defers|, end, cs);
  }

  /** No deferred statement left to run: control is at the tail. */
  lemma AtTail(P: Prog, lev: nat, env: Env, cs: CState, tail: Tail, q: int, regs: seq<Value>)
    requires WfEnv(lev, env) && AtExit(P, lev, env, |env.defers|, cs, tail, q, regs)
    ensures TailAt(P, q, tail)
  {
  }

  /** The latest deferred statement comes first; after it comes the exit without it. */
  lemma AtLatest(P: Prog, lev: nat, env: Env, env': Env, end: int, cs: CState, tail: Tail, q: int, regs: seq<Value>)
    requires WfEnv(lev, env) && WfEnv(lev, env') && env.vars == env'.vars && env.under == env'.under
    requires |env'.defers| > 0 && env.defers == env'.defers[..|env'.defers| - 1] && end <= |env.defers|
    requires AtExit(P, lev, env', end, cs, tail, q, regs)
    ensures var d := env'.defers[|env'.defers| - 1];
            Depth(d) < lev && Wf(d, 0, false) && WfEnv(lev - 1, DeferEnv(env))
    ensures var r := CompS(lev - 1, DeferEnv(env), cs, env'.defers[|env'.defers| - 1]);
            && Placed(P.code, q, r.code, []) && Room(P, env.vars, cs, r.st, regs)
            && AtExit(P, lev, env, end, r.st, tail, q + |r.code|, regs) && r.st.regs == cs.regs
  {
    hide Room, Placed, TailAt, CompS;
    var i := |env'.defers|;
    assert Depth(env'.defers[i - 1]) < lev;
    var r := CompS(lev - 1, DeferEnv(env'), cs, env'.defers[i - 1]);
    var rest := CompDefers(lev, env', i - 1, end, r.st);
    assert CompDefers(lev, env', i, end, cs) == SCode(r.code + rest.code, rest.st);
    SettlesS(lev - 1, DeferEnv(env'), cs, env'.defers[i - 1]);
    SettlesDefers(lev, env', i - 1, end, r.st);
    RoomOk(P, env.vars, cs, rest.st, regs);
    FewerS(lev - 1, DeferEnv(env), DeferEnv(env'), cs, env'.defers[i - 1]);
    DefersOnly(lev, env, env', i - 1, end, r.st);
    PlacedSplit(P.code, q, r.code, rest.code, []);
    RoomBetween(P, env.vars, cs, r.st, rest.st, regs);
  }

  lemma RoomOk(P: Prog, vars: seq<FCVar>, lo: CState, hi: CState, regs: seq<Value>)
    requires Room(P, vars, lo, hi, regs)
    ensures hi.ok
  {
  }

  lemma RoomBetween(P: Prog, vars: seq<FCVar>, lo: CState, mid: CState, hi: CState, regs: seq<Value>)
    requires Room(P, vars, lo, hi, regs) && Grows(lo, mid) && Grows(mid, hi) && lo.regs <= mid.regs
    ensures Room(P, vars, lo, mid, regs) && Room(P, vars, mid, hi, regs)
  {
  }
}
