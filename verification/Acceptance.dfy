/** Which functions compile: exactly those whose breaks and continues name loops around them and
    that get along with 255 registers and 65536 constants, as long as they are not too long. */
module Acceptance {
  import opened Bytecode
  import opened Source
  import opened Compile
  import opened CompileFacts
  import opened FunctionProof

  /** Every break and continue leaves loops that there are. */
  predicate Levels(s: Stmt, loops: nat)
    decreases s, 1
  {
    match s
    case Block(ss) => LevelsSeq(ss, loops)
    case If(_, t, f) => Levels(t, loops) && (f.Some? ==> Levels(f.value, loops))
    case While(_, body) => LevelsSeq(body, loops + 1)
    case DoWhile(body, _) => LevelsSeq(body, loops + 1)
    case For(_, _, _, body) => LevelsSeq(body, loops + 1)
    case NumFor(_, _, _, _, body) => LevelsSeq(body, loops + 1)
    case Break(n) => 1 <= n <= loops
    case Continue(n) => 1 <= n <= loops
    case Defer(d) => Levels(d, 0)
    case _ => true
  }

  predicate LevelsSeq(ss: seq<Stmt>, loops: nat)
    decreases ss, 0
  {
    ss != [] ==> Levels(ss[0], loops) && LevelsSeq(ss[1..], loops)
  }

  /** How deeply loops are nested, and how many deferred statements there are. */
  function Nest(s: Stmt): nat
    decreases s, 1
  {
    match s
    case Block(ss) => NestSeq(ss)
    case If(_, t, f) => MaxOf(Nest(t), if f.Some? then Nest(f.value) else 0)
    case While(_, body) => 1 + NestSeq(body)
    case DoWhile(body, _) => 1 + NestSeq(body)
    case For(_, _, _, body) => 1 + NestSeq(body)
    case NumFor(_, _, _, _, body) => 1 + NestSeq(body)
    case Defer(d) => Nest(d)
    case _ => 0
  }

  function NestSeq(ss: seq<Stmt>): nat
    decreases ss, 0
  {
    if ss == [] then 0 else MaxOf(Nest(ss[0]), NestSeq(ss[1..]))
  }

  function Defers(s: Stmt): nat
    decreases s, 1
  {
    match s
    case Block(ss) => DefersSeq(ss)
    case If(_, t, f) => Defers(t) + (if f.Some? then Defers(f.value) else 0)
    case While(_, body) => DefersSeq(body)
    case DoWhile(body, _) => DefersSeq(body)
    case For(_, _, _, body) => DefersSeq(body)
    case NumFor(_, _, _, _, body) => DefersSeq(body)
    case Defer(d) => 1 + Defers(d)
    case _ => 0
  }

  function DefersSeq(ss: seq<Stmt>): nat
    decreases ss, 0
  {
    if ss == [] then 0 else Defers(ss[0]) + DefersSeq(ss[1..])
  }

  /** Nothing inside a deferred statement leaves it, so its levels are good. */
  lemma {:induction false} WfLevels(d: Stmt, loops: nat)
    requires Wf(d, loops, false)
    ensures Levels(d, loops)
    decreases d, 1
  {
    match d
    case Block(ss) => WfLevelsSeq(ss, loops);
    case If(_, t, f) =>
      WfLevels(t, loops);
      if f.Some? { WfLevels(f.value, loops); }
    case While(_, body) => WfLevelsSeq(body, loops + 1);
    case DoWhile(body, _) => WfLevelsSeq(body, loops + 1);
    case For(_, _, _, body) => WfLevelsSeq(body, loops + 1);
    case NumFor(_, _, _, _, body) => WfLevelsSeq(body, loops + 1);
    case _ =>
  }

  lemma {:induction false} WfLevelsSeq(ss: seq<Stmt>, loops: nat)
    requires WfSeq(ss, loops, false)
    ensures LevelsSeq(ss, loops)
    decreases ss, 0
  {
    if ss != [] {
      if ss[0].Defer? {
        assert ss[0] decreases to ss[0].d;
        WfLevels(ss[0].d, 0);
      } else {
        WfLevels(ss[0], loops);
      }
      WfLevelsSeq(ss[1..], loops);
    }
  }

  /* ---- registers and constants ---- */

  predicate Roomy(st: CState) {
    Peak(st) <= 256 && |st.consts| <= 65536
  }

  /** No error so far means that there was room so far. */
  predicate Sane(st: CState) {
    st.ok ==> Roomy(st)
  }

  lemma RoomyBefore(a: CState, b: CState)
    requires Grows(a, b) && Roomy(b)
    ensures Roomy(a)
  {
  }

  lemma JudgeConst(st: CState, v: Value)
    requires Sane(st)
    ensures var r := CompConst(st, v); r.st.ok <==> st.ok && Roomy(r.st)
  {
  }

  lemma JudgeAlloc(st: CState)
    requires Sane(st)
    ensures Alloc(st).ok <==> st.ok && Roomy(Alloc(st))
  {
  }

  lemma {:induction false} JudgeE(vars: seq<FCVar>, st: CState, e: Expr, wanted: bool)
    requires Sane(st)
    ensures var r := CompE(vars, st, e, wanted); r.st.ok <==> st.ok && Roomy(r.st)
    decreases e, 0
  {
    hide Grows, Roomy;
    GrowsE(vars, st, e, wanted);
    JudgeAlloc(st);
    match e
    case Const(v) => JudgeConst(st, v);
    case Var(x) => SameRoom(st);
    case Unary(op, a) => JudgeThen(vars, st, a);
    case Binary(op, a, b) =>
      JudgeThen(vars, st, a);
      JudgeBoth(vars, CompE(vars, Alloc(st), a, true).st, b, st.ok);
    case Lazy(op, a, b) =>
      JudgeThen(vars, st, a);
      JudgeBoth(vars, CompE(vars, Alloc(st), a, true).st, b, st.ok);
    case Assign(x, a) =>
      JudgeE(vars, st, a, true);
      GrowsE(vars, st, a, true);
      UnwindRoom(CompE(vars, st, a, true).st, st.regs);
    case OpAssign(op, x, a) =>
      JudgeThen(vars, st, a);
      var r := CompE(vars, Alloc(st), a, true);
      UnwindRoom(r.st, r.st.regs);
    case LazyAssign(op, x, a) =>
      UnwindRoom(st, st.regs);
      JudgeE(vars, Unwind(st, st.regs), a, true);
      var r := CompE(vars, Unwind(st, st.regs), a, true);
      UnwindRoom(r.st, r.st.regs);
    case Bump(inc, postfix, x) =>
      UnwindRoom(st, st.regs);
      SameRoom(st);
      UnwindRoom(Alloc(st), st.regs + 1);
  }

  lemma SameRoom(st: CState)
    requires Sane(st)
    ensures st.ok <==> st.ok && Roomy(st)
  {
  }

  lemma UnwindRoom(st: CState, pos: int)
    requires pos <= Peak(st)
    ensures Roomy(Unwind(st, pos)) <==> Roomy(st)
    ensures Unwind(st, pos).ok == st.ok && Peak(Unwind(st, pos)) == Peak(st)
  {
  }

  /** A register, then an expression. */
  lemma {:induction false} JudgeThen(vars: seq<FCVar>, st: CState, a: Expr)
    requires Sane(st)
    ensures var r := CompE(vars, Alloc(st), a, true); (r.st.ok <==> st.ok && Roomy(r.st)) && Sane(r.st)
    decreases a, 1
  {
    hide CompE, Roomy, Grows;
    JudgeAlloc(st);
    GrowsE(vars, Alloc(st), a, true);
    JudgeE(vars, Alloc(st), a, true);
    var r := CompE(vars, Alloc(st), a, true);
    if Roomy(r.st) { RoomyBefore(Alloc(st), r.st); }
  }

  lemma {:induction false} JudgeBoth(vars: seq<FCVar>, st: CState, b: Expr, ok: bool)
    requires Sane(st) && (st.ok <==> ok && Roomy(st))
    ensures var r := CompE(vars, st, b, true); r.st.ok <==> ok && Roomy(r.st)
    decreases b, 1
  {
    hide CompE, Roomy, Grows;
    GrowsE(vars, st, b, true);
    JudgeE(vars, st, b, true);
    if Roomy(CompE(vars, st, b, true).st) { RoomyBefore(st, CompE(vars, st, b, true).st); }
  }

  /* ---- statements ---- */

  /** Compiling from `a` to `b` has gone well exactly if it began well, the construct is good, and
      there was room. */
  predicate Judged(a: CState, b: CState, good: bool) {
    b.ok <==> a.ok && good && Roomy(b)
  }

  lemma JudgedThen(a: CState, b: CState, c: CState, good: bool, more: bool)
    requires Judged(a, b, good) && Judged(b, c, more) && Grows(b, c)
    ensures Judged(a, c, good && more) && Sane(c)
  {
    hide Roomy, Grows;
    if Roomy(c) { RoomyBefore(b, c); }
  }

  lemma JudgedUnwind(a: CState, b: CState, pos: int, good: bool)
    requires Judged(a, b, good) && pos <= Peak(b)
    ensures Judged(a, Unwind(b, pos), good) && Sane(Unwind(b, pos)) && Peak(Unwind(b, pos)) == Peak(b)
  {
  }

  /** The same from a state whose temporaries have been given back. */
  lemma JudgedFrom(a: CState, b: CState, c: CState, good: bool)
    requires a.ok == b.ok && Judged(b, c, good)
    ensures Judged(a, c, good)
  {
  }

  lemma JudgedCheck(a: CState, b: CState, good: bool, check: bool)
    requires Judged(a, b, good) && check
    ensures Judged(a, Check(b, check), good) && Check(b, check) == b && Sane(b)
  {
  }

  lemma JudgeEffect(vars: seq<FCVar>, st: CState, e: Expr)
    requires Sane(st)
    ensures var r := CompEffect(vars, st, e); Judged(st, r.st, true) && Sane(r.st)
  {
    hide CompE, Roomy;
    SameRoom(st);
    if e.Const? || e.Var? {
      UnwindRoom(st, st.regs);
    } else {
      JudgeE(vars, st, e, false);
      GrowsE(vars, st, e, false);
      UnwindRoom(CompE(vars, st, e, false).st, st.regs);
    }
  }

  lemma {:induction false} JudgeEffects(vars: seq<FCVar>, st: CState, es: seq<Expr>)
    requires Sane(st)
    ensures var r := CompEffects(vars, st, es); Judged(st, r.st, true) && Sane(r.st)
    decreases es
  {
    hide CompEffect, Roomy, Judged, Grows;
    if es == [] {
      SameJudged(st);
      JudgedUnwind(st, st, st.regs, true);
    } else {
      var r := CompEffect(vars, st, es[0]);
      JudgeEffect(vars, st, es[0]);
      JudgeEffects(vars, r.st, es[1..]);
      GrowsEffects(vars, r.st, es[1..]);
      JudgedThen(st, r.st, CompEffects(vars, r.st, es[1..]).st, true, true);
    }
  }

  lemma SameJudged(st: CState)
    requires Sane(st)
    ensures Judged(st, st, true)
  {
  }

  lemma JudgeInit(vars: seq<FCVar>, st: CState, es: Option<seq<Expr>>)
    requires Sane(st)
    ensures var r := CompInit(vars, st, es); Judged(st, r.st, true) && Sane(r.st)
  {
    SameJudged(st);
    if es.Some? { JudgeEffects(vars, st, es.value); }
  }

  lemma JudgeInto(vars: seq<FCVar>, st: CState, e: Expr, dst: int)
    requires Sane(st)
    ensures var r := CompInto(vars, st, e, dst); Judged(st, r.st, true) && Sane(r.st)
  {
    hide CompE, Roomy;
    JudgeE(vars, st, e, true);
    GrowsE(vars, st, e, true);
    UnwindRoom(CompE(vars, st, e, true).st, st.regs);
  }

  lemma JudgeBound(vars: seq<FCVar>, st: CState, e: Option<Expr>, v: int, dst: int)
    requires Sane(st)
    ensures var r := CompBound(vars, st, e, v, dst); Judged(st, r.st, true) && Sane(r.st)
  {
    if e.Some? { JudgeInto(vars, st, e.value, dst); } else { JudgeConst(st, Int(v)); }
  }

  /** The length up to which all jumps are in range. */
  const MAX_LENGTH: int := 32766

  /** The deferred statements that are open, with those inside them. */
  function Open(ds: seq<Stmt>): nat {
    if ds == [] then 0 else 1 + Defers(ds[0]) + Open(ds[1..])
  }

  lemma {:induction false} OpenMore(ds: seq<Stmt>, d: Stmt)
    ensures Open(ds + [d]) == Open(ds) + 1 + Defers(d)
    decreases |ds|
  {
    if ds == [] {
      assert [] + [d] == [d] && [d][1..] == [];
    } else {
      assert (ds + [d])[1..] == ds[1..] + [d];
      OpenMore(ds[1..], d);
    }
  }

  lemma {:induction false} OpenAt(ds: seq<Stmt>, k: nat)
    requires k < |ds|
    ensures |ds| + Defers(ds[k]) <= Open(ds)
    decreases k
  {
    OpenSize(ds[1..]);
    if k > 0 { OpenAt(ds[1..], k - 1); }
  }

  lemma {:induction false} OpenSize(ds: seq<Stmt>)
    ensures Open(ds) >= |ds|
    decreases |ds|
  {
    if ds != [] { OpenSize(ds[1..]); }
  }

  /** At most 256 deferred statements are ever open, nor are loops nested more deeply than a level
      can say. */
  predicate Modest(env: Env, defers: nat, nest: nat) {
    && env.under + Open(env.defers) + defers <= 256 && |env.loops| + nest <= 65535
    && forall k | 0 <= k < |env.defers| :: Nest(env.defers[k]) <= 65535
  }

  lemma {:induction false} JudgeS(lev: nat, env: Env, st: CState, s: Stmt)
    requires WfEnv(lev, env) && Wf(s, |env.loops|, env.top) && Depth(s) <= lev && Modest(env, Defers(s), Nest(s))
    requires Sane(st) && |CompS(lev, env, st, s).code| <= MAX_LENGTH
    ensures var r := CompS(lev, env, st, s); Judged(st, r.st, Levels(s, |env.loops|)) && Sane(r.st)
    decreases lev, 1, s, 1
  {
    hide CompE, Judged, Roomy, Grows, CompSeq, CompFor, CompDo, CompNum, CompExit, CompDefers, Modest, Peak;
    match s
    case ExprS(e) => JudgeEffect(env.vars, st, e);
    case Block(ss) =>
      var r := CompSeq(lev, env, |env.defers|, st, ss);
      JudgeSeq(lev, env, |env.defers|, st, ss);
      SettlesSeq(lev, env, |env.defers|, st, ss);
      WatermarkBelow(r.st);
      JudgedUnwind(st, r.st, st.regs, LevelsSeq(ss, |env.loops|));
    case If(c, t, f) => JudgeIf(lev, env, st, c, t, f);
    case While(c, body) => JudgeFor(lev, env, st, None, Some(c), None, body);
    case DoWhile(body, c) => JudgeDo(lev, env, st, body, c);
    case For(init, test, incr, body) => JudgeFor(lev, env, st, Some(init), test, Some(incr), body);
    case NumFor(x, start, last, stride, body) => JudgeNum(lev, env, st, x, start, last, stride, body);
    case Break(n) => JudgeExit(lev, env, st, n, false);
    case Continue(n) => JudgeExit(lev, env, st, n, true);
    case Return(e) => JudgeReturn(lev, env, st, e);
  }

  lemma WatermarkBelow(st: CState)
    ensures st.regs <= Peak(st)
  {
  }

  lemma {:induction false} JudgeReturn(lev: nat, env: Env, st: CState, e: Option<Expr>)
    requires WfEnv(lev, env) && env.top && Modest(env, 0, 0) && Sane(st)
    requires |CompS(lev, env, st, Return(e)).code| <= MAX_LENGTH
    ensures var r := CompS(lev, env, st, Return(e)); Judged(st, r.st, true) && Sane(r.st)
    decreases lev, 1, Return(e), 0
  {
    hide CompE, Judged, Roomy, Grows, CompDefers, Modest;
    var re := if e.Some? then CompE(env.vars, st, e.value, true) else ECode([], st, 0);
    SameJudged(st);
    if e.Some? {
      JudgeValue(env.vars, st, e.value);
      GrowsE(env.vars, st, e.value, true);
    }
    var rd := CompDefers(lev, env, |env.defers|, 0, re.st);
    JudgeDefers(lev, env, |env.defers|, 0, re.st);
    SettlesDefers(lev, env, |env.defers|, 0, re.st);
    DefersThen(st, re.st, rd.st);
  }

  lemma DefersThen(st: CState, a: CState, b: CState)
    requires Judged(st, a, true) && Judged(a, b, true) && Settles(a, b) && st.regs <= a.regs
    ensures Judged(st, Unwind(b, st.regs), true) && Sane(Unwind(b, st.regs))
  {
    hide Roomy, Judged, Grows;
    JudgedThen(st, a, b, true, true);
    WatermarkBelow(b);
    JudgedUnwind(st, b, st.regs, true);
  }

  lemma JudgeValue(vars: seq<FCVar>, st: CState, e: Expr)
    requires Sane(st)
    ensures var r := CompE(vars, st, e, true); Judged(st, r.st, true) && Sane(r.st)
  {
    hide CompE;
    JudgeE(vars, st, e, true);
  }

  lemma {:induction false} JudgeIf(lev: nat, env: Env, st: CState, c: Expr, t: Stmt, f: Option<Stmt>)
    requires WfEnv(lev, env) && Wf(If(c, t, f), |env.loops|, env.top) && Depth(If(c, t, f)) <= lev
    requires Modest(env, Defers(If(c, t, f)), Nest(If(c, t, f))) && Sane(st)
    requires |CompS(lev, env, st, If(c, t, f)).code| <= MAX_LENGTH
    ensures var r := CompS(lev, env, st, If(c, t, f));
            Judged(st, r.st, Levels(If(c, t, f), |env.loops|)) && Sane(r.st)
    decreases lev, 1, If(c, t, f), 0
  {
    hide CompE, Judged, Roomy, Grows;
    var rc := CompE(env.vars, st, c, true);
    JudgeValue(env.vars, st, c);
    GrowsE(env.vars, st, c, true);
    GrowsPeak2(st, rc.st);
    var st1 := Unwind(rc.st, st.regs);
    JudgedUnwind(st, rc.st, st.regs, true);
    var rt := CompS(lev, env, st1, t);
    JudgeS(lev, env, st1, t);
    SettlesS(lev, env, st1, t);
    JudgedThen(st, st1, rt.st, true, Levels(t, |env.loops|));
    GrowsPeak2(st1, rt.st);
    if f.None? {
      JudgedCheck(st, rt.st, Levels(t, |env.loops|), InJumpRange(|rt.code|));
      JudgedUnwind(st, rt.st, st.regs, Levels(t, |env.loops|));
    } else {
      JudgedCheck(st, rt.st, Levels(t, |env.loops|), InJumpRange(|rt.code| + 1));
      var rf := CompS(lev, env, rt.st, f.value);
      JudgeS(lev, env, rt.st, f.value);
      SettlesS(lev, env, rt.st, f.value);
      JudgedThen(st, rt.st, rf.st, Levels(t, |env.loops|), Levels(f.value, |env.loops|));
      GrowsPeak2(rt.st, rf.st);
      JudgedCheck(st, rf.st, Levels(If(c, t, f), |env.loops|), InJumpRange(|rf.code|));
      JudgedUnwind(st, rf.st, st.regs, Levels(If(c, t, f), |env.loops|));
    }
  }

  lemma GrowsPeak2(a: CState, b: CState)
    requires Grows(a, b)
    ensures a.regs <= Peak(a) <= Peak(b)
  {
  }

  lemma ModestLoop(env: Env, defers: nat, nest: nat)
    requires Modest(env, defers, 1 + nest)
    ensures Modest(EnterLoop(env), defers, nest)
  {
  }

  lemma {:induction false} JudgeFor(lev: nat, env: Env, st: CState, init: Option<seq<Expr>>, test: Option<Expr>,
                                    incr: Option<seq<Expr>>, body: seq<Stmt>)
    requires WfEnv(lev, env) && WfSeq(body, |env.loops| + 1, env.top) && DepthSeq(body) <= lev
    requires Modest(env, DefersSeq(body), 1 + NestSeq(body)) && Sane(st)
    requires |CompFor(lev, env, st, init, test, incr, body).code| <= MAX_LENGTH
    ensures var r := CompFor(lev, env, st, init, test, incr, body);
            Judged(st, r.st, LevelsSeq(body, |env.loops| + 1)) && Sane(r.st)
    decreases lev, 1, body, 1
  {
    hide CompE, CompInit, CompSeq, Judged, Roomy, Grows, WfSeq, DepthSeq, Modest, Peak, WfEnv, LevelsSeq;
    ForGrows(lev, env, st, init, test, incr, body);
    ModestLoop(env, DefersSeq(body), NestSeq(body));
    var good := LevelsSeq(body, |env.loops| + 1);
    var ri := CompInit(env.vars, st, init);
    JudgeInit(env.vars, st, init);
    var rc := if test.Some? then CompE(env.vars, ri.st, test.value, true) else ECode([], ri.st, 0);
    JudgeTest(env.vars, ri.st, test);
    JudgedThen(st, ri.st, rc.st, true, true);
    var st2 := Unwind(rc.st, st.regs);
    WatermarkBelow(rc.st);
    JudgedUnwind(st, rc.st, st.regs, true);
    var rb := CompSeq(lev, EnterLoop(env), |env.defers|, st2, body);
    JudgeSeq(lev, EnterLoop(env), |env.defers|, st2, body);
    JudgedThen(st, st2, rb.st, true, good);
    var st3 := Unwind(rb.st, st.regs);
    WatermarkBelow(rb.st);
    JudgedUnwind(st, rb.st, st.regs, good);
    var ru := CompInit(env.vars, st3, incr);
    JudgeInit(env.vars, st3, incr);
    JudgedThen(st, st3, ru.st, good, true);
    WatermarkBelow(ru.st);
    ForRanges(lev, env, st, init, test, incr, body);
    JudgedUnwind(st, ru.st, st.regs, good);
  }

  lemma JudgeTest(vars: seq<FCVar>, st: CState, test: Option<Expr>)
    requires Sane(st)
    ensures var rc := if test.Some? then CompE(vars, st, test.value, true) else ECode([], st, 0);
            Judged(st, rc.st, true) && Sane(rc.st)
  {
    hide CompE;
    SameJudged(st);
    if test.Some? { JudgeValue(vars, st, test.value); }
  }

  /** In a loop that is not too long all jumps are in range. */
  lemma ForRanges(lev: nat, env: Env, st: CState, init: Option<seq<Expr>>, test: Option<Expr>,
                  incr: Option<seq<Expr>>, body: seq<Stmt>)
    requires WfEnv(lev, env) && WfEnv(lev, EnterLoop(env)) && WfSeq(body, |env.loops| + 1, env.top)
             && DepthSeq(body) <= lev
    requires |CompFor(lev, env, st, init, test, incr, body).code| <= MAX_LENGTH
    ensures var ri := CompInit(env.vars, st, init);
            var rc := if test.Some? then CompE(env.vars, ri.st, test.value, true) else ECode([], ri.st, 0);
            var rb := CompSeq(lev, EnterLoop(env), |env.defers|, Unwind(rc.st, st.regs), body);
            var ru := CompInit(env.vars, Unwind(rb.st, st.regs), incr);
            && |rb.code| <= MAX_LENGTH
            && CompFor(lev, env, st, init, test, incr, body).st == Unwind(ru.st, st.regs)
  {
    hide CompE, CompInit, CompSeq, WfSeq, DepthSeq, WfEnv;
    var ri := CompInit(env.vars, st, init);
    var rc := if test.Some? then CompE(env.vars, ri.st, test.value, true) else ECode([], ri.st, 0);
    var rb := CompSeq(lev, EnterLoop(env), |env.defers|, Unwind(rc.st, st.regs), body);
    var d := |env.loops| + 1;
    var b1 := Patch(rb.code, d, true, |rb.code|);
    var ru := CompInit(env.vars, Unwind(rb.st, st.regs), incr);
    PatchNear(rb.code, d, true, |rb.code|);
    PatchNear(b1, d, false, |rb.code| + |ru.code| + 1);
  }

  lemma PatchNear(code: seq<Instr>, depth: int, iscont: bool, target: int)
    requires |code| <= target <= 32767
    ensures PatchInRange(code, depth, iscont, target)
  {
  }

  lemma {:induction false} JudgeDo(lev: nat, env: Env, st: CState, body: seq<Stmt>, c: Expr)
    requires WfEnv(lev, env) && WfSeq(body, |env.loops| + 1, env.top) && DepthSeq(body) <= lev
    requires Modest(env, DefersSeq(body), 1 + NestSeq(body)) && Sane(st)
    requires |CompDo(lev, env, st, body, c).code| <= MAX_LENGTH
    ensures var r := CompDo(lev, env, st, body, c);
            Judged(st, r.st, LevelsSeq(body, |env.loops| + 1)) && Sane(r.st)
    decreases lev, 1, body, 1
  {
    hide CompE, CompSeq, Judged, Roomy, Grows, Modest, Peak, LevelsSeq, Patch, PatchInRange;
    ModestLoop(env, DefersSeq(body), NestSeq(body));
    var good := LevelsSeq(body, |env.loops| + 1);
    var rb := CompSeq(lev, EnterLoop(env), |env.defers|, st, body);
    var st1 := Unwind(rb.st, st.regs);
    var rc := CompE(env.vars, st1, c, true);
    var d := |env.loops| + 1;
    var b1 := Patch(rb.code, d, true, |rb.code|);
    PatchNear(rb.code, d, true, |rb.code|);
    PatchNear(b1, d, false, |rb.code| + |rc.code| + 1);
    JudgeSeq(lev, EnterLoop(env), |env.defers|, st, body);
    SettlesSeq(lev, EnterLoop(env), |env.defers|, st, body);
    WatermarkBelow(rb.st);
    JudgedUnwind(st, rb.st, st.regs, good);
    JudgeValue(env.vars, st1, c);
    GrowsE(env.vars, st1, c, true);
    JudgedThen(st, st1, rc.st, good, true);
    WatermarkBelow(rc.st);
    JudgedUnwind(st, rc.st, st.regs, good);
  }

  lemma {:induction false} JudgeNum(lev: nat, env: Env, st: CState, x: Name, start: Option<Expr>, last: Expr,
                                    stride: Option<Expr>, body: seq<Stmt>)
    requires WfEnv(lev, env) && WfSeq(body, |env.loops| + 1, env.top) && DepthSeq(body) <= lev
    requires Modest(env, DefersSeq(body), 1 + NestSeq(body)) && Sane(st)
    requires |CompNum(lev, env, st, x, start, last, stride, body).code| <= MAX_LENGTH
    ensures var r := CompNum(lev, env, st, x, start, last, stride, body);
            Judged(st, r.st, LevelsSeq(body, |env.loops| + 1)) && Sane(r.st)
    decreases lev, 1, body, 1
  {
    hide CompE, CompSeq, CompBound, CompInto, Judged, Roomy, Grows, Modest, Peak, LevelsSeq, Patch, PatchInRange;
    ModestLoop(env, DefersSeq(body), NestSeq(body));
    var good, reg := LevelsSeq(body, |env.loops| + 1), Find(env.vars, x);
    var r1 := CompBound(env.vars, st, start, 0, reg + 1);
    JudgeBound(env.vars, st, start, 0, reg + 1);
    GrowsBound(env.vars, st, start, 0, reg + 1);
    var r2 := CompInto(env.vars, r1.st, last, reg + 2);
    JudgeInto(env.vars, r1.st, last, reg + 2);
    GrowsInto(env.vars, r1.st, last, reg + 2);
    JudgedThen(st, r1.st, r2.st, true, true);
    var r3 := CompBound(env.vars, r2.st, stride, 1, reg + 3);
    JudgeBound(env.vars, r2.st, stride, 1, reg + 3);
    GrowsBound(env.vars, r2.st, stride, 1, reg + 3);
    JudgedThen(st, r2.st, r3.st, true, true);
    var rb := CompSeq(lev, EnterLoop(env), |env.defers|, r3.st, body);
    var d := |env.loops| + 1;
    PatchNear(rb.code, d, true, |rb.code|);
    PatchNear(Patch(rb.code, d, true, |rb.code|), d, false, |rb.code| + 1);
    JudgeSeq(lev, EnterLoop(env), |env.defers|, r3.st, body);
    SettlesSeq(lev, EnterLoop(env), |env.defers|, r3.st, body);
    JudgedThen(st, r3.st, rb.st, true, good);
    WatermarkBelow(rb.st);
    JudgedUnwind(st, rb.st, st.regs, good);
  }

  lemma {:induction false} JudgeExit(lev: nat, env: Env, st: CState, n: int, iscont: bool)
    requires WfEnv(lev, env) && (env.top || 1 <= n <= |env.loops|) && Modest(env, 0, 0) && Sane(st)
    requires |CompExit(lev, env, st, n, iscont).code| <= MAX_LENGTH
    ensures var r := CompExit(lev, env, st, n, iscont); Judged(st, r.st, 1 <= n <= |env.loops|) && Sane(r.st)
    decreases lev, 0, 0, 1
  {
    hide Roomy, Grows, CompDefers;
    if 1 <= n <= |env.loops| {
      var end := env.loops[|env.loops| - n];
      JudgeDefers(lev, env, |env.defers|, end, st);
      SettlesDefers(lev, env, |env.defers|, end, st);
      var rd := CompDefers(lev, env, |env.defers|, end, st);
      WatermarkBelow(rd.st);
      JudgedUnwind(st, rd.st, st.regs, true);
    }
  }

  lemma {:induction false} JudgeSeq(lev: nat, env: Env, start: nat, st: CState, ss: seq<Stmt>)
    requires WfEnv(lev, env) && WfSeq(ss, |env.loops|, env.top) && DepthSeq(ss) <= lev && start <= |env.defers|
    requires Modest(env, DefersSeq(ss), NestSeq(ss)) && Sane(st)
    requires |CompSeq(lev, env, start, st, ss).code| <= MAX_LENGTH
    ensures var r := CompSeq(lev, env, start, st, ss); Judged(st, r.st, LevelsSeq(ss, |env.loops|)) && Sane(r.st)
    decreases lev, 1, ss, 0
  {
    hide CompE, Judged, Roomy, Grows, CompS, CompDefers, Peak;
    if ss == [] {
      JudgeDefers(lev, env, |env.defers|, start, st);
    } else if ss[0].Defer? {
      assert ss[0] decreases to ss[0].d;
      var d := ss[0].d;
      OpenSize(env.defers);
      OpenMore(env.defers, d);
      WfLevels(d, 0);
      var env1 := env.(defers := env.defers + [d]);
      SameJudged(st);
      WatermarkBelow(st);
      JudgedUnwind(st, st, st.regs, true);
      JudgeSeq(lev, env1, start, Unwind(st, st.regs), ss[1..]);
      SettlesSeq(lev, env1, start, Unwind(st, st.regs), ss[1..]);
      JudgedThen(st, Unwind(st, st.regs), CompSeq(lev, env1, start, Unwind(st, st.regs), ss[1..]).st, true,
          LevelsSeq(ss[1..], |env.loops|));
    } else {
      var r := CompS(lev, env, st, ss[0]);
      var st1 := Unwind(r.st, st.regs);
      JudgeS(lev, env, st, ss[0]);
      SettlesS(lev, env, st, ss[0]);
      WatermarkBelow(r.st);
      JudgedUnwind(st, r.st, st.regs, Levels(ss[0], |env.loops|));
      JudgeSeq(lev, env, start, st1, ss[1..]);
      SettlesSeq(lev, env, start, st1, ss[1..]);
      JudgedThen(st, st1, CompSeq(lev, env, start, st1, ss[1..]).st, Levels(ss[0], |env.loops|),
          LevelsSeq(ss[1..], |env.loops|));
    }
  }

  lemma {:induction false} JudgeDefers(lev: nat, env: Env, i: nat, end: nat, st: CState)
    requires WfEnv(lev, env) && i <= |env.defers| && Modest(env, 0, 0) && Sane(st)
    requires |CompDefers(lev, env, i, end, st).code| <= MAX_LENGTH
    ensures var r := CompDefers(lev, env, i, end, st); Judged(st, r.st, true) && Sane(r.st)
    decreases lev, 0, 0, 0, i
  {
    hide Judged, Roomy, Grows, CompS, Peak;
    if i <= end {
      SameJudged(st);
    } else {
      var d := env.defers[i - 1];
      assert Depth(d) < lev;
      WfLevels(d, 0);
      OpenAt(env.defers, i - 1);
      var r := CompS(lev - 1, DeferEnv(env), st, d);
      JudgeS(lev - 1, DeferEnv(env), st, d);
      JudgeDefers(lev, env, i - 1, end, r.st);
      SettlesDefers(lev, env, i - 1, end, r.st);
      JudgedThen(st, r.st, CompDefers(lev, env, i - 1, end, r.st).st, true, true);
    }
  }

  /* ---- functions ---- */

  lemma {:induction false} JudgeAllocN(st: CState, n: nat)
    requires Sane(st)
    ensures Judged(st, AllocN(st, n), true) && Sane(AllocN(st, n)) && Peak(st) <= Peak(AllocN(st, n))
    ensures Grows(st, AllocN(st, n))
    decreases n
  {
    if n > 0 && st.ok {
      JudgeAlloc(st);
      JudgeAllocN(Alloc(st), n - 1);
    }
  }

  lemma StartSane()
    ensures Sane(START) && START.ok
  {
  }

  /** A function of at most 32766 instructions with at most 256 deferred statements compiles
      exactly if its breaks and continues name loops that are around them, and neither the
      registers that were counted are more than 255 nor the constants more than 65536. */
  lemma CompilesExactly(lev: nat, vars: seq<FCVar>, body: Stmt)
    requires Wf(body, 0, true) && Depth(body) <= lev && Defers(body) <= 256 && Nest(body) <= 65535
    requires |CompFn(lev, vars, body).code| <= 32766
    ensures var fn := CompFn(lev, vars, body);
            fn.st.ok <==> Levels(body, 0) && fn.st.lastreg <= 255 && |fn.st.consts| <= 65536
  {
    hide CompS, AllocN, Grows, Judged;
    var st := AllocN(START, |vars|);
    StartSane();
    AllocNRegs(START, |vars|);
    JudgeAllocN(START, |vars|);
    var r := CompS(lev, TopEnv(vars), st, body);
    JudgeS(lev, TopEnv(vars), st, body);
    SettlesS(lev, TopEnv(vars), st, body);
    JudgedThen(START, st, r.st, true, Levels(body, 0));
    JudgedFn(r.st, Levels(body, 0));
  }

  lemma JudgedFn(b: CState, good: bool)
    requires Judged(START, b, good) && b.lastreg >= 0
    ensures var st := Unwind(b, 0);
            Check(st, st.lastreg <= 0xff).ok <==> good && st.lastreg <= 255 && |st.consts| <= 65536
  {
  }

  /** Where 256 deferred statements are open, one more is refused. */
  lemma {:induction false} DeferRefused(lev: nat, env: Env, start: nat, st: CState, ss: seq<Stmt>, n: nat)
    requires WfEnv(lev, env) && WfSeq(ss, |env.loops|, env.top) && DepthSeq(ss) <= lev && start <= |env.defers|
    requires n <= |ss| && (forall i | 0 <= i < n :: ss[i].Defer?) && n > 0 && env.under + |env.defers| + n > 256
    ensures !CompSeq(lev, env, start, st, ss).st.ok
    decreases n
  {
    hide Grows;
    if env.under + |env.defers| >= 256 {
      SettlesSeq(lev, env, start, Unwind(Fail(st), st.regs), ss[1..]);
      OkBefore(Unwind(Fail(st), st.regs), CompSeq(lev, env, start, Unwind(Fail(st), st.regs), ss[1..]).st);
    } else {
      assert ss[0] decreases to ss[0].d;
      DeferRefused(lev, env.(defers := env.defers + [ss[0].d]), start, Unwind(st, st.regs), ss[1..], n - 1);
    }
  }

  lemma OkBefore(a: CState, b: CState)
    requires Grows(a, b)
    ensures b.ok ==> a.ok
  {
  }

  /** So a function that begins with 257 of them does not compile. */
  lemma TooManyDefers(lev: nat, vars: seq<FCVar>, ss: seq<Stmt>)
    requires Wf(Block(ss), 0, true) && Depth(Block(ss)) <= lev && |ss| > 256 && forall i | 0 <= i < 257 :: ss[i].Defer?
    ensures !CompFn(lev, vars, Block(ss)).st.ok
  {
    hide CompSeq, AllocN;
    DeferRefused(lev, TopEnv(vars), 0, AllocN(START, |vars|), ss, 257);
  }

  /* ---- the fragment ---- */

  /** Every statement without deferred ones belongs to it. */
  lemma {:induction false} InFragment(s: Stmt, loops: nat)
    requires Defers(s) == 0
    ensures Wf(s, loops, true) && Depth(s) == 0
    decreases s, 1
  {
    match s
    case Block(ss) => InFragmentSeq(ss, loops);
    case If(_, t, f) =>
      InFragment(t, loops);
      if f.Some? { InFragment(f.value, loops); }
    case While(_, body) => InFragmentSeq(body, loops + 1);
    case DoWhile(body, _) => InFragmentSeq(body, loops + 1);
    case For(_, _, _, body) => InFragmentSeq(body, loops + 1);
    case NumFor(_, _, _, _, body) => InFragmentSeq(body, loops + 1);
    case _ =>
  }

  lemma {:induction false} InFragmentSeq(ss: seq<Stmt>, loops: nat)
    requires DefersSeq(ss) == 0
    ensures WfSeq(ss, loops, true) && DepthSeq(ss) == 0
    decreases ss, 0
  {
    if ss != [] {
      InFragment(ss[0], loops);
      InFragmentSeq(ss[1..], loops);
    }
  }

  predicate Returning(s: Stmt)
    decreases s, 1
  {
    match s
    case Block(ss) => ReturningSeq(ss)
    case If(_, t, f) => Returning(t) || (f.Some? && Returning(f.value))
    case While(_, body) => ReturningSeq(body)
    case DoWhile(body, _) => ReturningSeq(body)
    case For(_, _, _, body) => ReturningSeq(body)
    case NumFor(_, _, _, _, body) => ReturningSeq(body)
    case Return(_) => true
    case Defer(d) => Returning(d)
    case _ => false
  }

  predicate ReturningSeq(ss: seq<Stmt>)
    decreases ss, 0
  {
    ss != [] && (Returning(ss[0]) || ReturningSeq(ss[1..]))
  }

  /** And so does a statement that stays inside itself, deferred in a block. */
  lemma {:induction false} DeferInFragment(d: Stmt, ss: seq<Stmt>, loops: nat)
    requires Defers(d) == 0 && Levels(d, 0) && !Returning(d) && WfSeq(ss, loops, true)
    ensures WfSeq([Defer(d)] + ss, loops, true)
  {
    Inside(d, 0);
    assert ([Defer(d)] + ss)[1..] == ss && ([Defer(d)] + ss)[0] == Defer(d);
  }

  lemma {:induction false} Inside(d: Stmt, loops: nat)
    requires Defers(d) == 0 && Levels(d, loops) && !Returning(d)
    ensures Wf(d, loops, false)
    decreases d, 1
  {
    match d
    case Block(ss) => InsideSeq(ss, loops);
    case If(_, t, f) =>
      Inside(t, loops);
      if f.Some? { Inside(f.value, loops); }
    case While(_, body) => InsideSeq(body, loops + 1);
    case DoWhile(body, _) => InsideSeq(body, loops + 1);
    case For(_, _, _, body) => InsideSeq(body, loops + 1);
    case NumFor(_, _, _, _, body) => InsideSeq(body, loops + 1);
    case _ =>
  }

  lemma {:induction false} InsideSeq(ss: seq<Stmt>, loops: nat)
    requires DefersSeq(ss) == 0 && LevelsSeq(ss, loops) && !ReturningSeq(ss)
    ensures WfSeq(ss, loops, false)
    decreases ss, 0
  {
    if ss != [] {
      Inside(ss[0], loops);
      InsideSeq(ss[1..], loops);
    }
  }

  /** No identifier is mistaken for a hidden variable. */
  lemma NamesVisible(x: Name)
    requires x != "" && ('a' <= x[0] <= 'z' || 'A' <= x[0] <= 'Z' || x[0] == '_')
    ensures !IsHidden(x)
  {
  }
}
