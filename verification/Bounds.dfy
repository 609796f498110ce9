/** Back-patching is complete and stays in bounds: in the code of every construct no
    placeholder is left except the breaks and continues of enclosing loops, every jump goes
    to an instruction of the construct or just behind it, and every operand is a register
    inside the function's window or an existing constant. */
module Bounds {
  import opened Bytecode
  import opened Source
  import opened Compile
  import opened CompileFacts
  import opened ExprProof
  import opened ExitProof
  import opened StmtProof

  /** The limits: register window, number of constants, number of enclosing loops. */
  datatype Limits = Limits(w: int, k: int, loops: int)

  predicate OpndOk(x: int, L: Limits) {
    0 <= x < L.w || (256 <= x < 512 && x < 256 + L.k)
  }

  predicate RegOk(x: int, L: Limits) {
    0 <= x < L.w
  }

  /** A well-formed instruction at position `pos`, its jump going to `lo..hi`. */
  predicate InstrOk(i: Instr, pos: int, lo: int, hi: int, L: Limits) {
    match i
    case Ret1(c) => OpndOk(c, L)
    case RetN(a) => a == 0
    case Jump(off) => lo <= pos + 1 + off <= hi
    case CondJump(_, off, c) => lo <= pos + 1 + off <= hi && OpndOk(c, L)
    case NForPrep(off, c) => lo <= pos + 1 + off <= hi && RegOk(c, L) && RegOk(c + 3, L)
    case NForJump(off, c) => lo <= pos + 1 + off <= hi && RegOk(c, L) && RegOk(c + 3, L)
    case LoadConst(e, c) => 0 <= e < L.k && e <= 65535 && RegOk(c, L)
    case SetClsr(_, _) => false
    case Set(a, b) => RegOk(a, L) && OpndOk(b, L)
    case UnI(op, a, b) => op != Plus && RegOk(a, L) && OpndOk(b, L)
    case IncDecI(_, a, b) => RegOk(a, L) && OpndOk(b, L)
    case BinI(_, a, b, c) => RegOk(a, L) && OpndOk(b, L) && OpndOk(c, L)
    case Placeholder => false
    case Pend(d, _) => 1 <= d <= L.loops
  }

  predicate Shape(code: seq<Instr>, lo: int, hi: int, L: Limits) {
    forall i | 0 <= i < |code| :: InstrOk(code[i], i, lo, hi, L)
  }

  lemma ShapeJoin(a: seq<Instr>, b: seq<Instr>, lo: int, hi: int, L: Limits)
    requires Shape(a, lo, hi, L) && Shape(b, lo - |a|, hi - |a|, L)
    ensures Shape(a + b, lo, hi, L)
  {
    forall i | 0 <= i < |a + b| ensures InstrOk((a + b)[i], i, lo, hi, L) {
      if i >= |a| { assert InstrOk(b[i - |a|], i - |a|, lo - |a|, hi - |a|, L); }
    }
  }

  lemma ShapeWiden(a: seq<Instr>, lo: int, hi: int, lo': int, hi': int, L: Limits)
    requires Shape(a, lo, hi, L) && lo' <= lo && hi <= hi'
    ensures Shape(a, lo', hi', L)
  {
  }

  /** Two constructs one after the other. */
  lemma ShapeSeq(a: seq<Instr>, b: seq<Instr>, L: Limits)
    requires Shape(a, 0, |a|, L) && Shape(b, 0, |b|, L)
    ensures Shape(a + b, 0, |a| + |b|, L)
  {
    ShapeWiden(a, 0, |a|, 0, |a| + |b|, L);
    ShapeWiden(b, 0, |b|, -|a|, |b|, L);
    ShapeJoin(a, b, 0, |a| + |b|, L);
  }

  /** A construct, then an instruction that may jump over the construct, either way. */
  lemma ShapeThen(a: seq<Instr>, i: Instr, lo: int, hi: int, L: Limits)
    requires Shape(a, lo, hi, L) && InstrOk(i, |a|, lo, hi, L)
    ensures Shape(a + [i], lo, hi, L)
  {
    forall j | 0 <= j < |a| + 1 ensures InstrOk((a + [i])[j], j, lo, hi, L) {
    }
  }

  lemma ShapeFirst(i: Instr, b: seq<Instr>, lo: int, hi: int, L: Limits)
    requires InstrOk(i, 0, lo, hi, L) && Shape(b, lo - 1, hi - 1, L)
    ensures Shape([i] + b, lo, hi, L)
  {
    assert Shape([i], lo, hi, L);
    ShapeJoin([i], b, lo, hi, L);
  }

  /** The state after a construct fits the limits. */
  predicate FitsIn(st: CState, L: Limits) {
    st.ok && Peak(st) <= L.w <= 256 && |st.consts| <= L.k
  }

  lemma FitsBefore(a: CState, b: CState, L: Limits)
    requires Grows(a, b) && FitsIn(b, L)
    ensures FitsIn(a, L)
  {
  }

  lemma {:induction false} ShapeE(vars: seq<FCVar>, st: CState, e: Expr, wanted: bool, L: Limits)
    requires ScopedE(vars, e) && |vars| <= st.regs && FitsIn(CompE(vars, st, e, wanted).st, L)
    ensures var r := CompE(vars, st, e, wanted); Shape(r.code, 0, |r.code|, L) && OpndOk(r.out, L)
    decreases e, 1
  {
    hide Shape, FitsIn, CompE, OpndOk;
    match e
    case Const(v) => ShapeConst(vars, st, v, wanted, L);
    case Var(x) => ShapeVar(vars, st, x, wanted, L);
    case Unary(op, a) => ShapeUnary(vars, st, op, a, wanted, L);
    case Binary(op, a, b) => ShapeBinary(vars, st, op, a, b, wanted, L);
    case Lazy(op, a, b) => ShapeLazy(vars, st, op, a, b, wanted, L);
    case Assign(x, a) => ShapeAssign(vars, st, x, a, wanted, L);
    case OpAssign(op, x, a) => ShapeOpAssign(vars, st, op, x, a, wanted, L);
    case LazyAssign(op, x, a) => ShapeLazyAssign(vars, st, op, x, a, wanted, L);
    case Bump(inc, postfix, x) => ShapeBump(vars, st, inc, postfix, x, wanted, L);
  }

  lemma ShapeConst(vars: seq<FCVar>, st: CState, v: Value, wanted: bool, L: Limits)
    requires |vars| <= st.regs && FitsIn(CompE(vars, st, Const(v), wanted).st, L)
    ensures var r := CompE(vars, st, Const(v), wanted); Shape(r.code, 0, |r.code|, L) && OpndOk(r.out, L)
  {
    hide Shape;
    var cid := ConstIndex(st.consts, v);
    if cid < 256 { ShapeNone(L); } else { ShapeOne(LoadConst(cid, st.regs), L); }
  }

  lemma ShapeVar(vars: seq<FCVar>, st: CState, x: Name, wanted: bool, L: Limits)
    requires ScopedE(vars, Var(x)) && |vars| <= st.regs && FitsIn(CompE(vars, st, Var(x), wanted).st, L)
    ensures var r := CompE(vars, st, Var(x), wanted); Shape(r.code, 0, |r.code|, L) && OpndOk(r.out, L)
  {
  }

  lemma {:induction false} ShapeUnary(vars: seq<FCVar>, st: CState, op: UnOp, a: Expr, wanted: bool, L: Limits)
    requires ScopedE(vars, Unary(op, a)) && |vars| <= st.regs && FitsIn(CompE(vars, st, Unary(op, a), wanted).st, L)
    ensures var r := CompE(vars, st, Unary(op, a), wanted); Shape(r.code, 0, |r.code|, L) && OpndOk(r.out, L)
    decreases Unary(op, a), 0
  {
    hide CompE, Shape, Prefix;
    UnaryCode(vars, st, op, a, wanted);
    var r := CompE(vars, Alloc(st), a, true);
    GrowsE(vars, Alloc(st), a, true);
    ShapeE(vars, Alloc(st), a, true, L);
    ShapeOne(UnInstr(op, st.regs, r.out), L);
    ShapeSeq(r.code, [UnInstr(op, st.regs, r.out)], L);
  }

  lemma {:induction false} ShapeBinary(vars: seq<FCVar>, st: CState, op: BinOp, a: Expr, b: Expr, wanted: bool,
                                       L: Limits)
    requires ScopedE(vars, Binary(op, a, b)) && |vars| <= st.regs
             && FitsIn(CompE(vars, st, Binary(op, a, b), wanted).st, L)
    ensures var r := CompE(vars, st, Binary(op, a, b), wanted); Shape(r.code, 0, |r.code|, L) && OpndOk(r.out, L)
    decreases Binary(op, a, b), 0
  {
    hide CompE, Shape, Prefix;
    BinaryCode(vars, st, op, a, b, wanted);
    var ra := CompE(vars, Alloc(st), a, true);
    var rb := CompE(vars, ra.st, b, true);
    GrowsE(vars, Alloc(st), a, true);
    GrowsE(vars, ra.st, b, true);
    FitsBefore(ra.st, rb.st, L);
    ShapeE(vars, Alloc(st), a, true, L);
    ShapeE(vars, ra.st, b, true, L);
    var i := BinI(op, st.regs, ra.out, rb.out);
    ShapeOne(i, L);
    ShapeSeq(rb.code, [i], L);
    ShapeSeq(ra.code, rb.code + [i], L);
  }

  lemma {:induction false} ShapeAssign(vars: seq<FCVar>, st: CState, x: Name, a: Expr, wanted: bool, L: Limits)
    requires ScopedE(vars, Assign(x, a)) && |vars| <= st.regs && FitsIn(CompE(vars, st, Assign(x, a), wanted).st, L)
    ensures var r := CompE(vars, st, Assign(x, a), wanted); Shape(r.code, 0, |r.code|, L) && OpndOk(r.out, L)
    decreases Assign(x, a), 0
  {
    hide Shape, Prefix, Find;
    var r := CompE(vars, st, a, true);
    GrowsE(vars, st, a, true);
    ShapeE(vars, st, a, true, L);
    ShapeWrite(Find(vars, x), r.out, L);
    ShapeSeq(r.code, CompWrite(Find(vars, x), r.out), L);
  }

  lemma {:induction false} ShapeOpAssign(vars: seq<FCVar>, st: CState, op: BinOp, x: Name, a: Expr, wanted: bool,
            L: Limits)
    requires ScopedE(vars, OpAssign(op, x, a)) && |vars| <= st.regs
             && FitsIn(CompE(vars, st, OpAssign(op, x, a), wanted).st, L)
    ensures var r := CompE(vars, st, OpAssign(op, x, a), wanted); Shape(r.code, 0, |r.code|, L) && OpndOk(r.out, L)
    decreases OpAssign(op, x, a), 0
  {
    hide CompE, Shape, Prefix, Find;
    OpAssignCode(vars, st, op, x, a, wanted);
    var reg := Find(vars, x);
    var r := CompE(vars, Alloc(st), a, true);
    GrowsE(vars, Alloc(st), a, true);
    ShapeE(vars, Alloc(st), a, true, L);
    ShapeTwo(BinI(op, st.regs, reg, r.out), Set(reg, st.regs), L);
    ShapeSeq(r.code, [BinI(op, st.regs, reg, r.out), Set(reg, st.regs)], L);
  }

  lemma ShapeTwo(i: Instr, j: Instr, L: Limits)
    requires InstrOk(i, 0, 0, 2, L) && InstrOk(j, 1, 0, 2, L)
    ensures Shape([i, j], 0, 2, L)
  {
  }

  lemma {:induction false} ShapeLazyAssign(vars: seq<FCVar>, st: CState, op: Logic, x: Name, a: Expr, wanted: bool,
            L: Limits)
    requires ScopedE(vars, LazyAssign(op, x, a)) && |vars| <= st.regs
             && FitsIn(CompE(vars, st, LazyAssign(op, x, a), wanted).st, L)
    ensures var r := CompE(vars, st, LazyAssign(op, x, a), wanted); Shape(r.code, 0, |r.code|, L) && OpndOk(r.out, L)
    decreases LazyAssign(op, x, a), 0
  {
    hide CompE, CompWrite, Shape, Prefix, Find;
    LazyAssignCode(vars, st, op, x, a, wanted);
    var reg := Find(vars, x);
    var r := CompE(vars, Unwind(st, st.regs), a, true);
    GrowsE(vars, Unwind(st, st.regs), a, true);
    ShapeE(vars, Unwind(st, st.regs), a, true, L);
    var w := CompWrite(reg, r.out);
    ShapeWrite(reg, r.out, L);
    ShapeSeq(r.code, w, L);
    var n := |r.code| + |w|;
    var i1, i2 := CondJump(LazyCond(op), 1, reg), Jump(n);
    ShapeWiden(r.code + w, 0, n, -2, n, L);
    ShapeFirst(i2, r.code + w, -1, n + 1, L);
    ShapeFirst(i1, [i2] + (r.code + w), 0, n + 2, L);
    assert [i1] + ([i2] + (r.code + w)) == [i1, i2] + (r.code + w);
  }

  lemma ShapeBump(vars: seq<FCVar>, st: CState, inc: bool, postfix: bool, x: Name, wanted: bool, L: Limits)
    requires ScopedE(vars, Bump(inc, postfix, x)) && |vars| <= st.regs
             && FitsIn(CompE(vars, st, Bump(inc, postfix, x), wanted).st, L)
    ensures var r := CompE(vars, st, Bump(inc, postfix, x), wanted); Shape(r.code, 0, |r.code|, L) && OpndOk(r.out, L)
  {
    hide Shape, Find;
    var reg := Find(vars, x);
    if wanted && postfix {
      ShapeTwo(Set(st.regs, reg), IncDecI(inc, reg, reg), L);
    } else {
      ShapeOne(IncDecI(inc, reg, reg), L);
    }
  }

  lemma ShapeNone(L: Limits)
    ensures Shape([], 0, 0, L)
  {
  }

  lemma ShapeOne(i: Instr, L: Limits)
    requires InstrOk(i, 0, 0, 1, L)
    ensures Shape([i], 0, 1, L)
  {
  }

  lemma ShapeWrite(reg: int, src: int, L: Limits)
    requires RegOk(reg, L) && OpndOk(src, L)
    ensures var w := CompWrite(reg, src); Shape(w, 0, |w|, L)
  {
  }

  lemma {:induction false} ShapeLazy(vars: seq<FCVar>, st: CState, op: Logic, a: Expr, b: Expr, wanted: bool, L: Limits)
    requires ScopedE(vars, Lazy(op, a, b)) && |vars| <= st.regs && FitsIn(CompE(vars, st, Lazy(op, a, b), wanted).st, L)
    ensures var r := CompE(vars, st, Lazy(op, a, b), wanted); Shape(r.code, 0, |r.code|, L) && OpndOk(r.out, L)
    decreases Lazy(op, a, b), 0
  {
    hide CompE, Shape, Prefix;
    LazyCode(vars, st, op, a, b, wanted);
    var ra := CompE(vars, Alloc(st), a, true);
    var rb := CompE(vars, ra.st, b, true);
    GrowsE(vars, Alloc(st), a, true);
    GrowsE(vars, ra.st, b, true);
    FitsBefore(ra.st, rb.st, L);
    ShapeE(vars, Alloc(st), a, true, L);
    ShapeE(vars, ra.st, b, true, L);
    var t, n := st.regs, |rb.code| + 1;
    var i1, i2, i3 := CondJump(LazyCond(op), 2, ra.out), Set(t, ra.out), Jump(n);
    ShapeOne(Set(t, rb.out), L);
    ShapeSeq(rb.code, [Set(t, rb.out)], L);
    var tail := rb.code + [Set(t, rb.out)];
    ShapeWiden(tail, 0, n, -3, n, L);
    ShapeFirst(i3, tail, -2, n + 1, L);
    ShapeFirst(i2, [i3] + tail, -1, n + 2, L);
    ShapeFirst(i1, [i2] + ([i3] + tail), 0, n + 3, L);
    assert [i1] + ([i2] + ([i3] + tail)) == [i1, i2, i3] + tail;
    ShapeSeq(ra.code, [i1, i2, i3] + tail, L);
  }

  lemma ShapeEffect(vars: seq<FCVar>, st: CState, e: Expr, L: Limits)
    requires ScopedE(vars, e) && |vars| <= st.regs && FitsIn(CompEffect(vars, st, e).st, L)
    ensures var r := CompEffect(vars, st, e); Shape(r.code, 0, |r.code|, L)
  {
    hide CompE, Shape;
    if e.Const? || e.Var? { ShapeNone(L); } else {
      GrowsE(vars, st, e, false);
      ShapeE(vars, st, e, false, L);
    }
  }

  lemma {:induction false} ShapeEffects(vars: seq<FCVar>, st: CState, es: seq<Expr>, L: Limits)
    requires ScopedEs(vars, es) && |vars| <= st.regs && FitsIn(CompEffects(vars, st, es).st, L)
    ensures var r := CompEffects(vars, st, es); Shape(r.code, 0, |r.code|, L)
    decreases es
  {
    hide Shape, Grows;
    if es == [] { ShapeNone(L); } else {
      var r := CompEffect(vars, st, es[0]);
      var rest := CompEffects(vars, r.st, es[1..]);
      GrowsEffect(vars, st, es[0]);
      GrowsEffects(vars, r.st, es[1..]);
      FitsBefore(r.st, rest.st, L);
      ShapeEffect(vars, st, es[0], L);
      ShapeEffects(vars, r.st, es[1..], L);
      ShapeSeq(r.code, rest.code, L);
    }
  }

  lemma ShapeInit(vars: seq<FCVar>, st: CState, es: Option<seq<Expr>>, L: Limits)
    requires ScopedEs(vars, ListOf(es)) && |vars| <= st.regs && FitsIn(CompInit(vars, st, es).st, L)
    ensures var r := CompInit(vars, st, es); Shape(r.code, 0, |r.code|, L)
  {
    if es.Some? { ShapeEffects(vars, st, es.value, L); }
  }

  lemma ShapeBound(vars: seq<FCVar>, st: CState, e: Option<Expr>, v: int, dst: int, L: Limits)
    requires ScopedO(vars, e) && |vars| <= st.regs && RegOk(dst, L) && FitsIn(CompBound(vars, st, e, v, dst).st, L)
    ensures var r := CompBound(vars, st, e, v, dst); Shape(r.code, 0, |r.code|, L)
  {
    hide CompE, Shape, Grows;
    if e.Some? {
      var r := CompE(vars, st, e.value, true);
      GrowsE(vars, st, e.value, true);
      ShapeE(vars, st, e.value, true, L);
      ShapeWrite(dst, r.out, L);
      ShapeSeq(r.code, CompWrite(dst, r.out), L);
    } else {
      var r := CompConst(st, Int(v));
      ConstIsE(vars, st, v);
      ShapeE(vars, st, Const(Int(v)), true, L);
      ShapeOne(Set(dst, r.out), L);
      ShapeSeq(r.code, [Set(dst, r.out)], L);
    }
  }

  lemma ConstIsE(vars: seq<FCVar>, st: CState, v: int)
    ensures CompE(vars, st, Const(Int(v)), true) == CompConst(st, Int(v)) && ScopedE(vars, Const(Int(v)))
  {
  }

  /** Patching one loop's breaks and continues keeps the shape and leaves none of them. */
  lemma ShapePatch(b: seq<Instr>, c: int, t: int, L: Limits)
    requires Shape(b, 0, |b|, L.(loops := L.loops + 1)) && 0 <= c <= t && |b| <= t && L.loops >= 0
    ensures Shape(Patch(Patch(b, L.loops + 1, true, c), L.loops + 1, false, t), 0, t, L)
  {
    var d := L.loops + 1;
    var b1 := Patch(b, d, true, c);
    var b2 := Patch(b1, d, false, t);
    forall i | 0 <= i < |b2| ensures InstrOk(b2[i], i, 0, t, L) {
      assert InstrOk(b[i], i, 0, |b|, L.(loops := d));
    }
  }

  function LoopLimits(L: Limits): Limits {
    L.(loops := L.loops + 1)
  }

  lemma ShapeLoops(a: seq<Instr>, lo: int, hi: int, L: Limits, k: int)
    requires Shape(a, lo, hi, L) && PendUpTo(a, k)
    ensures Shape(a, lo, hi, L.(loops := k))
  {
    forall i | 0 <= i < |a| ensures InstrOk(a[i], i, lo, hi, L.(loops := k)) {
      assert InstrOk(a[i], i, lo, hi, L);
    }
  }

  lemma {:induction false} ShapeS(lev: nat, env: Env, st: CState, s: Stmt, L: Limits)
    requires WfEnv(lev, env) && Wf(s, |env.loops|, env.top) && Depth(s) <= lev && DefersScoped(env)
    requires ScopedS(env.vars, s) && VarsOk(env.vars) && |env.vars| <= st.regs && L.loops == |env.loops|
    requires FitsIn(CompS(lev, env, st, s).st, L)
    ensures var r := CompS(lev, env, st, s); Shape(r.code, 0, |r.code|, L)
    decreases lev, 1, s, 2
  {
    hide CompE, CompEffect, CompSeq, CompFor, CompDo, CompNum, CompExit, CompDefers, Shape, Grows;
    match s
    case ExprS(e) => ShapeEffect(env.vars, st, e, L);
    case Block(ss) =>
      SettlesSeq(lev, env, |env.defers|, st, ss);
      FitsUnwind(CompSeq(lev, env, |env.defers|, st, ss).st, st.regs, L);
      ShapeSequence(lev, env, |env.defers|, st, ss, L);
    case If(c, t, f) => ShapeIf(lev, env, st, c, t, f, L);
    case While(c, body) => ShapeFor(lev, env, st, None, Some(c), None, body, L);
    case DoWhile(body, c) => ShapeDo(lev, env, st, body, c, L);
    case For(init, test, incr, body) => ShapeFor(lev, env, st, Some(init), test, Some(incr), body, L);
    case NumFor(x, start, last, stride, body) => ShapeNum(lev, env, st, x, start, last, stride, body, L);
    case Break(n) => ShapeExit(lev, env, st, n, false, L);
    case Continue(n) => ShapeExit(lev, env, st, n, true, L);
    case Return(e) =>
      var r := if e.Some? then CompE(env.vars, st, e.value, true) else ECode([], st, 0);
      var rd := CompDefers(lev, env, |env.defers|, 0, r.st);
      if e.Some? { GrowsE(env.vars, st, e.value, true); }
      SettlesDefers(lev, env, |env.defers|, 0, r.st);
      FitsUnwind(rd.st, st.regs, L);
      FitsBefore(r.st, rd.st, L);
      ShapeDefers(lev, env, |env.defers|, 0, r.st, L);
      if e.Some? {
        ShapeE(env.vars, st, e.value, true, L);
        ShapeOne(Ret1(r.out), L);
        ShapeSeq(rd.code, [Ret1(r.out)], L);
        ShapeSeq(r.code, rd.code + [Ret1(r.out)], L);
      } else {
        ShapeOne(RetN(0), L);
        ShapeSeq(rd.code, [RetN(0)], L);
      }
  }

  lemma FitsUnwind(st: CState, pos: int, L: Limits)
    requires FitsIn(Unwind(st, pos), L)
    ensures FitsIn(st, L)
  {
  }

  ghost predicate DefersScoped(env: Env) {
    forall k | 0 <= k < |env.defers| :: ScopedS(env.vars, env.defers[k])
  }

  lemma {:induction false} ShapeIf(lev: nat, env: Env, st: CState, c: Expr, t: Stmt, f: Option<Stmt>, L: Limits)
    requires WfEnv(lev, env) && Wf(If(c, t, f), |env.loops|, env.top) && Depth(If(c, t, f)) <= lev && DefersScoped(env)
    requires ScopedS(env.vars, If(c, t, f)) && VarsOk(env.vars) && |env.vars| <= st.regs && L.loops == |env.loops|
    requires FitsIn(CompS(lev, env, st, If(c, t, f)).st, L)
    ensures var r := CompS(lev, env, st, If(c, t, f)); Shape(r.code, 0, |r.code|, L)
    decreases lev, 1, If(c, t, f), 1
  {
    hide CompE, CompS, Shape, Prefix, Wf, Depth, DefersScoped, VarsOk, WfEnv;
    IfParts(c, t, f, |env.loops|, env.top, lev);
    IfCode(lev, env, st, c, t, f);
    var rc := CompE(env.vars, st, c, true);
    var st1 := Unwind(rc.st, st.regs);
    var rt := CompS(lev, env, st1, t);
    GrowsE(env.vars, st, c, true);
    SettlesS(lev, env, st1, t);
    var m := |rt.code|;
    if f.None? {
      FitsBefore(st1, rt.st, L);
      ShapeE(env.vars, st, c, true, L);
      ShapeS(lev, env, st1, t, L);
      ShapeWiden(rt.code, 0, m, -1, m, L);
      ShapeFirst(CondJump(IfFalse, m, rc.out), rt.code, 0, m + 1, L);
      ShapeSeq(rc.code, [CondJump(IfFalse, m, rc.out)] + rt.code, L);
    } else {
      var st2 := Check(rt.st, InJumpRange(m + 1));
      assert st2 == rt.st;
      var rf := CompS(lev, env, st2, f.value);
      SettlesS(lev, env, st2, f.value);
      FitsBefore(st2, rf.st, L);
      FitsBefore(st1, rt.st, L);
      ShapeE(env.vars, st, c, true, L);
      ShapeS(lev, env, st1, t, L);
      ShapeS(lev, env, st2, f.value, L);
      var j := |rf.code|;
      ShapeWiden(rf.code, 0, j, -1, j, L);
      ShapeFirst(Jump(j), rf.code, 0, j + 1, L);
      ShapeSeq(rt.code, [Jump(j)] + rf.code, L);
      var tail := rt.code + ([Jump(j)] + rf.code);
      ShapeWiden(tail, 0, m + j + 1, -1, m + j + 1, L);
      ShapeFirst(CondJump(IfFalse, m + 1, rc.out), tail, 0, m + j + 2, L);
      ShapeSeq(rc.code, [CondJump(IfFalse, m + 1, rc.out)] + tail, L);
      assert CompS(lev, env, st, If(c, t, f)).code == rc.code + ([CondJump(IfFalse, m + 1, rc.out)] + tail);
    }
  }

  lemma {:induction false} ShapeFor(lev: nat, env: Env, st: CState, init: Option<seq<Expr>>, test: Option<Expr>,
                                    incr: Option<seq<Expr>>, body: seq<Stmt>, L: Limits)
    requires WfEnv(lev, env) && WfSeq(body, |env.loops| + 1, env.top) && DepthSeq(body) <= lev && DefersScoped(env)
    requires ScopedEs(env.vars, ListOf(init)) && ScopedO(env.vars, test) && ScopedEs(env.vars, ListOf(incr))
             && ScopedSeq(env.vars, body)
    requires VarsOk(env.vars) && |env.vars| <= st.regs && L.loops == |env.loops|
    requires FitsIn(CompFor(lev, env, st, init, test, incr, body).st, L)
    ensures var r := CompFor(lev, env, st, init, test, incr, body); Shape(r.code, 0, |r.code|, L)
    decreases lev, 1, body, 1
  {
    hide CompE, CompSeq, CompInit, Patch, PatchInRange, Shape, Prefix, VarsOk, DefersScoped;
    var d := |env.loops| + 1;
    ForGrows(lev, env, st, init, test, incr, body);
    var ri := CompInit(env.vars, st, init);
    var rc := if test.Some? then CompE(env.vars, ri.st, test.value, true) else ECode([], ri.st, 0);
    var st2 := Unwind(rc.st, st.regs);
    var rb := CompSeq(lev, EnterLoop(env), |env.defers|, st2, body);
    var st3 := Unwind(rb.st, st.regs);
    var ru := CompInit(env.vars, st3, incr);
    FitsBefore(st3, ru.st, L);
    FitsUnwind(rb.st, st.regs, L);
    FitsBefore(st2, rb.st, L);
    FitsUnwind(rc.st, st.regs, L);
    FitsBefore(ri.st, rc.st, L);
    ShapeInit(env.vars, st, init, L);
    DefersEnter(env);
    FitsLoops(rb.st, L);
    ShapeSequence(lev, EnterLoop(env), |env.defers|, st2, body, LoopLimits(L));
    ShapeInit(env.vars, st3, incr, L);
    var n, u := |rb.code|, |ru.code|;
    var b2 := Patch(Patch(rb.code, d, true, n), d, false, n + u + 1);
    ShapePatch(rb.code, n, n + u + 1, L);
    ShapeLoopBack(rc, test.Some?, b2, ru.code, L, env.vars, ri.st, test);
    var skip := if test.Some? then [CondJump(IfFalse, n + u + 1, rc.out)] else [];
    var back := -(|rc.code| + |skip| + n + u) - 1;
    ShapeSeq(ri.code, rc.code + (skip + (b2 + (ru.code + [Jump(back)]))), L);
  }

  lemma FitsLoops(st: CState, L: Limits)
    requires FitsIn(st, L)
    ensures FitsIn(st, LoopLimits(L))
  {
  }

  lemma DefersEnter(env: Env)
    requires DefersScoped(env)
    ensures DefersScoped(EnterLoop(env))
  {
  }

  /** Test, conditional jump over the rest, patched body, increments, jump back to the test. */
  lemma ShapeLoopBack(rc: ECode, tested: bool, b2: seq<Instr>, u: seq<Instr>, L: Limits, vars: seq<FCVar>, st: CState,
                      test: Option<Expr>)
    requires Shape(b2, 0, |b2| + |u| + 1, L) && Shape(u, 0, |u|, L)
    requires tested == test.Some? && rc == (if test.Some? then CompE(vars, st, test.value, true) else ECode([], st, 0))
    requires ScopedO(vars, test) && |vars| <= st.regs && FitsIn(rc.st, L)
    ensures var skip := if tested then [CondJump(IfFalse, |b2| + |u| + 1, rc.out)] else [];
            var back := -(|rc.code| + |skip| + |b2| + |u|) - 1;
            var code := rc.code + (skip + (b2 + (u + [Jump(back)])));
            Shape(code, 0, |code|, L)
  {
    hide CompE, Shape, FitsIn, ScopedO, OpndOk, InstrOk;
    var n, k := |b2| + |u| + 1, |rc.code|;
    var sk := if tested then 1 else 0;
    var back := -(k + sk + |b2| + |u|) - 1;
    var rest := b2 + (u + [Jump(back)]);
    ShapeJumpBack(b2, u, k + sk, L);
    if tested {
      TestShaped(vars, st, test, L);
      ShapeTested(rc.code, rc.out, rest, L);
    } else {
      assert [] + rest == rest;
    }
  }

  lemma TestShaped(vars: seq<FCVar>, st: CState, test: Option<Expr>, L: Limits)
    requires test.Some? && ScopedO(vars, test) && |vars| <= st.regs && FitsIn(CompE(vars, st, test.value, true).st, L)
    ensures var r := CompE(vars, st, test.value, true); Shape(r.code, 0, |r.code|, L) && OpndOk(r.out, L)
  {
    ShapeE(vars, st, test.value, true, L);
  }

  /** A test, the jump over the rest, and the rest. */
  lemma ShapeTested(test: seq<Instr>, out: int, rest: seq<Instr>, L: Limits)
    requires Shape(test, 0, |test|, L) && OpndOk(out, L) && Shape(rest, -|test| - 1, |rest|, L)
    ensures Shape(test + ([CondJump(IfFalse, |rest|, out)] + rest), 0, |test| + 1 + |rest|, L)
  {
    hide Shape;
    var n, k := |rest|, |test|;
    ShapeFirst(CondJump(IfFalse, n, out), rest, -k, n + 1, L);
    ShapeWiden(test, 0, k, 0, k + n + 1, L);
    ShapeJoin(test, [CondJump(IfFalse, n, out)] + rest, 0, k + n + 1, L);
  }

  /** Body, increments, and a jump `before` instructions further back than the body. */
  lemma ShapeJumpBack(b2: seq<Instr>, u: seq<Instr>, before: nat, L: Limits)
    requires Shape(b2, 0, |b2| + |u| + 1, L) && Shape(u, 0, |u|, L)
    ensures Shape(b2 + (u + [Jump(-1 - before - |b2| - |u|)]), 0 - before, |b2| + |u| + 1, L)
  {
    hide Shape;
    var n, j := |b2| + |u| + 1, Jump(-1 - before - |b2| - |u|);
    ShapeWiden(u, 0, |u|, 0 - before - |b2|, |u| + 1, L);
    ShapeThen(u, j, 0 - before - |b2|, |u| + 1, L);
    ShapeWiden(b2, 0, n, 0 - before, n, L);
    ShapeJoin(b2, u + [j], 0 - before, n, L);
  }

  lemma {:induction false} ShapeDo(lev: nat, env: Env, st: CState, body: seq<Stmt>, c: Expr, L: Limits)
    requires WfEnv(lev, env) && WfSeq(body, |env.loops| + 1, env.top) && DepthSeq(body) <= lev && DefersScoped(env)
    requires ScopedE(env.vars, c) && ScopedSeq(env.vars, body) && VarsOk(env.vars) && |env.vars| <= st.regs
             && L.loops == |env.loops|
    requires FitsIn(CompDo(lev, env, st, body, c).st, L)
    ensures var r := CompDo(lev, env, st, body, c); Shape(r.code, 0, |r.code|, L)
    decreases lev, 1, body, 1
  {
    hide CompE, CompSeq, Patch, PatchInRange, Shape, Prefix, VarsOk, DefersScoped;
    var d := |env.loops| + 1;
    DefersEnter(env);
    var rb := CompSeq(lev, EnterLoop(env), |env.defers|, st, body);
    var st3 := Unwind(rb.st, st.regs);
    var rc := CompE(env.vars, st3, c, true);
    SettlesSeq(lev, EnterLoop(env), |env.defers|, st, body);
    GrowsE(env.vars, st3, c, true);
    FitsBefore(st3, rc.st, L);
    FitsUnwind(rb.st, st.regs, L);
    FitsLoops(rb.st, L);
    ShapeSequence(lev, EnterLoop(env), |env.defers|, st, body, LoopLimits(L));
    ShapeE(env.vars, st3, c, true, L);
    var n, k := |rb.code|, |rc.code|;
    ShapePatch(rb.code, n, n + k + 1, L);
    var b2 := Patch(Patch(rb.code, d, true, n), d, false, n + k + 1);
    var cj := CondJump(IfTrue, -(n + k) - 1, rc.out);
    ShapeWiden(rc.code, 0, k, -n, k + 1, L);
    ShapeThen(rc.code, cj, -n, k + 1, L);
    ShapeJoin(b2, rc.code + [cj], 0, n + k + 1, L);
  }

  lemma {:induction false} ShapeNum(lev: nat, env: Env, st: CState, x: Name, start: Option<Expr>, last: Expr,
                                    stride: Option<Expr>, body: seq<Stmt>, L: Limits)
    requires WfEnv(lev, env) && WfSeq(body, |env.loops| + 1, env.top) && DepthSeq(body) <= lev && DefersScoped(env)
    requires ScopedS(env.vars, NumFor(x, start, last, stride, body)) && VarsOk(env.vars) && |env.vars| <= st.regs
             && L.loops == |env.loops|
    requires FitsIn(CompNum(lev, env, st, x, start, last, stride, body).st, L)
    ensures var r := CompNum(lev, env, st, x, start, last, stride, body); Shape(r.code, 0, |r.code|, L)
    decreases lev, 1, body, 1
  {
    hide CompE, CompSeq, CompBound, CompInto, Patch, PatchInRange, Shape, Prefix, DefersScoped, Find;
    var d, reg := |env.loops| + 1, Find(env.vars, x);
    assert HasHidden(env.vars, reg);
    DefersEnter(env);
    var r1 := CompBound(env.vars, st, start, 0, reg + 1);
    BoundIsInto(env.vars, r1.st, last, reg + 2);
    var r2 := CompBound(env.vars, r1.st, Some(last), 0, reg + 2);
    var r3 := CompBound(env.vars, r2.st, stride, 1, reg + 3);
    var rb := CompSeq(lev, EnterLoop(env), |env.defers|, r3.st, body);
    GrowsBound(env.vars, st, start, 0, reg + 1);
    GrowsBound(env.vars, r1.st, Some(last), 0, reg + 2);
    GrowsBound(env.vars, r2.st, stride, 1, reg + 3);
    SettlesSeq(lev, EnterLoop(env), |env.defers|, r3.st, body);
    FitsBefore(r3.st, rb.st, L);
    FitsBefore(r2.st, r3.st, L);
    FitsBefore(r1.st, r2.st, L);
    ShapeBound(env.vars, st, start, 0, reg + 1, L);
    ShapeBound(env.vars, r1.st, Some(last), 0, reg + 2, L);
    ShapeBound(env.vars, r2.st, stride, 1, reg + 3, L);
    FitsLoops(rb.st, L);
    ShapeSequence(lev, EnterLoop(env), |env.defers|, r3.st, body, LoopLimits(L));
    var n := |rb.code|;
    ShapePatch(rb.code, n, n + 1, L);
    var b2 := Patch(Patch(rb.code, d, true, n), d, false, n + 1);
    var prep, jump := NForPrep(n + 1, reg), NForJump(-n - 1, reg);
    ShapeThen(b2, jump, 0, n + 1, L);
    ShapeWiden(b2 + [jump], 0, n + 1, -1, n + 1, L);
    ShapeFirst(prep, b2 + [jump], 0, n + 2, L);
    ShapeSeq(r3.code, [prep] + (b2 + [jump]), L);
    ShapeSeq(r2.code, r3.code + ([prep] + (b2 + [jump])), L);
    ShapeSeq(r1.code, r2.code + (r3.code + ([prep] + (b2 + [jump]))), L);
  }

  lemma {:induction false} ShapeExit(lev: nat, env: Env, st: CState, n: int, iscont: bool, L: Limits)
    requires WfEnv(lev, env) && (env.top || 1 <= n <= |env.loops|) && DefersScoped(env)
    requires VarsOk(env.vars) && |env.vars| <= st.regs && L.loops == |env.loops|
             && FitsIn(CompExit(lev, env, st, n, iscont).st, L)
    ensures var r := CompExit(lev, env, st, n, iscont); Shape(r.code, 0, |r.code|, L)
    decreases lev, 0, 0, 1
  {
    hide CompDefers, Shape;
    var end := env.loops[|env.loops| - n];
    var rd := CompDefers(lev, env, |env.defers|, end, st);
    FitsUnwind(rd.st, st.regs, L);
    ShapeDefers(lev, env, |env.defers|, end, st, L);
    ShapeOne(Pend(|env.loops| + 1 - n, iscont), L);
    ShapeSeq(rd.code, [Pend(|env.loops| + 1 - n, iscont)], L);
  }

  lemma {:induction false} ShapeSequence(lev: nat, env: Env, start: nat, st: CState, ss: seq<Stmt>, L: Limits)
    requires WfEnv(lev, env) && WfSeq(ss, |env.loops|, env.top) && DepthSeq(ss) <= lev && start <= |env.defers|
             && DefersScoped(env)
    requires ScopedSeq(env.vars, ss) && VarsOk(env.vars) && |env.vars| <= st.regs && L.loops == |env.loops|
    requires FitsIn(CompSeq(lev, env, start, st, ss).st, L)
    ensures var r := CompSeq(lev, env, start, st, ss); Shape(r.code, 0, |r.code|, L)
    decreases lev, 1, ss, 0
  {
    hide CompS, CompDefers, Shape, Prefix, VarsOk;
    if ss == [] {
      ShapeDefers(lev, env, |env.defers|, start, st, L);
    } else if ss[0].Defer? {
      if env.under + |env.defers| >= MAX_DEFERS {
        SettlesSeq(lev, env, start, Unwind(Fail(st), st.regs), ss[1..]);
        FitsBefore(Unwind(Fail(st), st.regs), CompSeq(lev, env, start, st, ss).st, L);
        assert false;
      } else {
        var env' := env.(defers := env.defers + [ss[0].d]);
        ShapeSequence(lev, env', start, Unwind(st, st.regs), ss[1..], L);
      }
    } else {
      var r := CompS(lev, env, st, ss[0]);
      var st1 := Unwind(r.st, st.regs);
      var rest := CompSeq(lev, env, start, st1, ss[1..]);
      SettlesS(lev, env, st, ss[0]);
      SettlesSeq(lev, env, start, st1, ss[1..]);
      FitsBefore(st1, rest.st, L);
      FitsUnwind(r.st, st.regs, L);
      ShapeS(lev, env, st, ss[0], L);
      ShapeSequence(lev, env, start, st1, ss[1..], L);
      ShapeSeq(r.code, rest.code, L);
    }
  }

  lemma {:induction false} ShapeDefers(lev: nat, env: Env, i: nat, end: nat, st: CState, L: Limits)
    requires WfEnv(lev, env) && i <= |env.defers| && DefersScoped(env) && VarsOk(env.vars) && |env.vars| <= st.regs
    requires FitsIn(CompDefers(lev, env, i, end, st).st, L) && L.loops >= 0
    ensures var r := CompDefers(lev, env, i, end, st); Shape(r.code, 0, |r.code|, L)
    decreases lev, 0, 0, 0, i
  {
    hide CompS, Shape, Prefix, VarsOk;
    if i <= end { ShapeNone(L); } else {
      var d := env.defers[i - 1];
      assert Depth(d) < lev;
      var r := CompS(lev - 1, DeferEnv(env), st, d);
      var rest := CompDefers(lev, env, i - 1, end, r.st);
      SettlesS(lev - 1, DeferEnv(env), st, d);
      SettlesDefers(lev, env, i - 1, end, r.st);
      FitsBefore(r.st, rest.st, L);
      ShapeS(lev - 1, DeferEnv(env), st, d, L.(loops := 0));
      PendS(lev - 1, DeferEnv(env), st, d);
      ShapeLoops(r.code, 0, |r.code|, L.(loops := 0), 0);
      ShapeFewer(r.code, 0, |r.code|, L);
      ShapeDefers(lev, env, i - 1, end, r.st, L);
      ShapeSeq(r.code, rest.code, L);
    }
  }

  lemma ShapeFewer(a: seq<Instr>, lo: int, hi: int, L: Limits)
    requires Shape(a, lo, hi, L.(loops := 0)) && L.loops >= 0
    ensures Shape(a, lo, hi, L)
  {
    forall i | 0 <= i < |a| ensures InstrOk(a[i], i, lo, hi, L) {
      assert InstrOk(a[i], i, lo, hi, L.(loops := 0));
    }
  }
}
