/** The specification of the bytecode generator: which code each construct compiles to.

    The generator itself (CodeGen.dfy) works in one pass: it writes placeholders, patches
    them later, and keeps breaks and continues on a pending list.  Here the code of a
    construct is put together from the code of its parts, jumps already known; a break or
    continue is a `Pend` instruction until the loop it belongs to resolves it. */
module Compile {
  import opened Bytecode
  import opened Source

  /* ---- variables ---- */

  datatype FCVar = FCVar(name: Name, numfor: bool)

  const NUM_HIDDEN: seq<FCVar> :=
    [FCVar("(num.for init)", false), FCVar("(num.for end)", false), FCVar("(num.for step)", false)]

  /** Names that no identifier of a script can have. */
  predicate IsHidden(x: Name) {
    x != "" && x[0] == '('
  }

  /** find_var: the first position of a name, -1 if there is none. */
  function Find(vars: seq<FCVar>, x: Name): (r: int)
    ensures -1 <= r < |vars|
    ensures r >= 0 ==> vars[r].name == x
    ensures forall i | 0 <= i < |vars| && vars[i].name == x :: 0 <= r <= i
  {
    if vars == [] then -1
    else if vars[0].name == x then 0
    else
      var r := Find(vars[1..], x);
      if r < 0 then -1 else r + 1
  }

  /** expand_varlist: three hidden registers behind every numeric loop variable. */
  function Expand(vars: seq<FCVar>): seq<FCVar> {
    if vars == [] then []
    else [vars[0]] + (if vars[0].numfor then NUM_HIDDEN else []) + Expand(vars[1..])
  }

  /* ---- registers and constants ---- */

  /** The part of the function context that expressions change: the register watermark, its
      maximum so far, the constants, and whether no error has been reported. */
  datatype CState = CState(regs: int, lastreg: int, consts: seq<Value>, ok: bool)

  /** comp_reg_alloc; the register is `st.regs`. */
  function Alloc(st: CState): CState {
    st.(regs := st.regs + 1, ok := st.ok && st.regs <= 255)
  }

  /** comp_reg_unwind */
  function Unwind(st: CState, pos: int): CState {
    st.(regs := pos, lastreg := if st.regs > st.lastreg then st.regs else st.lastreg)
  }

  /** Registers a run of the code compiled so far can touch lie below this. */
  function Peak(st: CState): int {
    if st.regs > st.lastreg then st.regs else st.lastreg
  }

  function Fail(st: CState): CState {
    st.(ok := false)
  }

  function Check(st: CState, good: bool): CState {
    st.(ok := st.ok && good)
  }

  /** The add_const functions: reuse an equal constant, else append. */
  function ConstIndex(consts: seq<Value>, v: Value): (r: int)
    ensures 0 <= r <= |consts|
    ensures r < |consts| ==> consts[r] == v
    ensures forall i | 0 <= i < |consts| && consts[i] == v :: r <= i
  {
    if consts == [] then 0
    else if consts[0] == v then 0
    else 1 + ConstIndex(consts[1..], v)
  }

  function AddConst(consts: seq<Value>, v: Value): seq<Value> {
    if ConstIndex(consts, v) < |consts| then consts else consts + [v]
  }

  /* ---- expressions ---- */

  /** Code, the state after it, and the operand that holds the result. */
  datatype ECode = ECode(code: seq<Instr>, st: CState, out: int)

  /** A constant as an operand: const_maybeload after add_const. */
  function CompConst(st: CState, v: Value): ECode {
    var cid := ConstIndex(st.consts, v);
    var st1 := st.(consts := AddConst(st.consts, v));
    if cid > 65535 then ECode([], Fail(st1), 0)
    else if cid < 256 then ECode([], st1, 256 + cid)
    else ECode([LoadConst(cid, st1.regs)], Alloc(st1), st1.regs)
  }

  /** compile_node_w for a local: nothing to do if the value is already there. */
  function CompWrite(reg: int, src: int): seq<Instr> {
    if reg == src then [] else [Set(reg, src)]
  }

  function UnInstr(op: UnOp, a: int, b: int): Instr {
    if op == Plus then Set(a, b) else UnI(op, a, b)
  }

  /** The jump to the right operand. */
  function LazyCond(op: Logic): Cond {
    match op case And => IfTrue case Or => IfFalse case Nullish => IfNull
  }

  /** compile_node_r and compile_oper; `wanted` is whether the value is wanted. */
  function CompE(vars: seq<FCVar>, st: CState, e: Expr, wanted: bool): ECode
    decreases e
  {
    match e
    case Const(v) => CompConst(st, v)
    case Var(x) => ECode([], st, Find(vars, x))
    case Unary(op, a) =>
      var r := CompE(vars, Alloc(st), a, true);
      ECode(r.code + [UnInstr(op, st.regs, r.out)], r.st, st.regs)
    case Binary(op, a, b) =>
      var ra := CompE(vars, Alloc(st), a, true);
      var rb := CompE(vars, ra.st, b, true);
      ECode(ra.code + (rb.code + [BinI(op, st.regs, ra.out, rb.out)]), rb.st, st.regs)
    case Lazy(op, a, b) =>
      var ra := CompE(vars, Alloc(st), a, true);
      var rb := CompE(vars, ra.st, b, true);
      ECode(ra.code
            + ([CondJump(LazyCond(op), 2, ra.out), Set(st.regs, ra.out), Jump(|rb.code| + 1)]
               + (rb.code + [Set(st.regs, rb.out)])), rb.st, st.regs)
    case Assign(x, a) =>
      var r := CompE(vars, st, a, true);
      var reg := Find(vars, x);
      ECode(r.code + CompWrite(reg, r.out), Unwind(r.st, st.regs), reg)
    case OpAssign(op, x, a) =>
      var reg := Find(vars, x);
      var r := CompE(vars, Alloc(st), a, true);
      ECode(r.code + [BinI(op, st.regs, reg, r.out), Set(reg, st.regs)], Unwind(r.st, r.st.regs), reg)
    case LazyAssign(op, x, a) =>
      var reg := Find(vars, x);
      var st1 := Unwind(st, st.regs);
      var r := CompE(vars, st1, a, true);
      var w := CompWrite(reg, r.out);
      ECode([CondJump(LazyCond(op), 1, reg), Jump(|r.code| + |w|)] + (r.code + w), Unwind(r.st, r.st.regs), reg)
    case Bump(inc, postfix, x) =>
      var reg := Find(vars, x);
      if wanted && postfix then
        ECode([Set(st.regs, reg), IncDecI(inc, reg, reg)], Unwind(Alloc(st), st.regs + 1), st.regs)
      else ECode([IncDecI(inc, reg, reg)], Unwind(st, st.regs), reg)
  }

  /* ---- statements ---- */

  datatype SCode = SCode(code: seq<Instr>, st: CState)

  /** What a statement is compiled in: the deferred statements of the enclosing blocks,
      oldest first, how many of them there were when each enclosing loop's body began,
      whether the function itself can be left from here (not inside a deferred body), and
      how many deferred statements lie under these, out of reach. */
  datatype Env = Env(vars: seq<FCVar>, defers: seq<Stmt>, loops: seq<nat>, top: bool, under: nat)

  function EnterLoop(env: Env): Env {
    env.(loops := env.loops + [|env.defers|])
  }

  /** A deferred statement is compiled at every exit, where it can reach nothing around it. */
  function DeferEnv(env: Env): Env {
    Env(env.vars, [], [], false, env.under + |env.defers|)
  }

  const MAX_DEFERS: int := 256

  function MaxOf(a: nat, b: nat): nat { if a > b then a else b }

  /** How deeply deferred statements are nested inside a statement. */
  function Depth(s: Stmt): nat
    decreases s, 1
  {
    match s
    case Block(ss) => DepthSeq(ss)
    case If(_, t, f) => MaxOf(Depth(t), if f.Some? then Depth(f.value) else 0)
    case While(_, body) => DepthSeq(body)
    case DoWhile(body, _) => DepthSeq(body)
    case For(_, _, _, body) => DepthSeq(body)
    case NumFor(_, _, _, _, body) => DepthSeq(body)
    case Defer(d) => 1 + Depth(d)
    case _ => 0
  }

  function DepthSeq(ss: seq<Stmt>): nat
    decreases ss, 0
  {
    if ss == [] then 0 else MaxOf(Depth(ss[0]), DepthSeq(ss[1..]))
  }

  /** The fragment: defer only as a direct child of a block, and nothing inside a deferred
      body leaves that body.  `loops` counts the loops around it that may be left. */
  predicate Wf(s: Stmt, loops: nat, top: bool)
    decreases s, 1
  {
    match s
    case ExprS(_) => true
    case Block(ss) => WfSeq(ss, loops, top)
    case If(_, t, f) => Wf(t, loops, top) && (f.Some? ==> Wf(f.value, loops, top))
    case While(_, body) => WfSeq(body, loops + 1, top)
    case DoWhile(body, _) => WfSeq(body, loops + 1, top)
    case For(_, _, _, body) => WfSeq(body, loops + 1, top)
    case NumFor(_, _, _, _, body) => WfSeq(body, loops + 1, top)
    case Break(n) => top || 1 <= n <= loops
    case Continue(n) => top || 1 <= n <= loops
    case Return(_) => top
    case Defer(_) => false
  }

  predicate WfSeq(ss: seq<Stmt>, loops: nat, top: bool)
    decreases ss, 0
  {
    ss != [] ==>
      && (if ss[0].Defer? then (assert ss[0] decreases to ss[0].d; Wf(ss[0].d, 0, false)) else Wf(ss[0], loops, top))
      && WfSeq(ss[1..], loops, top)
  }

  /** The environment's own side of the fragment, at nesting level `lev`. */
  predicate WfEnv(lev: nat, env: Env) {
    && (forall k | 0 <= k < |env.defers| :: Depth(env.defers[k]) < lev && Wf(env.defers[k], 0, false))
    && (forall k | 0 <= k < |env.loops| :: env.loops[k] <= |env.defers|)
  }

  /** Resolves the placeholders of one loop once their target is known. */
  function Patch(code: seq<Instr>, depth: int, iscont: bool, target: int): (r: seq<Instr>)
    ensures |r| == |code|
  {
    seq(|code|, i requires 0 <= i < |code| =>
      if code[i] == Pend(depth, iscont) then Jump(target - i - 1) else code[i])
  }

  predicate InJumpRange(off: int) { -32767 <= off <= 32767 }

  /** compile_breaks reports an error if a patched jump is too long. */
  predicate PatchInRange(code: seq<Instr>, depth: int, iscont: bool, target: int) {
    forall i | 0 <= i < |code| && code[i] == Pend(depth, iscont) :: InJumpRange(target - i - 1)
  }

  /** The expressions of `for(init; ; incr)`, each compiled as a statement. */
  function CompEffect(vars: seq<FCVar>, st: CState, e: Expr): SCode {
    if e.Const? || e.Var? then SCode([], Unwind(st, st.regs))
    else
      var r := CompE(vars, st, e, false);
      SCode(r.code, Unwind(r.st, st.regs))
  }

  function CompEffects(vars: seq<FCVar>, st: CState, es: seq<Expr>): SCode
    decreases es
  {
    if es == [] then SCode([], Unwind(st, st.regs))
    else
      var r := CompEffect(vars, st, es[0]);
      var rest := CompEffects(vars, r.st, es[1..]);
      SCode(r.code + rest.code, rest.st)
  }

  /** The expression lists of a for loop; a while loop has none. */
  function CompInit(vars: seq<FCVar>, st: CState, es: Option<seq<Expr>>): SCode {
    if es.None? then SCode([], st) else CompEffects(vars, st, es.value)
  }

  function ListOf(es: Option<seq<Expr>>): seq<Expr> {
    if es.None? then [] else es.value
  }

  /** compile_node_rrw: evaluate into a given register. */
  function CompInto(vars: seq<FCVar>, st: CState, e: Expr, dst: int): SCode {
    var r := CompE(vars, st, e, true);
    SCode(r.code + CompWrite(dst, r.out), Unwind(r.st, st.regs))
  }

  /** A bound of a numeric loop that was left out. */
  function CompDefault(st: CState, v: int, dst: int): SCode {
    var r := CompConst(st, Int(v));
    SCode(r.code + [Set(dst, r.out)], r.st)
  }

  function CompBound(vars: seq<FCVar>, st: CState, e: Option<Expr>, v: int, dst: int): SCode {
    if e.Some? then CompInto(vars, st, e.value, dst) else CompDefault(st, v, dst)
  }

  /** The level that a break or continue may name. */
  predicate GoodLevel(n: int, loops: nat) {
    1 <= n <= 0xffff && n <= loops
  }

  /** compile_node.  `lev` bounds the nesting of deferred statements. */
  function CompS(lev: nat, env: Env, st: CState, s: Stmt): SCode
    requires WfEnv(lev, env) && Wf(s, |env.loops|, env.top) && Depth(s) <= lev
    decreases lev, 1, s, 1
  {
    match s
    case ExprS(e) => CompEffect(env.vars, st, e)
    case Block(ss) =>
      var r := CompSeq(lev, env, |env.defers|, st, ss);
      SCode(r.code, Unwind(r.st, st.regs))
    case If(c, t, f) =>
      var rc := CompE(env.vars, st, c, true);
      var rt := CompS(lev, env, Unwind(rc.st, st.regs), t);
      if f.None? then
        SCode(rc.code + ([CondJump(IfFalse, |rt.code|, rc.out)] + rt.code),
              Unwind(Check(rt.st, InJumpRange(|rt.code|)), st.regs))
      else
        var st2 := Check(rt.st, InJumpRange(|rt.code| + 1));
        var rf := CompS(lev, env, st2, f.value);
        SCode(rc.code + ([CondJump(IfFalse, |rt.code| + 1, rc.out)] + (rt.code + ([Jump(|rf.code|)] + rf.code))),
              Unwind(Check(rf.st, InJumpRange(|rf.code|)), st.regs))
    case While(c, body) => CompFor(lev, env, st, None, Some(c), None, body)
    case DoWhile(body, c) => CompDo(lev, env, st, body, c)
    case For(init, test, incr, body) => CompFor(lev, env, st, Some(init), test, Some(incr), body)
    case NumFor(x, start, last, stride, body) => CompNum(lev, env, st, x, start, last, stride, body)
    case Break(n) => CompExit(lev, env, st, n, false)
    case Continue(n) => CompExit(lev, env, st, n, true)
    case Return(e) =>
      if e.Some? then
        var r := CompE(env.vars, st, e.value, true);
        var rd := CompDefers(lev, env, |env.defers|, 0, r.st);
        SCode(r.code + (rd.code + [Ret1(r.out)]), Unwind(rd.st, st.regs))
      else
        var rd := CompDefers(lev, env, |env.defers|, 0, st);
        SCode(rd.code + [RetN(0)], Unwind(rd.st, st.regs))
  }

  /** A while or for loop: test, body, continues, increments, jump back, breaks. */
  function CompFor(lev: nat, env: Env, st: CState, init: Option<seq<Expr>>, test: Option<Expr>,
                   incr: Option<seq<Expr>>, body: seq<Stmt>): SCode
    requires WfEnv(lev, env) && WfSeq(body, |env.loops| + 1, env.top) && DepthSeq(body) <= lev
    decreases lev, 1, body, 1
  {
    var ri := CompInit(env.vars, st, init);
    var rc := if test.Some? then CompE(env.vars, ri.st, test.value, true) else ECode([], ri.st, 0);
    var rb := CompSeq(lev, EnterLoop(env), |env.defers|, Unwind(rc.st, st.regs), body);
    var ru := CompInit(env.vars, Unwind(rb.st, st.regs), incr);
    var d := |env.loops| + 1;
    var skip := if test.Some? then [CondJump(IfFalse, |rb.code| + |ru.code| + 1, rc.out)] else [];
    var back := -(|rc.code| + |skip| + |rb.code| + |ru.code|) - 1;
    var b1 := Patch(rb.code, d, true, |rb.code|);
    var b2 := Patch(b1, d, false, |rb.code| + |ru.code| + 1);
    SCode(ri.code + (rc.code + (skip + (b2 + (ru.code + [Jump(back)])))),
          Unwind(Check(ru.st, PatchInRange(rb.code, d, true, |rb.code|) && InJumpRange(back)
                              && PatchInRange(b1, d, false, |rb.code| + |ru.code| + 1)), st.regs))
  }

  function CompDo(lev: nat, env: Env, st: CState, body: seq<Stmt>, c: Expr): SCode
    requires WfEnv(lev, env) && WfSeq(body, |env.loops| + 1, env.top) && DepthSeq(body) <= lev
    decreases lev, 1, body, 1
  {
    var rb := CompSeq(lev, EnterLoop(env), |env.defers|, st, body);
    var rc := CompE(env.vars, Unwind(rb.st, st.regs), c, true);
    var d := |env.loops| + 1;
    var back := -(|rb.code| + |rc.code|) - 1;
    var b1 := Patch(rb.code, d, true, |rb.code|);
    var b2 := Patch(b1, d, false, |rb.code| + |rc.code| + 1);
    SCode(b2 + (rc.code + [CondJump(IfTrue, back, rc.out)]),
          Unwind(Check(rc.st, PatchInRange(rb.code, d, true, |rb.code|) && InJumpRange(back)
                              && PatchInRange(b1, d, false, |rb.code| + |rc.code| + 1)), st.regs))
  }

  /** A numeric loop: three hidden registers behind the variable's own. */
  function CompNum(lev: nat, env: Env, st: CState, x: Name, start: Option<Expr>, last: Expr, stride: Option<Expr>,
                   body: seq<Stmt>): SCode
    requires WfEnv(lev, env) && WfSeq(body, |env.loops| + 1, env.top) && DepthSeq(body) <= lev
    decreases lev, 1, body, 1
  {
    var reg := Find(env.vars, x);
    var r1 := CompBound(env.vars, st, start, 0, reg + 1);
    var r2 := CompInto(env.vars, r1.st, last, reg + 2);
    var r3 := CompBound(env.vars, r2.st, stride, 1, reg + 3);
    assert WfEnv(lev, EnterLoop(env));
    var rb := CompSeq(lev, EnterLoop(env), |env.defers|, r3.st, body);
    var d := |env.loops| + 1;
    var back := -|rb.code| - 1;
    var b1 := Patch(rb.code, d, true, |rb.code|);
    var b2 := Patch(b1, d, false, |rb.code| + 1);
    SCode(r1.code + (r2.code + (r3.code + ([NForPrep(|rb.code| + 1, reg)] + (b2 + [NForJump(back, reg)])))),
          Unwind(Check(Unwind(rb.st, st.regs), PatchInRange(rb.code, d, true, |rb.code|) && InJumpRange(back + 2)
                              && PatchInRange(b1, d, false, |rb.code| + 1)), st.regs))
  }

  /** A break or continue: the deferred statements being left, then a pending jump. */
  function CompExit(lev: nat, env: Env, st: CState, n: int, iscont: bool): SCode
    requires WfEnv(lev, env) && (env.top || 1 <= n <= |env.loops|)
    decreases lev, 0, 0, 1
  {
    if !GoodLevel(n, |env.loops|) then SCode([], Unwind(Fail(st), st.regs))
    else
      var rd := CompDefers(lev, env, |env.defers|, env.loops[|env.loops| - n], st);
      SCode(rd.code + [Pend(|env.loops| + 1 - n, iscont)], Unwind(rd.st, st.regs))
  }

  /** The statements of a block that began with `start` deferred statements, and the
      deferred statements themselves on the way out at its end. */
  function CompSeq(lev: nat, env: Env, start: nat, st: CState, ss: seq<Stmt>): SCode
    requires WfEnv(lev, env) && WfSeq(ss, |env.loops|, env.top) && DepthSeq(ss) <= lev && start <= |env.defers|
    decreases lev, 1, ss, 0
  {
    if ss == [] then CompDefers(lev, env, |env.defers|, start, st)
    else if ss[0].Defer? then
      if env.under + |env.defers| >= MAX_DEFERS then CompSeq(lev, env, start, Unwind(Fail(st), st.regs), ss[1..])
      else CompSeq(lev, env.(defers := env.defers + [ss[0].d]), start, Unwind(st, st.regs), ss[1..])
    else
      var r := CompS(lev, env, st, ss[0]);
      var rest := CompSeq(lev, env, start, Unwind(r.st, st.regs), ss[1..]);
      SCode(r.code + rest.code, rest.st)
  }

  /** compile_defers: the deferred statements `end..i`, latest first. */
  function CompDefers(lev: nat, env: Env, i: nat, end: nat, st: CState): SCode
    requires WfEnv(lev, env) && i <= |env.defers|
    decreases lev, 0, 0, 0, i
  {
    if i <= end then SCode([], st)
    else
      assert Depth(env.defers[i - 1]) < lev;
      var r := CompS(lev - 1, DeferEnv(env), st, env.defers[i - 1]);
      var rest := CompDefers(lev, env, i - 1, end, r.st);
      SCode(r.code + rest.code, rest.st)
  }
}
