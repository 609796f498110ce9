/** Expression code computes the meaning of the expression: wherever it is placed in a
    function, it runs from its first instruction to just past its last one, updates
    exactly the variables that the evaluator updates, and leaves the result in the
    register or constant that the generator returned. */
module ExprProof {
  import opened Bytecode
  import opened Source
  import opened Compile
  import opened CompileFacts

  /* ---- code in its place ---- */

  /** Where the breaks and continues of a loop go. */
  datatype Target = Target(brk: int, cont: int)

  /** `j` is what instruction `i` has become at position `pos`. */
  predicate Resolves(j: Instr, i: Instr, pos: int, T: seq<Target>) {
    if i.Pend? then
      && 1 <= i.depth <= |T|
      && j == Jump((if i.iscont then T[i.depth - 1].cont else T[i.depth - 1].brk) - pos - 1)
    else j == i
  }

  /** The code `c` stands at position `p`, its pending jumps resolved by `T`. */
  predicate Placed(code: seq<Instr>, p: int, c: seq<Instr>, T: seq<Target>) {
    0 <= p && p + |c| <= |code| && forall i | 0 <= i < |c| :: Resolves(code[p + i], c[i], p + i, T)
  }

  lemma PlacedSplit(code: seq<Instr>, p: int, a: seq<Instr>, b: seq<Instr>, T: seq<Target>)
    requires Placed(code, p, a + b, T)
    ensures Placed(code, p, a, T) && Placed(code, p + |a|, b, T)
  {
    hide Resolves;
    forall i | 0 <= i < |a| ensures Resolves(code[p + i], a[i], p + i, T) {
      assert (a + b)[i] == a[i];
    }
    forall i | 0 <= i < |b| ensures Resolves(code[p + |a| + i], b[i], p + |a| + i, T) {
      assert (a + b)[|a| + i] == b[i];
    }
  }

  lemma PlacedHead(code: seq<Instr>, p: int, i: Instr, b: seq<Instr>, T: seq<Target>)
    requires Placed(code, p, [i] + b, T)
    ensures 0 <= p < |code| && Resolves(code[p], i, p, T) && Placed(code, p + 1, b, T)
  {
    PlacedSplit(code, p, [i], b, T);
    assert [i][0] == i;
  }

  lemma PlacedOne(code: seq<Instr>, p: int, i: Instr, T: seq<Target>)
    requires Placed(code, p, [i], T)
    ensures 0 <= p < |code| && Resolves(code[p], i, p, T)
  {
    assert [i][0] == i;
  }

  /* ---- runs ---- */

  predicate Runs(P: Prog, a: Config, n: nat, b: Config) {
    Steps(P, a, n) == b
  }

  lemma RunsZero(P: Prog, a: Config)
    ensures Runs(P, a, 0, a)
  {
  }

  lemma RunsThen(P: Prog, a: Config, m: nat, b: Config, n: nat, c: Config)
    requires Runs(P, a, m, b) && Runs(P, b, n, c)
    ensures Runs(P, a, m + n, c)
  {
    StepsAdd(P, a, m, n);
  }

  /** One more instruction. */
  lemma RunsStep(P: Prog, a: Config, n: nat, pc: int, regs: seq<Value>)
    requires Runs(P, a, n, Running(pc, regs)) && 0 <= pc < |P.code|
    ensures Runs(P, a, n + 1, Exec(P, P.code[pc], pc, regs))
  {
    var b := Running(pc, regs);
    assert Steps(P, b, 1) == Steps(P, Step(P, b), 0);
    StepsAdd(P, a, n, 1);
  }

  /* ---- registers and stores ---- */

  /** expand_varlist has put three hidden registers behind every numeric loop variable. */
  ghost predicate VarsOk(vars: seq<FCVar>) {
    forall x | !IsHidden(x) && Find(vars, x) >= 0 && vars[Find(vars, x)].numfor :: HasHidden(vars, Find(vars, x))
  }

  predicate HasHidden(vars: seq<FCVar>, r: int) {
    0 <= r && r + 3 < |vars| && IsHidden(vars[r + 1].name) && IsHidden(vars[r + 2].name) && IsHidden(vars[r + 3].name)
  }

  predicate ScopedNum(vars: seq<FCVar>, x: Name) {
    !IsHidden(x) && Find(vars, x) >= 0 && vars[Find(vars, x)].numfor
  }

  /** Every variable's register holds the variable's value. */
  ghost predicate Rel(vars: seq<FCVar>, s: Store, regs: seq<Value>) {
    |vars| <= |regs| && forall x | !IsHidden(x) && Find(vars, x) >= 0 :: Get(s, x) == regs[Find(vars, x)]
  }

  /** The hidden registers of every numeric loop variable hold what the store says. */
  ghost predicate Tracks(vars: seq<FCVar>, s: Store, regs: seq<Value>)
    requires |vars| <= |regs|
  {
    forall x | ScopedNum(vars, x) && HasHidden(vars, Find(vars, x)) :: TracksAt(s, regs, x, Find(vars, x))
  }

  predicate TracksAt(s: Store, regs: seq<Value>, x: Name, r: int)
    requires 0 <= r && r + 3 < |regs|
  {
    Get(s, Hid(x, 1)) == regs[r + 1] && Get(s, Hid(x, 2)) == regs[r + 2] && Get(s, Hid(x, 3)) == regs[r + 3]
  }

  ghost predicate Held(vars: seq<FCVar>, s: Store, regs: seq<Value>) {
    Rel(vars, s, regs) && Tracks(vars, s, regs)
  }

  /** The names of hidden registers are different, and no variable's. */
  lemma HidApart(x: Name, k: int, y: Name, j: int)
    requires 1 <= k <= 3 && 1 <= j <= 3
    ensures IsHidden(Hid(x, k)) && (Hid(x, k) == Hid(y, j) <==> x == y && k == j)
  {
    var a, b := Hid(x, k), Hid(y, j);
    if a == b {
      assert a[9] == (if k == 1 then 'i' else if k == 2 then 'e' else 's');
      assert b[9] == (if j == 1 then 'i' else if j == 2 then 'e' else 's');
      var n := |a| - |x|;
      assert a[n..] == x && b[n..] == y;
    }
  }

  /** Register `i` is a hidden register of one of the loop variables `xs`. */
  predicate Owned(vars: seq<FCVar>, i: int, xs: set<Name>) {
    exists x | x in xs :: Find(vars, x) < i <= Find(vars, x) + 3
  }

  /** Registers that only a numeric loop over one of `xs` may write, and temporaries. */
  predicate Kept(vars: seq<FCVar>, i: int, xs: set<Name>) {
    i >= |vars| || (0 <= i && IsHidden(vars[i].name) && !Owned(vars, i, xs))
  }

  /** Below the watermark `w`, nothing but variables has changed. */
  ghost predicate Keep(vars: seq<FCVar>, w: int, xs: set<Name>, regs: seq<Value>, regs': seq<Value>) {
    |regs| == |regs'| && forall i | 0 <= i < w && i < |regs| && Kept(vars, i, xs) :: regs'[i] == regs[i]
  }

  /** Operand `x` yields the value of `pl`: a variable's own register, or a constant or a
      temporary in `lo..hi`. */
  predicate Yields(P: Prog, vars: seq<FCVar>, regs: seq<Value>, x: int, pl: Place, lo: int, hi: int) {
    match pl
    case InVar(y) => !IsHidden(y) && x == Find(vars, y) >= 0
    case Temp(v) =>
      || (256 <= x < 256 + |P.consts| && P.consts[x - 256] == v)
      || (0 <= lo <= x < hi && x < |regs| && regs[x] == v)
  }

  predicate ScopedE(vars: seq<FCVar>, e: Expr) {
    match e
    case Const(_) => true
    case Var(x) => !IsHidden(x) && Find(vars, x) >= 0
    case Unary(_, a) => ScopedE(vars, a)
    case Binary(_, a, b) => ScopedE(vars, a) && ScopedE(vars, b)
    case Lazy(_, a, b) => ScopedE(vars, a) && ScopedE(vars, b)
    case Assign(x, a) => !IsHidden(x) && Find(vars, x) >= 0 && ScopedE(vars, a)
    case OpAssign(_, x, a) => !IsHidden(x) && Find(vars, x) >= 0 && ScopedE(vars, a)
    case LazyAssign(_, x, a) => !IsHidden(x) && Find(vars, x) >= 0 && ScopedE(vars, a)
    case Bump(_, _, x) => !IsHidden(x) && Find(vars, x) >= 0
  }

  /** The registers fit: all operands are numbered below 256 and inside the window. */
  predicate Room(P: Prog, vars: seq<FCVar>, lo: CState, hi: CState, regs: seq<Value>) {
    |vars| <= lo.regs && Peak(hi) <= |regs| <= 256 && hi.ok && Prefix(hi.consts, P.consts)
  }

  /** From `a`, `n` steps lead to `q` with registers `regs'` that hold the store `s`, and
      nothing below `w` but variables (and loop registers of `xs`) differs from `regs`. */
  ghost predicate Went(P: Prog, vars: seq<FCVar>, w: int, xs: set<Name>, a: Config, n: nat, q: int, s: Store,
                       regs: seq<Value>, regs': seq<Value>)
  {
    Runs(P, a, n, Running(q, regs')) && Held(vars, s, regs') && Keep(vars, w, xs, regs, regs')
  }

  lemma WentZero(P: Prog, vars: seq<FCVar>, w: int, xs: set<Name>, p: int, s: Store, regs: seq<Value>)
    requires Held(vars, s, regs)
    ensures Went(P, vars, w, xs, Running(p, regs), 0, p, s, regs, regs)
  {
    RunsZero(P, Running(p, regs));
  }

  lemma WentThen(P: Prog, vars: seq<FCVar>, w: int, xs: set<Name>, v: int, ys: set<Name>, a: Config, m: nat, q: int,
                 s: Store,
                 n: nat, q': int, s': Store, regs: seq<Value>, regs1: seq<Value>, regs2: seq<Value>)
    requires Went(P, vars, w, xs, a, m, q, s, regs, regs1)
    requires Went(P, vars, v, ys, Running(q, regs1), n, q', s', regs1, regs2)
    requires w <= v && ys <= xs
    ensures Went(P, vars, w, xs, a, m + n, q', s', regs, regs2)
  {
    RunsThen(P, a, m, Running(q, regs1), n, Running(q', regs2));
  }

  /** Less is known about fewer registers. */
  lemma WentWeaken(P: Prog, vars: seq<FCVar>, w: int, xs: set<Name>, v: int, ys: set<Name>, a: Config, n: nat, q: int,
                   s: Store,
                   regs: seq<Value>, regs': seq<Value>)
    requires Went(P, vars, w, xs, a, n, q, s, regs, regs') && v <= w && xs <= ys
    ensures Went(P, vars, v, ys, a, n, q, s, regs, regs')
  {
  }

  /** One more instruction: an unconditional jump. */
  lemma WentGoto(P: Prog, vars: seq<FCVar>, w: int, xs: set<Name>, a: Config, n: nat, q: int, s: Store,
                 regs: seq<Value>, regs': seq<Value>, off: int)
    requires Went(P, vars, w, xs, a, n, q, s, regs, regs') && 0 <= q < |P.code| && P.code[q] == Jump(off)
    ensures Went(P, vars, w, xs, a, n + 1, q + 1 + off, s, regs, regs')
  {
    RunsStep(P, a, n, q, regs');
  }

  /** One more instruction: a conditional jump on an operand whose value is `v`. */
  lemma WentCond(P: Prog, vars: seq<FCVar>, w: int, xs: set<Name>, a: Config, n: nat, q: int, s: Store,
                 regs: seq<Value>, regs': seq<Value>,
                 c: Cond, off: int, x: int, v: Value)
    requires Went(P, vars, w, xs, a, n, q, s, regs, regs') && 0 <= q < |P.code| && P.code[q] == CondJump(c, off, x)
    requires Operand(P, regs', x) == v
    ensures Went(P, vars, w, xs, a, n + 1, if Holds(c, v) then q + 1 + off else q + 1, s, regs, regs')
  {
    RunsStep(P, a, n, q, regs');
  }

  /** The register that an instruction of these kinds writes, -1 for the others, and the value. */
  function TargetOf(i: Instr): int {
    match i
    case LoadConst(_, c) => c
    case Set(a, _) => a
    case UnI(_, a, _) => a
    case IncDecI(_, a, _) => a
    case BinI(_, a, _, _) => a
    case _ => -1
  }

  function ResultOf(P: Prog, i: Instr, regs: seq<Value>): Value {
    match i
    case LoadConst(e, _) => if 0 <= e < |P.consts| then P.consts[e] else Null
    case Set(_, b) => Operand(P, regs, b)
    case UnI(op, _, b) => P.ops.un(op, Operand(P, regs, b))
    case IncDecI(inc, _, b) => IncDec(inc, Operand(P, regs, b))
    case BinI(op, _, b, c) => P.ops.bin(op, Operand(P, regs, b), Operand(P, regs, c))
    case _ => Null
  }

  /** One more instruction, one that writes a temporary. */
  lemma {:induction false} WentTemp(P: Prog, vars: seq<FCVar>, w: int, xs: set<Name>, a: Config, n: nat, q: int,
                          s: Store,
                 regs: seq<Value>, regs': seq<Value>,
                 i: Instr, t: int, v: Value)
    requires Went(P, vars, w, xs, a, n, q, s, regs, regs') && 0 <= q < |P.code| && P.code[q] == i
    requires |vars| <= w <= t < |regs'| && TargetOf(i) == t && ResultOf(P, i, regs') == v
    ensures Went(P, vars, w, xs, a, n + 1, q + 1, s, regs, Write(regs', t, v)) && Write(regs', t, v)[t] == v
  {
    hide Held, Runs;
    RunsStep(P, a, n, q, regs');
    HeldTemp(vars, s, regs', t, v);
  }

  lemma {:induction false} HeldTemp(vars: seq<FCVar>, s: Store, regs: seq<Value>, t: int, v: Value)
    requires Held(vars, s, regs) && |vars| <= t < |regs|
    ensures Held(vars, s, regs[t := v])
  {
    hide Find, IsHidden, Hid;
    forall y | ScopedNum(vars, y) && HasHidden(vars, Find(vars, y))
        ensures TracksAt(s, regs[t := v], y, Find(vars, y)) {
      assert TracksAt(s, regs, y, Find(vars, y));
    }
  }

  /** One more instruction, one that writes a variable. */
  lemma WentVar(P: Prog, vars: seq<FCVar>, w: int, xs: set<Name>, a: Config, n: nat, q: int, s: Store,
                regs: seq<Value>, regs': seq<Value>,
                i: Instr, x: Name, v: Value)
    requires Went(P, vars, w, xs, a, n, q, s, regs, regs') && 0 <= q < |P.code| && P.code[q] == i
    requires !IsHidden(x) && Find(vars, x) >= 0 && TargetOf(i) == Find(vars, x) && ResultOf(P, i, regs') == v
    ensures Went(P, vars, w, xs, a, n + 1, q + 1, s[x := v], regs, Write(regs', Find(vars, x), v))
  {
    RunsStep(P, a, n, q, regs');
    HeldVar(vars, s, regs', x, v);
  }

  lemma {:induction false} HeldVar(vars: seq<FCVar>, s: Store, regs: seq<Value>, x: Name, v: Value)
    requires Held(vars, s, regs) && !IsHidden(x) && Find(vars, x) >= 0
    ensures Held(vars, s[x := v], Write(regs, Find(vars, x), v))
  {
    hide Find, IsHidden, Hid, Tracks;
    forall y | !IsHidden(y) && Find(vars, y) >= 0
      ensures Get(s[x := v], y) == regs[Find(vars, x) := v][Find(vars, y)]
    {
      assert vars[Find(vars, y)].name == y;
    }
    TracksVar(vars, s, regs, x, v);
  }

  lemma {:induction false} TracksVar(vars: seq<FCVar>, s: Store, regs: seq<Value>, x: Name, v: Value)
    requires |vars| <= |regs| && Tracks(vars, s, regs) && !IsHidden(x) && Find(vars, x) >= 0
    ensures Tracks(vars, s[x := v], regs[Find(vars, x) := v])
  {
    hide Find, IsHidden, Hid;
    assert vars[Find(vars, x)].name == x;
    forall y | ScopedNum(vars, y) && HasHidden(vars, Find(vars, y))
      ensures TracksAt(s[x := v], regs[Find(vars, x) := v], y, Find(vars, y))
    {
      HidVisible(y, x);
      assert TracksAt(s, regs, y, Find(vars, y));
    }
  }

  lemma HidVisible(x: Name, y: Name)
    requires !IsHidden(y)
    ensures Hid(x, 1) != y && Hid(x, 2) != y && Hid(x, 3) != y
  {
  }

  /** Reading an operand where the run has got to. */
  lemma WentReads(P: Prog, vars: seq<FCVar>, w: int, xs: set<Name>, a: Config, n: nat, q: int, s: Store,
                  regs: seq<Value>, regs': seq<Value>,
                  x: int, pl: Place, lo: int, hi: int)
    requires Went(P, vars, w, xs, a, n, q, s, regs, regs') && Yields(P, vars, regs', x, pl, lo, hi) && |regs| <= 256
    ensures Operand(P, regs', x) == Read(s, pl)
  {
  }

  lemma WentLen(P: Prog, vars: seq<FCVar>, w: int, xs: set<Name>, a: Config, n: nat, q: int, s: Store,
                regs: seq<Value>, regs': seq<Value>)
    requires Went(P, vars, w, xs, a, n, q, s, regs, regs')
    ensures |regs'| == |regs| && Held(vars, s, regs')
  {
  }

  /** A result survives a run that leaves its temporary alone. */
  lemma YieldsLater(P: Prog, vars: seq<FCVar>, w: int, xs: set<Name>, a: Config, n: nat, q: int, s: Store,
                    regs: seq<Value>, regs': seq<Value>,
                    x: int, pl: Place, lo: int, hi: int)
    requires Went(P, vars, w, xs, a, n, q, s, regs, regs') && Yields(P, vars, regs, x, pl, lo, hi) && |vars| <= lo
             && hi <= w
    ensures Yields(P, vars, regs', x, pl, lo, hi)
  {
  }

  /** What running the code of an expression is to achieve. */
  ghost predicate ExprDone(P: Prog, vars: seq<FCVar>, v: Evaluated, r: ECode, wanted: bool, lo: int,
                           a: Config, n: nat, q: int, regs: seq<Value>, regs': seq<Value>)
  {
    && Went(P, vars, lo, {}, a, n, q, v.store, regs, regs')
    && |regs'| == |regs|
    && (wanted ==> Yields(P, vars, regs', r.out, v.place, lo, r.st.regs))
  }

  lemma RoomSplit(P: Prog, vars: seq<FCVar>, st: CState, mid: CState, hi: CState, regs: seq<Value>)
    requires Room(P, vars, st, hi, regs) && Grows(Alloc(st), mid) && Grows(mid, hi) && st.regs < mid.regs
    ensures Room(P, vars, Alloc(st), mid, regs) && Room(P, vars, mid, hi, regs)
    ensures |vars| <= st.regs < |regs| <= 256
  {
  }

  /* One unfolding of the evaluator for the composite expressions. */

  lemma BinaryMeans(ops: Ops, op: BinOp, a: Expr, b: Expr, s: Store)
    ensures var ea := Eval(ops, a, s);
            var eb := Eval(ops, b, ea.store);
            Eval(ops, Binary(op, a, b), s)
                == Evaluated(eb.store, Temp(ops.bin(op, Read(eb.store, ea.place), eb.Value())))
  {
  }

  lemma LazyMeans(ops: Ops, op: Logic, a: Expr, b: Expr, s: Store)
    ensures var ea := Eval(ops, a, s);
            var eb := Eval(ops, b, ea.store);
            var r := if Decides(op, ea.Value()) then ea else eb;
            Eval(ops, Lazy(op, a, b), s) == Evaluated(r.store, Temp(r.Value()))
  {
  }

  lemma OpAssignMeans(ops: Ops, op: BinOp, x: Name, a: Expr, s: Store)
    ensures var ev := Eval(ops, a, s);
            Eval(ops, OpAssign(op, x, a), s)
                == Evaluated(ev.store[x := ops.bin(op, Get(ev.store, x), ev.Value())], InVar(x))
  {
  }

  lemma LazyAssignMeans(ops: Ops, op: Logic, x: Name, a: Expr, s: Store)
    ensures var ev := Eval(ops, a, s);
            var s' := if Decides(op, Get(s, x)) then s else ev.store[x := ev.Value()];
            Eval(ops, LazyAssign(op, x, a), s) == Evaluated(s', InVar(x))
  {
  }

  lemma {:induction false} ExprRuns(P: Prog, T: seq<Target>, p: int, vars: seq<FCVar>, st: CState, e: Expr,
                                    wanted: bool,
                                    s: Store, regs: seq<Value>)
    returns (n: nat, regs': seq<Value>)
    requires ScopedE(vars, e) && Held(vars, s, regs)
    requires var r := CompE(vars, st, e, wanted); Placed(P.code, p, r.code, T) && Room(P, vars, st, r.st, regs)
    ensures var r := CompE(vars, st, e, wanted);
            ExprDone(P, vars, Eval(P.ops, e, s), r, wanted, st.regs, Running(p, regs), n, p + |r.code|, regs, regs')
    decreases e, 1
  {
    hide Steps, Placed, Runs, Held, Keep, Went, Exec, Write, CompE, Eval, Room;
    match e
    case Const(v) => n, regs' := ConstRuns(P, T, p, vars, st, v, wanted, s, regs);
    case Var(x) => n, regs' := VarRuns(P, T, p, vars, st, x, wanted, s, regs);
    case Unary(op, a) => n, regs' := UnaryRuns(P, T, p, vars, st, op, a, wanted, s, regs);
    case Binary(op, a, b) => n, regs' := BinaryRuns(P, T, p, vars, st, op, a, b, wanted, s, regs);
    case Lazy(op, a, b) => n, regs' := LazyRuns(P, T, p, vars, st, op, a, b, wanted, s, regs);
    case Assign(x, a) => n, regs' := AssignRuns(P, T, p, vars, st, x, a, wanted, s, regs);
    case OpAssign(op, x, a) => n, regs' := OpAssignRuns(P, T, p, vars, st, op, x, a, wanted, s, regs);
    case LazyAssign(op, x, a) => n, regs' := LazyAssignRuns(P, T, p, vars, st, op, x, a, wanted, s, regs);
    case Bump(inc, postfix, x) => n, regs' := BumpRuns(P, T, p, vars, st, inc, postfix, x, wanted, s, regs);
  }

  lemma VarRuns(P: Prog, T: seq<Target>, p: int, vars: seq<FCVar>, st: CState, x: Name, wanted: bool, s: Store,
                regs: seq<Value>)
    returns (n: nat, regs': seq<Value>)
    requires ScopedE(vars, Var(x)) && Held(vars, s, regs)
    ensures var r := CompE(vars, st, Var(x), wanted);
            ExprDone(P, vars, Eval(P.ops, Var(x), s), r, wanted, st.regs, Running(p, regs), n, p + |r.code|, regs,
                regs')
  {
    hide Steps, Runs, Held, Keep, Went;
    n, regs' := 0, regs;
    WentZero(P, vars, st.regs, {}, p, s, regs);
  }

  lemma ConstRuns(P: Prog, T: seq<Target>, p: int, vars: seq<FCVar>, st: CState, v: Value, wanted: bool, s: Store,
                  regs: seq<Value>)
    returns (n: nat, regs': seq<Value>)
    requires Held(vars, s, regs)
    requires var r := CompE(vars, st, Const(v), wanted); Placed(P.code, p, r.code, T) && Room(P, vars, st, r.st, regs)
    ensures var r := CompE(vars, st, Const(v), wanted);
            ExprDone(P, vars, Eval(P.ops, Const(v), s), r, wanted, st.regs, Running(p, regs), n, p + |r.code|, regs,
                regs')
  {
    hide Steps, Runs, Held, Keep, Went, Exec, Write;
    var r := CompConst(st, v);
    var cid := ConstIndex(st.consts, v);
    assert r.st.consts[cid] == v;
    WentZero(P, vars, st.regs, {}, p, s, regs);
    n, regs' := 0, regs;
    if 256 <= cid {
      PlacedOne(P.code, p, LoadConst(cid, st.regs), T);
      WentTemp(P, vars, st.regs, {}, Running(p, regs), 0, p, s, regs, regs, LoadConst(cid, st.regs), st.regs, v);
      n, regs' := 1, Write(regs, st.regs, v);
    }
  }

  lemma {:induction false} UnaryRuns(P: Prog, T: seq<Target>, p: int, vars: seq<FCVar>, st: CState, op: UnOp, a: Expr,
                                     wanted: bool, s: Store, regs: seq<Value>)
    returns (n: nat, regs': seq<Value>)
    requires ScopedE(vars, Unary(op, a)) && Held(vars, s, regs)
    requires var r := CompE(vars, st, Unary(op, a), wanted);
             Placed(P.code, p, r.code, T) && Room(P, vars, st, r.st, regs)
    ensures var r := CompE(vars, st, Unary(op, a), wanted);
            ExprDone(P, vars, Eval(P.ops, Unary(op, a), s), r, wanted, st.regs, Running(p, regs), n, p + |r.code|,
                regs, regs')
    decreases Unary(op, a), 0
  {
    hide Steps, Placed, Runs, Held, Keep, Went, Exec, Write, Grows;
    var t, at := st.regs, Running(p, regs);
    var r := CompE(vars, Alloc(st), a, true);
    var i := UnInstr(op, t, r.out);
    GrowsE(vars, Alloc(st), a, true);
    PlacedSplit(P.code, p, r.code, [i], T);
    var m, regs1 := ExprRuns(P, T, p, vars, Alloc(st), a, true, s, regs);
    var ev := Eval(P.ops, a, s);
    var q := p + |r.code|;
    PlacedOne(P.code, q, i, T);
    WentReads(P, vars, t + 1, {}, at, m, q, ev.store, regs, regs1, r.out, ev.place, t + 1, r.st.regs);
    var v := if op == Plus then ev.Value() else P.ops.un(op, ev.Value());
    WentWeaken(P, vars, t + 1, {}, t, {}, at, m, q, ev.store, regs, regs1);
    WentTemp(P, vars, t, {}, at, m, q, ev.store, regs, regs1, i, t, v);
    n, regs' := m + 1, Write(regs1, t, v);
  }

  lemma {:induction false} BinaryRuns(P: Prog, T: seq<Target>, p: int, vars: seq<FCVar>, st: CState, op: BinOp,
                                      a: Expr, b: Expr, wanted: bool, s: Store, regs: seq<Value>)
    returns (n: nat, regs': seq<Value>)
    requires ScopedE(vars, Binary(op, a, b)) && Held(vars, s, regs)
    requires var r := CompE(vars, st, Binary(op, a, b), wanted);
             Placed(P.code, p, r.code, T) && Room(P, vars, st, r.st, regs)
    ensures var r := CompE(vars, st, Binary(op, a, b), wanted);
            ExprDone(P, vars, Eval(P.ops, Binary(op, a, b), s), r, wanted, st.regs, Running(p, regs), n, p + |r.code|,
                regs, regs')
    decreases Binary(op, a, b), 0
  {
    hide Steps, Placed, Runs, Held, Keep, Went, Exec, Write, CompE, Eval, Room, Grows;
    var t, at := st.regs, Running(p, regs);
    var ra := CompE(vars, Alloc(st), a, true);
    var rb := CompE(vars, ra.st, b, true);
    var i := BinI(op, t, ra.out, rb.out);
    var ea := Eval(P.ops, a, s);
    var eb := Eval(P.ops, b, ea.store);
    var v := P.ops.bin(op, Read(eb.store, ea.place), eb.Value());
    BinaryCode(vars, st, op, a, b, wanted);
    BinaryMeans(P.ops, op, a, b, s);
    GrowsE(vars, Alloc(st), a, true);
    GrowsE(vars, ra.st, b, true);
    RoomSplit(P, vars, st, ra.st, rb.st, regs);
    var q, q2 := p + |ra.code|, p + |ra.code| + |rb.code|;
    PlacedSplit(P.code, p, ra.code, rb.code + [i], T);
    PlacedSplit(P.code, q, rb.code, [i], T);
    PlacedOne(P.code, q2, i, T);
    var m, regs1 := ExprRuns(P, T, p, vars, Alloc(st), a, true, s, regs);
    WentLen(P, vars, t + 1, {}, at, m, q, ea.store, regs, regs1);
    RoomSame(P, vars, ra.st, rb.st, regs, regs1);
    var k, regs2 := ExprRuns(P, T, q, vars, ra.st, b, true, ea.store, regs1);
    YieldsLater(P, vars, ra.st.regs, {}, Running(q, regs1), k, q2, eb.store, regs1, regs2, ra.out, ea.place, t + 1,
        ra.st.regs);
    WentThen(P, vars, t + 1, {}, ra.st.regs, {}, at, m, q, ea.store, k, q2, eb.store, regs, regs1, regs2);
    WentReads(P, vars, t + 1, {}, at, m + k, q2, eb.store, regs, regs2, ra.out, ea.place, t + 1, ra.st.regs);
    WentReads(P, vars, t + 1, {}, at, m + k, q2, eb.store, regs, regs2, rb.out, eb.place, ra.st.regs, rb.st.regs);
    WentWeaken(P, vars, t + 1, {}, t, {}, at, m + k, q2, eb.store, regs, regs2);
    WentTemp(P, vars, t, {}, at, m + k, q2, eb.store, regs, regs2, i, t, v);
    n, regs' := m + k + 1, Write(regs2, t, v);
  }

  lemma RoomSame(P: Prog, vars: seq<FCVar>, lo: CState, hi: CState, regs: seq<Value>, regs': seq<Value>)
    requires Room(P, vars, lo, hi, regs) && |regs'| == |regs|
    ensures Room(P, vars, lo, hi, regs')
  {
  }

  lemma {:induction false} LazyRuns(P: Prog, T: seq<Target>, p: int, vars: seq<FCVar>, st: CState, op: Logic, a: Expr,
                                    b: Expr, wanted: bool, s: Store, regs: seq<Value>)
    returns (n: nat, regs': seq<Value>)
    requires ScopedE(vars, Lazy(op, a, b)) && Held(vars, s, regs)
    requires var r := CompE(vars, st, Lazy(op, a, b), wanted);
             Placed(P.code, p, r.code, T) && Room(P, vars, st, r.st, regs)
    ensures var r := CompE(vars, st, Lazy(op, a, b), wanted);
            ExprDone(P, vars, Eval(P.ops, Lazy(op, a, b), s), r, wanted, st.regs, Running(p, regs), n, p + |r.code|,
                regs, regs')
    decreases Lazy(op, a, b), 0
  {
    hide Steps, Placed, Runs, Held, Keep, Went, Exec, Write, CompE, Eval, Room, Grows;
    var t, at := st.regs, Running(p, regs);
    var ra := CompE(vars, Alloc(st), a, true);
    var rb := CompE(vars, ra.st, b, true);
    var cj, set1, jmp, set2 := CondJump(LazyCond(op), 2, ra.out), Set(t, ra.out), Jump(|rb.code| + 1), Set(t, rb.out);
    var ea := Eval(P.ops, a, s);
    var eb := Eval(P.ops, b, ea.store);
    LazyCode(vars, st, op, a, b, wanted);
    LazyMeans(P.ops, op, a, b, s);
    GrowsE(vars, Alloc(st), a, true);
    GrowsE(vars, ra.st, b, true);
    RoomSplit(P, vars, st, ra.st, rb.st, regs);
    var q, q2 := p + |ra.code|, p + |ra.code| + 3 + |rb.code|;
    PlacedSplit(P.code, p, ra.code, [cj, set1, jmp] + (rb.code + [set2]), T);
    PlacedSplit(P.code, q, [cj, set1, jmp], rb.code + [set2], T);
    PlacedThree(P.code, q, cj, set1, jmp, T);
    PlacedSplit(P.code, q + 3, rb.code, [set2], T);
    PlacedOne(P.code, q2, set2, T);
    var m, regs1 := ExprRuns(P, T, p, vars, Alloc(st), a, true, s, regs);
    WentLen(P, vars, t + 1, {}, at, m, q, ea.store, regs, regs1);
    WentReads(P, vars, t + 1, {}, at, m, q, ea.store, regs, regs1, ra.out, ea.place, t + 1, ra.st.regs);
    WentWeaken(P, vars, t + 1, {}, t, {}, at, m, q, ea.store, regs, regs1);
    WentCond(P, vars, t, {}, at, m, q, ea.store, regs, regs1, LazyCond(op), 2, ra.out, ea.Value());
    if Decides(op, ea.Value()) {
      n, regs' := m + 3, Write(regs1, t, ea.Value());
      WentTemp(P, vars, t, {}, at, m + 1, q + 1, ea.store, regs, regs1, set1, t, ea.Value());
      WentGoto(P, vars, t, {}, at, m + 2, q + 2, ea.store, regs, regs', |rb.code| + 1);
    } else {
      RoomSame(P, vars, ra.st, rb.st, regs, regs1);
      var k, regs2 := ExprRuns(P, T, q + 3, vars, ra.st, b, true, ea.store, regs1);
      WentThen(P, vars, t, {}, ra.st.regs, {}, at, m + 1, q + 3, ea.store, k, q2, eb.store, regs, regs1, regs2);
      WentReads(P, vars, t, {}, at, m + 1 + k, q2, eb.store, regs, regs2, rb.out, eb.place, ra.st.regs, rb.st.regs);
      n, regs' := m + 1 + k + 1, Write(regs2, t, eb.Value());
      WentTemp(P, vars, t, {}, at, m + 1 + k, q2, eb.store, regs, regs2, set2, t, eb.Value());
    }
  }

  lemma PlacedThree(code: seq<Instr>, p: int, a: Instr, b: Instr, c: Instr, T: seq<Target>)
    requires Placed(code, p, [a, b, c], T) && !a.Pend? && !b.Pend? && !c.Pend?
    ensures 0 <= p && p + 2 < |code| && code[p] == a && code[p + 1] == b && code[p + 2] == c
  {
    var l := [a, b, c];
    assert l[0] == a && l[1] == b && l[2] == c;
  }

  lemma PlacedTwo(code: seq<Instr>, p: int, a: Instr, b: Instr, T: seq<Target>)
    requires Placed(code, p, [a, b], T) && !a.Pend? && !b.Pend?
    ensures 0 <= p && p + 1 < |code| && code[p] == a && code[p + 1] == b
  {
    var l := [a, b];
    assert l[0] == a && l[1] == b;
  }

  /** Writing an already computed operand to a variable: nothing if it is there already. */
  lemma StoreRuns(P: Prog, T: seq<Target>, vars: seq<FCVar>, at: Config, m: nat, q: int, x: Name, src: int,
                  s: Store, v: Value, w: int, regs: seq<Value>, regs1: seq<Value>)
    returns (n: nat, regs': seq<Value>)
    requires Went(P, vars, w, {}, at, m, q, s, regs, regs1)
    requires !IsHidden(x) && Find(vars, x) >= 0 && Operand(P, regs1, src) == v && |regs1| <= 256
    requires Placed(P.code, q, CompWrite(Find(vars, x), src), T)
    ensures Went(P, vars, w, {}, at, n, q + |CompWrite(Find(vars, x), src)|, s[x := v], regs, regs')
    ensures m <= n && |regs'| == |regs|
  {
    var reg := Find(vars, x);
    n, regs' := m, regs1;
    if reg != src {
      PlacedOne(P.code, q, Set(reg, src), T);
      WentVar(P, vars, w, {}, at, m, q, s, regs, regs1, Set(reg, src), x, v);
      n, regs' := m + 1, Write(regs1, reg, v);
    } else {
      HeldVar(vars, s, regs1, x, v);
      assert Write(regs1, reg, v) == regs1;
    }
  }

  lemma {:induction false} AssignRuns(P: Prog, T: seq<Target>, p: int, vars: seq<FCVar>, st: CState, x: Name, a: Expr,
                                      wanted: bool, s: Store, regs: seq<Value>)
    returns (n: nat, regs': seq<Value>)
    requires ScopedE(vars, Assign(x, a)) && Held(vars, s, regs)
    requires var r := CompE(vars, st, Assign(x, a), wanted);
             Placed(P.code, p, r.code, T) && Room(P, vars, st, r.st, regs)
    ensures var r := CompE(vars, st, Assign(x, a), wanted);
            ExprDone(P, vars, Eval(P.ops, Assign(x, a), s), r, wanted, st.regs, Running(p, regs), n, p + |r.code|,
                regs, regs')
    decreases Assign(x, a), 0
  {
    hide Steps, Placed, Runs, Held, Keep, Went, Exec, Write;
    var r := CompE(vars, st, a, true);
    GrowsE(vars, st, a, true);
    PlacedSplit(P.code, p, r.code, CompWrite(Find(vars, x), r.out), T);
    var m, regs1 := ExprRuns(P, T, p, vars, st, a, true, s, regs);
    var ev := Eval(P.ops, a, s);
    var q := p + |r.code|;
    WentReads(P, vars, st.regs, {}, Running(p, regs), m, q, ev.store, regs, regs1, r.out, ev.place, st.regs, r.st.regs);
    n, regs' := StoreRuns(P, T, vars, Running(p, regs), m, q, x, r.out, ev.store, ev.Value(), st.regs, regs, regs1);
  }

  lemma {:induction false} OpAssignRuns(P: Prog, T: seq<Target>, p: int, vars: seq<FCVar>, st: CState, op: BinOp,
                                        x: Name, a: Expr, wanted: bool, s: Store, regs: seq<Value>)
    returns (n: nat, regs': seq<Value>)
    requires ScopedE(vars, OpAssign(op, x, a)) && Held(vars, s, regs)
    requires var r := CompE(vars, st, OpAssign(op, x, a), wanted);
             Placed(P.code, p, r.code, T) && Room(P, vars, st, r.st, regs)
    ensures var r := CompE(vars, st, OpAssign(op, x, a), wanted);
            ExprDone(P, vars, Eval(P.ops, OpAssign(op, x, a), s), r, wanted, st.regs, Running(p, regs), n, p
                + |r.code|, regs, regs')
    decreases OpAssign(op, x, a), 0
  {
    hide Steps, Placed, Runs, Held, Keep, Went, Exec, Write, CompE, Eval;
    var t, reg, at := st.regs, Find(vars, x), Running(p, regs);
    var r := CompE(vars, Alloc(st), a, true);
    var i1, i2 := BinI(op, t, reg, r.out), Set(reg, t);
    var ev := Eval(P.ops, a, s);
    var v := P.ops.bin(op, Get(ev.store, x), ev.Value());
    OpAssignCode(vars, st, op, x, a, wanted);
    OpAssignMeans(P.ops, op, x, a, s);
    GrowsE(vars, Alloc(st), a, true);
    var q := p + |r.code|;
    PlacedSplit(P.code, p, r.code, [i1, i2], T);
    PlacedTwo(P.code, q, i1, i2, T);
    var m, regs1 := ExprRuns(P, T, p, vars, Alloc(st), a, true, s, regs);
    WentReads(P, vars, t + 1, {}, at, m, q, ev.store, regs, regs1, r.out, ev.place, t + 1, r.st.regs);
    WentReads(P, vars, t + 1, {}, at, m, q, ev.store, regs, regs1, reg, InVar(x), t + 1, r.st.regs);
    WentWeaken(P, vars, t + 1, {}, t, {}, at, m, q, ev.store, regs, regs1);
    var regs2 := Write(regs1, t, v);
    WentTemp(P, vars, t, {}, at, m, q, ev.store, regs, regs1, i1, t, v);
    WentVar(P, vars, t, {}, at, m + 1, q + 1, ev.store, regs, regs2, i2, x, v);
    n, regs' := m + 2, Write(regs2, reg, v);
  }

  lemma {:induction false} LazyAssignRuns(P: Prog, T: seq<Target>, p: int, vars: seq<FCVar>, st: CState, op: Logic,
            x: Name, a: Expr, wanted: bool, s: Store, regs: seq<Value>)
    returns (n: nat, regs': seq<Value>)
    requires ScopedE(vars, LazyAssign(op, x, a)) && Held(vars, s, regs)
    requires var r := CompE(vars, st, LazyAssign(op, x, a), wanted);
             Placed(P.code, p, r.code, T) && Room(P, vars, st, r.st, regs)
    ensures var r := CompE(vars, st, LazyAssign(op, x, a), wanted);
            ExprDone(P, vars, Eval(P.ops, LazyAssign(op, x, a), s), r, wanted, st.regs, Running(p, regs), n, p
                + |r.code|, regs, regs')
    decreases LazyAssign(op, x, a), 0
  {
    hide Steps, Placed, Runs, Held, Keep, Went, Exec, Write, CompE, Eval, CompWrite;
    var reg, st1, w, at := Find(vars, x), Unwind(st, st.regs), st.regs, Running(p, regs);
    var r := CompE(vars, st1, a, true);
    var wr := CompWrite(reg, r.out);
    var i1, i2 := CondJump(LazyCond(op), 1, reg), Jump(|r.code| + |wr|);
    var ev := Eval(P.ops, a, s);
    LazyAssignCode(vars, st, op, x, a, wanted);
    LazyAssignMeans(P.ops, op, x, a, s);
    GrowsE(vars, st1, a, true);
    PlacedSplit(P.code, p, [i1, i2], r.code + wr, T);
    PlacedTwo(P.code, p, i1, i2, T);
    PlacedSplit(P.code, p + 2, r.code, wr, T);
    WentZero(P, vars, w, {}, p, s, regs);
    WentReads(P, vars, w, {}, at, 0, p, s, regs, regs, reg, InVar(x), w, w);
    WentCond(P, vars, w, {}, at, 0, p, s, regs, regs, LazyCond(op), 1, reg, Get(s, x));
    if Decides(op, Get(s, x)) {
      WentGoto(P, vars, w, {}, at, 1, p + 1, s, regs, regs, |r.code| + |wr|);
      n, regs' := 2, regs;
    } else {
      var k, regs1 := ExprRuns(P, T, p + 2, vars, st1, a, true, s, regs);
      var q := p + 2 + |r.code|;
      WentThen(P, vars, w, {}, w, {}, at, 1, p + 2, s, k, q, ev.store, regs, regs, regs1);
      WentReads(P, vars, w, {}, at, 1 + k, q, ev.store, regs, regs1, r.out, ev.place, w, r.st.regs);
      n, regs' := StoreRuns(P, T, vars, at, 1 + k, q, x, r.out, ev.store, ev.Value(), w, regs, regs1);
    }
  }

  lemma BumpRuns(P: Prog, T: seq<Target>, p: int, vars: seq<FCVar>, st: CState, inc: bool, postfix: bool, x: Name,
                 wanted: bool, s: Store, regs: seq<Value>)
    returns (n: nat, regs': seq<Value>)
    requires ScopedE(vars, Bump(inc, postfix, x)) && Held(vars, s, regs)
    requires var r := CompE(vars, st, Bump(inc, postfix, x), wanted);
             Placed(P.code, p, r.code, T) && Room(P, vars, st, r.st, regs)
    ensures var r := CompE(vars, st, Bump(inc, postfix, x), wanted);
            ExprDone(P, vars, Eval(P.ops, Bump(inc, postfix, x), s), r, wanted, st.regs, Running(p, regs), n, p
                + |r.code|, regs, regs')
  {
    hide Steps, Placed, Runs, Held, Keep, Went, Exec;
    var reg, t, at := Find(vars, x), st.regs, Running(p, regs);
    var v := IncDec(inc, Get(s, x));
    var i := IncDecI(inc, reg, reg);
    WentZero(P, vars, t, {}, p, s, regs);
    WentReads(P, vars, t, {}, at, 0, p, s, regs, regs, reg, InVar(x), t, t);
    if wanted && postfix {
      PlacedTwo(P.code, p, Set(t, reg), i, T);
      WentTemp(P, vars, t, {}, at, 0, p, s, regs, regs, Set(t, reg), t, Get(s, x));
      var regs1 := Write(regs, t, Get(s, x));
      WentReads(P, vars, t, {}, at, 1, p + 1, s, regs, regs1, reg, InVar(x), t, t);
      WentVar(P, vars, t, {}, at, 1, p + 1, s, regs, regs1, i, x, v);
      n, regs' := 2, Write(regs1, reg, v);
    } else {
      PlacedOne(P.code, p, i, T);
      WentVar(P, vars, t, {}, at, 0, p, s, regs, regs, i, x, v);
      n, regs' := 1, Write(regs, reg, v);
    }
  }
}
