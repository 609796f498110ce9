/** What values, tests, bumps, loop bounds and instruction words are, in terms that neither the
    source's meaning nor the VM is defined with. */
module ValueFacts {
  import opened Bytecode
  import opened Source
  import opened Compile
  import opened StmtProof
  import opened SourceFacts
  import opened LoopReuse

  const MAX_INT: int := 9223372036854775807
  const MIN_INT: int := -9223372036854775808

  /* ---- integers ---- */

  /** Arithmetic is modulo 2^64. */
  lemma WrapIs(i: int)
    ensures (Wrap(i) - i) % 18446744073709551616 == 0 && MIN_INT <= Wrap(i) <= MAX_INT
  {
    var q := (i + TWO_63) / TWO_64;
    assert Wrap(i) - i == -q * TWO_64;
  }

  /** What `++` (`up`) and `--` make of a value. */
  ghost predicate Bumped(up: bool, v: Value, w: Value) {
    match v
    case Int(i) =>
      if up then w == Int(if i == MAX_INT then MIN_INT else i + 1)
      else w == Int(if i == MIN_INT then MAX_INT else i - 1)
    case _ => w == Null
  }

  /** `++x`, `x++`, `--x` and `x--` as statements and as expressions. */
  lemma BumpRuns(m: LoopMode, ops: Ops, fuel: nat, up: bool, postfix: bool, x: Name, s: Store)
    requires x in s && (s[x].Int? ==> MIN_INT <= s[x].i <= MAX_INT)
    ensures var e := Bump(up, postfix, x);
            exists w ::
              && Bumped(up, s[x], w) && Run(m, ops, fuel, ExprS(e), s) == Normal(s[x := w])
              && Eval(ops, e, s).store == s[x := w] && Eval(ops, e, s).Value() == if postfix then s[x] else w
  {
    var w := Eval(ops, Bump(up, postfix, x), s).store[x];
    assert Bumped(up, s[x], w);
  }

  /** The instructions do the same to registers. */
  lemma BumpStep(P: Prog, up: bool, a: nat, b: nat, pc: nat, regs: seq<Value>)
    requires pc < |P.code| && P.code[pc] == IncDecI(up, a, b) && a < |regs| && b < |regs| <= 256
    requires regs[b].Int? ==> MIN_INT <= regs[b].i <= MAX_INT
    ensures exists w :: Bumped(up, regs[b], w) && Step(P, Running(pc, regs)) == Running(pc + 1, regs[a := w])
  {
    var w := IncDec(up, regs[b]);
    assert Bumped(up, regs[b], w) && Step(P, Running(pc, regs)) == Running(pc + 1, regs[a := w]);
  }

  /** A list of `++x` and `--x`. */
  function Bumps(ups: seq<bool>, x: Name): seq<Stmt> {
    if ups == [] then [] else [ExprS(Bump(ups[0], false, x))] + Bumps(ups[1..], x)
  }

  function Net(ups: seq<bool>): int {
    if ups == [] then 0 else (if ups[0] then 1 else -1) + Net(ups[1..])
  }

  /** However many of them in whatever order: ups less downs, modulo 2^64. */
  lemma {:induction false} BumpsAdd(m: LoopMode, ops: Ops, fuel: nat, ups: seq<bool>, x: Name, s: Store, i: int)
    returns (j: int)
    requires x in s && s[x] == Int(i) && MIN_INT <= i <= MAX_INT
    ensures MIN_INT <= j <= MAX_INT && (j - i - Net(ups)) % 18446744073709551616 == 0
    ensures RunSeq(m, ops, fuel, Bumps(ups, x), s) == Normal(s[x := Int(j)])
    decreases |ups|
  {
    hide Run;
    j := i;
    if ups == [] {
      assert s[x := Int(i)] == s;
    } else {
      BumpRuns(m, ops, fuel, ups[0], false, x, s);
      var w :| Bumped(ups[0], s[x], w) && Run(m, ops, fuel, ExprS(Bump(ups[0], false, x)), s) == Normal(s[x := w]);
      var k := w.i - i - if ups[0] then 1 else -1;
      var s1 := s[x := w];
      j := BumpsAdd(m, ops, fuel, ups[1..], x, s1, w.i);
      BumpsFirst(m, ops, fuel, ups, x, s, s1);
      assert s1[x := Int(j)] == s[x := Int(j)];
      SumMod(j - w.i - Net(ups[1..]), k);
    }
  }

  lemma BumpsFirst(m: LoopMode, ops: Ops, fuel: nat, ups: seq<bool>, x: Name, s: Store, s1: Store)
    requires ups != [] && Run(m, ops, fuel, ExprS(Bump(ups[0], false, x)), s) == Normal(s1)
    ensures RunSeq(m, ops, fuel, Bumps(ups, x), s) == RunSeq(m, ops, fuel, Bumps(ups[1..], x), s1)
  {
    hide Run;
    assert Bumps(ups, x)[1..] == Bumps(ups[1..], x);
  }

  lemma SumMod(a: int, b: int)
    requires a % 18446744073709551616 == 0 && b % 18446744073709551616 == 0
    ensures (a + b) % 18446744073709551616 == 0
  {
  }

  /* ---- tests ---- */

  /** The values that count as false. */
  const FALSES: set<Value> := {Null, Bool(false), Int(0)}

  /** Tests in statements. */
  lemma TestRuns(m: LoopMode, ops: Ops, fuel: nat, c: Expr, t: Stmt, f: Stmt, body: seq<Stmt>, s: Store)
    ensures var r := Eval(ops, c, s);
            var yes := r.Value() !in FALSES;
            && Run(m, ops, fuel, If(c, t, Some(f)), s) == Run(m, ops, fuel, if yes then t else f, r.store)
            && (!yes ==> Run(m, ops, fuel, If(c, t, None), s) == Normal(r.store)
                         && Run(m, ops, fuel, While(c, body), s) == Normal(r.store))
            && (yes ==> Run(m, ops, fuel, While(c, [Break(1)]), s) == Normal(r.store))
  {
    var r := Eval(ops, c, s);
    var b := [Break(1)];
    assert Run(m, ops, fuel, b[0], r.store) == Breaks(1, r.store);
    assert RunSeq(m, ops, fuel, b, r.store) == Breaks(1, r.store);
  }

  /** Is the left operand the result? */
  predicate Left(op: Logic, v: Value) {
    match op
    case And => v in FALSES
    case Or => v !in FALSES
    case Nullish => v != Null
  }

  /** Tests in expressions: the left operand is the result, or the right one is evaluated. */
  lemma TestEvals(ops: Ops, op: Logic, a: Expr, b: Expr, s: Store)
    ensures var ra, r := Eval(ops, a, s), Eval(ops, Lazy(op, a, b), s);
            var rb := Eval(ops, b, ra.store);
            if Left(op, ra.Value()) then r.store == ra.store && r.Value() == ra.Value()
            else r.store == rb.store && r.Value() == rb.Value()
  {
  }

  /** The assigning forms; a variable that nothing was assigned to is null. */
  lemma TestAssigns(ops: Ops, op: Logic, x: Name, b: Expr, s: Store)
    ensures var rb := Eval(ops, b, s);
            Eval(ops, LazyAssign(op, x, b), s).store
            == if Left(op, if x in s then s[x] else Null) then s else rb.store[x := rb.Value()]
  {
  }

  /** The conditional jumps. */
  lemma TestStep(P: Prog, cond: Cond, off: int, c: nat, pc: nat, regs: seq<Value>)
    requires pc < |P.code| && P.code[pc] == CondJump(cond, off, c) && c < |regs| <= 256
    ensures var jumps := match cond
                         case IfTrue => regs[c] !in FALSES
                         case IfFalse => regs[c] in FALSES
                         case IfNull => regs[c] == Null;
            Step(P, Running(pc, regs)) == Running(if jumps then pc + 1 + off else pc + 1, regs)
  {
  }

  /** Bit 8 of an operand selects a constant, otherwise it is a register. */
  lemma SetStep(P: Prog, a: nat, b: nat, pc: nat, regs: seq<Value>)
    requires pc < |P.code| && P.code[pc] == Set(a, b) && a < |regs| <= 256
    requires if b < 256 then b < |regs| else b - 256 < |P.consts|
    ensures Step(P, Running(pc, regs)) == Running(pc + 1, regs[a := if b < 256 then regs[b] else P.consts[b - 256]])
  {
  }

  /* ---- numeric loops ---- */

  /** Values as loop bounds. */
  predicate AsInt(v: Value, k: int) {
    v == Int(k) || (v == Bool(true) && k == 1) || (v in {Bool(false), Null} && k == 0)
  }

  /** Constant bounds of any type are those integers. */
  lemma BoundsAre(ops: Ops, fuel: nat, x: Name, a: Value, b: Value, d: Value, i: int, j: int, k: int, body: seq<Stmt>,
                  s: Store)
    requires AsInt(a, i) && AsInt(b, j) && AsInt(d, k)
    ensures Run(Own, ops, fuel, NumFor(x, Some(Const(a)), Const(b), Some(Const(d)), body), s)
            == Run(Own, ops, fuel, NumFor(x, Some(Const(Int(i))), Const(Int(j)), Some(Const(Int(k))), body), s)
  {
    hide ToInt, AsInt;
    ConstBounds(ops, fuel, x, a, b, d, body, s);
    ConstBounds(ops, fuel, x, Int(i), Int(j), Int(k), body, s);
    SameInt(a, i);
    SameInt(b, j);
    SameInt(d, k);
  }

  lemma SameInt(v: Value, k: int)
    requires AsInt(v, k)
    ensures ToInt(v) == k == ToInt(Int(k))
  {
  }

  lemma ConstBounds(ops: Ops, fuel: nat, x: Name, a: Value, b: Value, d: Value, body: seq<Stmt>, s: Store)
    ensures var cur, end, step := ToInt(a), ToInt(b), ToInt(d);
            Run(Own, ops, fuel, NumFor(x, Some(Const(a)), Const(b), Some(Const(d)), body), s)
            == if NumGoesOn(cur, end, step) then RunNum(Own, ops, fuel, x, cur, end, step, body, s)
               else Normal(s[x := Int(cur)])
  {
    hide RunNum, RunSeq, NumGoesOn, ToInt;
  }

  /** How often a loop goes round: number `k` is reached exactly if it lies before the end. */
  lemma TripsCount(start: int, end: int, step: int, k: nat)
    requires step != 0
    ensures step > 0 ==> (k < Trips(start, end, step) <==> start + k * step < end)
    ensures step < 0 ==> (k < Trips(start, end, step) <==> start + k * step > end)
    decreases k
  {
    hide Trips;
    if NumGoesOn(start, end, step) {
      TripsNext(start, end, step);
      if k > 0 {
        TripsCount(start + step, end, step, k - 1);
        assert start + step + (k - 1) * step == start + k * step;
      }
    } else {
      TripsNone(start, end, step);
      if step > 0 { assert k * step >= 0; } else { assert k * step <= 0; }
    }
  }

  /** With step 0 and the end above the start a loop that nothing leaves goes round for ever;
      otherwise it makes no round. */
  lemma {:induction false} ZeroStep(vars: seq<FCVar>, ops: Ops, fuel: nat, x: Name, start: int, end: int,
                                    body: seq<Stmt>, s: Store)
    requires ScopedSeq(vars, body) && CalmSeq(body) && MIN_INT <= start <= MAX_INT
    ensures var out := Run(Own, ops, fuel, Const3(x, start, end, 0, body), s);
            if end > start then out.Timeout? else out == Normal(s[x := Int(start)])
  {
    hide RunNum;
    if end > start { ZeroStepFrom(vars, ops, fuel, x, start, end, body, s); }
  }

  lemma {:induction false} ZeroStepFrom(vars: seq<FCVar>, ops: Ops, fuel: nat, x: Name, start: int, end: int,
                                        body: seq<Stmt>, s: Store)
    requires ScopedSeq(vars, body) && CalmSeq(body) && MIN_INT <= start <= MAX_INT && end > start
    ensures RunNum(Own, ops, fuel, x, start, end, 0, body, s).Timeout?
    decreases fuel
  {
    hide RunSeq, Over;
    SeqOver(Own, vars, ops, fuel, body, s[x := Int(start)], x);
    var out := RunSeq(Own, ops, fuel, body, s[x := Int(start)]);
    assert Wrap(start + 0) == start;
    if out.Normal? && fuel > 0 { ZeroStepFrom(vars, ops, fuel - 1, x, start, end, body, out.store); }
  }

  /** The preparing and the repeating jump. */
  lemma LoopSteps(P: Prog, off: int, c: nat, pc: nat, regs: seq<Value>, i: int, j: int, k: int)
    requires pc < |P.code| && c + 3 < |regs| <= 256
    requires AsInt(regs[c + 1], i) && AsInt(regs[c + 2], j) && AsInt(regs[c + 3], k)
    ensures P.code[pc] == NForPrep(off, c) ==>
              var goes := if k >= 0 then i < j else i > j;
              Step(P, Running(pc, regs)) == Running(if goes then pc + 1 else pc + 1 + off,
                regs[c + 1 := Int(i)][c + 2 := Int(j)][c + 3 := Int(k)][c := Int(i)])
    ensures P.code[pc] == NForJump(off, c) && MIN_INT <= i + k <= MAX_INT ==>
              var goes := if k >= 0 then i + k < j else i + k > j;
              Step(P, Running(pc, regs)) == Running(if goes then pc + 1 + off else pc + 1,
                regs[c + 1 := Int(i + k)][c := Int(i + k)])
  {
  }

  /* ---- instruction words ---- */

  /** The operation codes, in their order. */
  const OPCODES: seq<string> := LOW + CONTROL + VARIABLES + OPERATORS

  const LOW: seq<string> := ["NOP", "PUSH", "INT", "RET1", "RETN", "JUMP", "JMPT", "JMPF", "JMPN"]
  const CONTROL: seq<string> := ["CALL", "FORPREP", "FORLOAD", "FORJUMP", "NFORPREP", "NFORJUMP"]
  const VARIABLES: seq<string> :=
    ["LOADCONST", "GETVAR", "SETVAR", "GETPROP", "SETPROP", "GETINDEX", "SETINDEX", "ARRPUSH", "CLSRINFO", "MAKECLSR",
     "GETCLSR", "SETCLSR"]
  const OPERATORS: seq<string> :=
    ["SET", "MCONCAT", "NEGATE", "BOOL_INV", "INVERT", "INC", "DEC", "ADD", "SUB", "MUL", "DIV", "MOD", "AND", "OR",
     "XOR", "LSH", "RSH", "SEQ", "SNEQ", "EQ", "NEQ", "LT", "GTE", "GT", "LTE", "RAWCMP"]

  /** An instruction's name and its fields: A, B, C, or E in place of A and B. */
  datatype Fields = ABC(name: string, a: int, b: int, c: int) | EC(name: string, e: int, c: int)

  function UnName(op: UnOp): string {
    match op case Plus => "SET" case Negate => "NEGATE" case BoolInv => "BOOL_INV" case Invert => "INVERT"
  }

  function BinName(op: BinOp): string {
    match op
    case Add => "ADD" case Sub => "SUB" case Mul => "MUL" case Div => "DIV" case Mod => "MOD"
    case BitAnd => "AND" case BitOr => "OR" case Xor => "XOR" case Lsh => "LSH" case Rsh => "RSH"
    case Seq => "SEQ" case Sneq => "SNEQ" case Eq => "EQ" case Neq => "NEQ"
    case Lt => "LT" case Gte => "GTE" case Gt => "GT" case Lte => "LTE" case RawCmp => "RAWCMP"
  }

  function FieldsOf(i: Instr): Fields {
    match i
    case Ret1(c) => ABC("RET1", 0, 0, c)
    case RetN(a) => ABC("RETN", a, 0, 0)
    case Jump(off) => EC("JUMP", off, 0)
    case CondJump(IfTrue, off, c) => EC("JMPT", off, c)
    case CondJump(IfFalse, off, c) => EC("JMPF", off, c)
    case CondJump(IfNull, off, c) => EC("JMPN", off, c)
    case NForPrep(off, c) => EC("NFORPREP", off, c)
    case NForJump(off, c) => EC("NFORJUMP", off, c)
    case LoadConst(e, c) => EC("LOADCONST", e, c)
    case SetClsr(b, c) => ABC("SETCLSR", 0, b, c)
    case Set(a, b) => ABC("SET", a, b, 0)
    case UnI(op, a, b) => ABC(UnName(op), a, b, 0)
    case IncDecI(inc, a, b) => ABC(if inc then "INC" else "DEC", a, b, 0)
    case BinI(op, a, b, c) => ABC(BinName(op), a, b, c)
    case _ => ABC("NOP", 0, 0, 0)
  }

  /** Words have 6 bits of operation code, then 8, 9 and 9 bits of A, B and C, or 17 bits of E
      (a distance modulo 2^17) and 9 of C. */
  predicate IsWord(w: int, f: Fields) {
    var code := w % 64;
    && code < |OPCODES| && OPCODES[code] == f.name
    && w == match f
            case ABC(_, a, b, c) => code + 0x40 * a + 0x4000 * b + 0x80_0000 * c
            case EC(_, e, c) => code + 0x40 * (if e < 0 then e + 0x2_0000 else e) + 0x80_0000 * c
  }

  lemma WordIs(i: Instr)
    requires Fits(i) && !i.Placeholder?
    ensures IsWord(Encode(i), FieldsOf(i))
  {
    hide Make, MakeEx, UnCode, BinCode, UnName, BinName, IsWord, OPCODES;
    Codes();
    match i
    case Ret1(c) => MakeIs(3, "RET1", 0, 0, c);
    case RetN(a) => MakeIs(4, "RETN", a, 0, 0);
    case Jump(off) => MakeExIs(5, "JUMP", off, 0);
    case CondJump(IfTrue, off, c) => MakeExIs(6, "JMPT", off, c);
    case CondJump(IfFalse, off, c) => MakeExIs(7, "JMPF", off, c);
    case CondJump(IfNull, off, c) => MakeExIs(8, "JMPN", off, c);
    case NForPrep(off, c) => MakeExIs(13, "NFORPREP", off, c);
    case NForJump(off, c) => MakeExIs(14, "NFORJUMP", off, c);
    case LoadConst(e, c) => MakeExIs(15, "LOADCONST", e, c);
    case SetClsr(b, c) => MakeIs(26, "SETCLSR", 0, b, c);
    case Set(a, b) => MakeIs(27, "SET", a, b, 0);
    case UnI(op, a, b) =>
      UnIs(op);
      MakeIs(UnCode(op), UnName(op), a, b, 0);
    case IncDecI(inc, a, b) =>
      if inc { MakeIs(32, "INC", a, b, 0); } else { MakeIs(33, "DEC", a, b, 0); }
    case BinI(op, a, b, c) =>
      BinIs(op);
      MakeIs(BinCode(op), BinName(op), a, b, c);
  }

  lemma Codes()
    ensures |OPCODES| == 53 && OPCODES[3] == "RET1" && OPCODES[4] == "RETN" && OPCODES[5] == "JUMP"
    ensures OPCODES[6] == "JMPT" && OPCODES[7] == "JMPF" && OPCODES[8] == "JMPN" && OPCODES[13] == "NFORPREP"
    ensures OPCODES[14] == "NFORJUMP" && OPCODES[15] == "LOADCONST" && OPCODES[26] == "SETCLSR"
    ensures OPCODES[27] == "SET" && OPCODES[32] == "INC" && OPCODES[33] == "DEC"
  {
  }

  lemma MakeIs(op: int, name: string, a: int, b: int, c: int)
    requires 0 <= op < |OPCODES| && OPCODES[op] == name && Fld8(a) && Fld9(b) && Fld9(c)
    ensures IsWord(Make(op, a, b, c), ABC(name, a, b, c))
  {
    Codes();
    MakeSum(op, a, b, c);
  }

  lemma MakeSum(op: int, a: int, b: int, c: int)
    requires 0 <= op < 64 && Fld8(a) && Fld9(b) && Fld9(c)
    ensures Make(op, a, b, c) == op + 0x40 * a + 0x4000 * b + 0x80_0000 * c && Make(op, a, b, c) % 64 == op
  {
  }

  lemma MakeExIs(op: int, name: string, e: int, c: int)
    requires 0 <= op < |OPCODES| && OPCODES[op] == name && -0x2_0000 <= e < 0x2_0000 && Fld9(c)
    ensures IsWord(MakeEx(op, e, c), EC(name, e, c))
  {
    Codes();
    MakeExSum(op, e, c);
  }

  lemma MakeExSum(op: int, e: int, c: int)
    requires 0 <= op < 64 && -0x2_0000 <= e < 0x2_0000 && Fld9(c)
    ensures MakeEx(op, e, c) == op + 0x40 * (if e < 0 then e + 0x2_0000 else e) + 0x80_0000 * c
            && MakeEx(op, e, c) % 64 == op
  {
    var f := if e < 0 then e + 0x2_0000 else e;
    assert e % 131072 == f;
    assert op + f * 64 + c * 0x80_0000 == op + 64 * (f + c * 0x2_0000);
  }

  lemma UnIs(op: UnOp)
    ensures 0 <= UnCode(op) < |OPCODES| && OPCODES[UnCode(op)] == UnName(op)
  {
  }

  lemma BinIs(op: BinOp)
    ensures 0 <= BinCode(op) < |OPCODES| && OPCODES[BinCode(op)] == BinName(op)
  {
  }
}
