/** Values, instructions, the 32-bit instruction words and the register machine:
    the part of the VM loop that the compiled control flow and operators use. */
module Bytecode {

  datatype Value = Null | Bool(b: bool) | Int(i: int)

  datatype Option<+T> = None | Some(value: T)

  datatype UnOp = Plus | Negate | BoolInv | Invert

  datatype BinOp =
    | Add | Sub | Mul | Div | Mod | BitAnd | BitOr | Xor | Lsh | Rsh
    | Seq | Sneq | Eq | Neq | Lt | Gte | Gt | Lte | RawCmp

  /** The pure unary and binary operators, whatever they compute. */
  datatype Ops = Ops(un: (UnOp, Value) -> Value, bin: (BinOp, Value, Value) -> Value)

  /** var_getbool on the modelled types. */
  predicate Truthy(v: Value) {
    match v
    case Null => false
    case Bool(b) => b
    case Int(i) => i != 0
  }

  /** var_getint on the modelled types. */
  function ToInt(v: Value): int {
    match v
    case Null => 0
    case Bool(b) => if b then 1 else 0
    case Int(i) => i
  }

  const TWO_63: int := 0x8000_0000_0000_0000
  const TWO_64: int := 0x1_0000_0000_0000_0000

  /** Two's complement wrap-around of a 64-bit integer. */
  function Wrap(i: int): (w: int)
    ensures -TWO_63 <= w < TWO_63
    ensures -TWO_63 <= i < TWO_63 ==> w == i
  {
    (i + TWO_63) % TWO_64 - TWO_63
  }

  /** vm_op_incdec: anything but a number becomes null. */
  function IncDec(inc: bool, v: Value): Value {
    if v.Int? then Int(Wrap(v.i + if inc then 1 else -1)) else Null
  }

  /** Should a numeric loop with these (current, end, step) go round again? */
  predicate NumGoesOn(cur: int, end: int, step: int) {
    if step >= 0 then end > cur else end < cur
  }

  /** The three conditional jumps: if true, if false, if null. */
  datatype Cond = IfTrue | IfFalse | IfNull

  predicate Holds(c: Cond, v: Value) {
    match c
    case IfTrue => Truthy(v)
    case IfFalse => !Truthy(v)
    case IfNull => v == Null
  }

  /** Decoded instructions.  `Placeholder` is opcode 63, written before a jump is known.
      `Pend` exists only in the specification of the compiler: a placeholder together
      with the loop (counted from 1, outermost first) its break or continue waits for. */
  datatype Instr =
    | Ret1(c: int)
    | RetN(a: int)
    | Jump(off: int)
    | CondJump(cond: Cond, off: int, c: int)
    | NForPrep(off: int, c: int)
    | NForJump(off: int, c: int)
    | LoadConst(e: int, c: int)
    | SetClsr(b: int, c: int)
    | Set(a: int, b: int)
    | UnI(un: UnOp, a: int, b: int)
    | IncDecI(inc: bool, a: int, b: int)
    | BinI(bin: BinOp, a: int, b: int, c: int)
    | Placeholder
    | Pend(depth: int, iscont: bool)

  /* ---- instruction words ---- */

  function UnCode(op: UnOp): int {
    match op case Plus => 27 case Negate => 29 case BoolInv => 30 case Invert => 31
  }

  function BinCode(op: BinOp): int {
    match op
    case Add => 34 case Sub => 35 case Mul => 36 case Div => 37 case Mod => 38
    case BitAnd => 39 case BitOr => 40 case Xor => 41 case Lsh => 42 case Rsh => 43
    case Seq => 44 case Sneq => 45 case Eq => 46 case Neq => 47
    case Lt => 48 case Gte => 49 case Gt => 50 case Lte => 51 case RawCmp => 52
  }

  /** SGS_INSTR_MAKE: masks are remainders, shifts are products. */
  function Make(op: int, a: int, b: int, c: int): int {
    op % 64 + (a % 256) * 64 + (b % 512) * 16384 + (c % 512) * 8388608
  }

  /** SGS_INSTR_MAKE_EX */
  function MakeEx(op: int, e: int, c: int): int {
    op % 64 + (e % 131072) * 64 + (c % 512) * 8388608
  }

  function Encode(i: Instr): int {
    match i
    case Ret1(c) => Make(3, 0, 0, c)
    case RetN(a) => Make(4, a, 0, 0)
    case Jump(off) => MakeEx(5, off, 0)
    case CondJump(IfTrue, off, c) => MakeEx(6, off, c)
    case CondJump(IfFalse, off, c) => MakeEx(7, off, c)
    case CondJump(IfNull, off, c) => MakeEx(8, off, c)
    case NForPrep(off, c) => MakeEx(13, off, c)
    case NForJump(off, c) => MakeEx(14, off, c)
    case LoadConst(e, c) => MakeEx(15, e, c)
    case SetClsr(b, c) => Make(26, 0, b, c)
    case Set(a, b) => Make(27, a, b, 0)
    case UnI(op, a, b) => Make(UnCode(op), a, b, 0)
    case IncDecI(inc, a, b) => Make(if inc then 32 else 33, a, b, 0)
    case BinI(op, a, b, c) => Make(BinCode(op), a, b, c)
    case Placeholder => Make(63, 0, 0, 0)
    case Pend(_, _) => Make(63, 0, 0, 0)
  }

  function GetOp(w: int): int { w % 64 }
  function GetA(w: int): int { (w / 64) % 256 }
  function GetB(w: int): int { (w / 16384) % 512 }
  function GetC(w: int): int { (w / 8388608) % 512 }
  function GetE(w: int): int { (w / 64) % 131072 }

  /** The conversion `(int16_t) argE` of the jump instructions. */
  function Int16(e: int): int {
    var l := e % 65536;
    if l >= 32768 then l - 65536 else l
  }

  function BinOf(code: int): BinOp
    requires 34 <= code <= 52
  {
    [Add, Sub, Mul, Div, Mod, BitAnd, BitOr, Xor, Lsh, Rsh,
     Seq, Sneq, Eq, Neq, Lt, Gte, Gt, Lte, RawCmp][code - 34]
  }

  /** What an instruction with these fields means. */
  function FromFields(op: int, a: int, b: int, c: int, e: int): Instr {
    if op == 3 then Ret1(c)
    else if op == 4 then RetN(a)
    else if op == 5 then Jump(Int16(e))
    else if op == 6 then CondJump(IfTrue, Int16(e), c)
    else if op == 7 then CondJump(IfFalse, Int16(e), c)
    else if op == 8 then CondJump(IfNull, Int16(e), c)
    else if op == 13 then NForPrep(Int16(e), c)
    else if op == 14 then NForJump(Int16(e), c)
    else if op == 15 then LoadConst(e, c)
    else if op == 26 then SetClsr(b, c)
    else if op == 27 then Set(a, b)
    else if op == 29 then UnI(Negate, a, b)
    else if op == 30 then UnI(BoolInv, a, b)
    else if op == 31 then UnI(Invert, a, b)
    else if op == 32 then IncDecI(true, a, b)
    else if op == 33 then IncDecI(false, a, b)
    else if 34 <= op <= 52 then BinI(BinOf(op), a, b, c)
    else Placeholder
  }

  function Decode(w: int): Instr {
    FromFields(GetOp(w), GetA(w), GetB(w), GetC(w), GetE(w))
  }

  /** Jump offset that fits the 16 bits the VM reads back. */
  predicate Off(off: int) { -32768 <= off <= 32767 }
  predicate Fld8(x: int) { 0 <= x < 256 }
  predicate Fld9(x: int) { 0 <= x < 512 }

  /** The instruction's fields fit the instruction word. */
  predicate Fits(i: Instr) {
    match i
    case Ret1(c) => Fld9(c)
    case RetN(a) => Fld8(a)
    case Jump(off) => Off(off)
    case CondJump(_, off, c) => Off(off) && Fld9(c)
    case NForPrep(off, c) => Off(off) && Fld9(c)
    case NForJump(off, c) => Off(off) && Fld9(c)
    case LoadConst(e, c) => 0 <= e < 131072 && Fld9(c)
    case SetClsr(b, c) => Fld9(b) && Fld9(c)
    case Set(a, b) => Fld8(a) && Fld9(b)
    case UnI(op, a, b) => op != Plus && Fld8(a) && Fld9(b)
    case IncDecI(_, a, b) => Fld8(a) && Fld9(b)
    case BinI(_, a, b, c) => Fld8(a) && Fld9(b) && Fld9(c)
    case Placeholder => true
    case Pend(_, _) => false
  }

  lemma MakeFields(op: int, a: int, b: int, c: int)
    requires 0 <= op < 64 && Fld8(a) && Fld9(b) && Fld9(c)
    ensures var w := Make(op, a, b, c);
            GetOp(w) == op && GetA(w) == a && GetB(w) == b && GetC(w) == c
  {
    var w := Make(op, a, b, c);
    assert GetOp(w) == op && w / 64 == a + b * 256 + c * 131072;
    MakeB(w, op + a * 64, b, c);
    assert w / 8388608 == c;
  }

  lemma MakeB(w: int, low: int, b: int, c: int)
    requires w == low + b * 16384 + c * 8388608 && 0 <= low < 16384 && Fld9(b) && Fld9(c)
    ensures GetB(w) == b
  {
    assert w / 16384 == b + c * 512;
  }

  lemma MakeExFields(op: int, e: int, c: int)
    requires 0 <= op < 64 && Fld9(c)
    ensures var w := MakeEx(op, e, c);
            GetOp(w) == op && GetE(w) == e % 131072 && GetC(w) == c
  {
    var w := MakeEx(op, e, c);
    assert w / 64 == e % 131072 + c * 131072;
    assert w / 8388608 == c;
  }

  lemma MakeDecodes(op: int, a: int, b: int, c: int)
    requires 0 <= op < 64 && Fld8(a) && Fld9(b) && Fld9(c)
    ensures Decode(Make(op, a, b, c)) == FromFields(op, a, b, c, GetE(Make(op, a, b, c)))
  {
    MakeFields(op, a, b, c);
  }

  lemma MakeExDecodes(op: int, e: int, c: int)
    requires 0 <= op < 64 && Fld9(c)
    ensures var w := MakeEx(op, e, c); Decode(w) == FromFields(op, GetA(w), GetB(w), c, e % 131072)
  {
    MakeExFields(op, e, c);
  }

  lemma Int16OfOffset(e: int)
    requires Off(e)
    ensures Int16(e % 131072) == e
  {
  }

  lemma UnDecodes(op: UnOp, a: int, b: int, e: int)
    requires op != Plus
    ensures FromFields(UnCode(op), a, b, 0, e) == UnI(op, a, b)
  {
  }

  lemma BinDecodes(op: BinOp, a: int, b: int, c: int, e: int)
    ensures FromFields(BinCode(op), a, b, c, e) == BinI(op, a, b, c)
  {
  }

  /** Writing an instruction into a word and reading it back, offsets of both signs
      included: a 17-bit field is written, its low 16 bits are read as signed. */
  lemma EncodeDecode(i: Instr)
    requires Fits(i)
    ensures Decode(Encode(i)) == i
  {
    hide Make, MakeEx, GetOp, GetA, GetB, GetC, GetE, Int16, Decode, UnCode, BinCode;
    match i
    case Ret1(c) => MakeDecodes(3, 0, 0, c);
    case RetN(a) => MakeDecodes(4, a, 0, 0);
    case Jump(off) => Int16OfOffset(off); MakeExDecodes(5, off, 0);
    case CondJump(cond, off, c) =>
      Int16OfOffset(off);
      MakeExDecodes(if cond.IfTrue? then 6 else if cond.IfFalse? then 7 else 8, off, c);
    case NForPrep(off, c) => Int16OfOffset(off); MakeExDecodes(13, off, c);
    case NForJump(off, c) => Int16OfOffset(off); MakeExDecodes(14, off, c);
    case LoadConst(e, c) => MakeExDecodes(15, e, c);
    case SetClsr(b, c) => MakeDecodes(26, 0, b, c);
    case Set(a, b) => MakeDecodes(27, a, b, 0);
    case UnI(op, a, b) => UnDecodes(op, a, b, GetE(Make(UnCode(op), a, b, 0))); MakeDecodes(UnCode(op), a, b, 0);
    case IncDecI(inc, a, b) => MakeDecodes(if inc then 32 else 33, a, b, 0);
    case BinI(op, a, b, c) =>
      BinDecodes(op, a, b, c, GetE(Make(BinCode(op), a, b, c)));
      MakeDecodes(BinCode(op), a, b, c);
    case Placeholder => MakeDecodes(63, 0, 0, 0);
  }

  function EncodeAll(code: seq<Instr>): seq<int> {
    seq(|code|, i requires 0 <= i < |code| => Encode(code[i]))
  }

  function DecodeAll(words: seq<int>): seq<Instr> {
    seq(|words|, i requires 0 <= i < |words| => Decode(words[i]))
  }

  lemma EncodeDecodeAll(code: seq<Instr>)
    requires forall i | 0 <= i < |code| :: Fits(code[i])
    ensures DecodeAll(EncodeAll(code)) == code
  {
    forall i | 0 <= i < |code| ensures DecodeAll(EncodeAll(code))[i] == code[i] {
      EncodeDecode(code[i]);
    }
  }

  /* ---- the register machine ---- */

  /** A function being run: operator meanings, constants, code. */
  datatype Prog = Prog(ops: Ops, consts: seq<Value>, code: seq<Instr>)

  /** `Running` before the instruction at `pc`; `Done` once a return has been executed. */
  datatype Config = Running(pc: int, regs: seq<Value>) | Done(results: seq<Value>, regs: seq<Value>) | Stuck

  /** RESVAR: bit 8 of an operand selects the constant table. */
  function Operand(P: Prog, regs: seq<Value>, x: int): Value {
    if x >= 256 then (if x - 256 < |P.consts| then P.consts[x - 256] else Null)
    else if 0 <= x < |regs| then regs[x] else Null
  }

  function Write(regs: seq<Value>, x: int, v: Value): (r: seq<Value>)
    ensures |r| == |regs|
  {
    if 0 <= x < |regs| then regs[x := v] else regs
  }

  function Reg(regs: seq<Value>, x: int): Value {
    if 0 <= x < |regs| then regs[x] else Null
  }

  function NForEnter(pc: int, regs: seq<Value>, off: int, c: int): Config {
    var cur, end, step := ToInt(Reg(regs, c + 1)), ToInt(Reg(regs, c + 2)), ToInt(Reg(regs, c + 3));
    var r := Write(Write(Write(regs, c + 1, Int(cur)), c + 2, Int(end)), c + 3, Int(step));
    Running(if NumGoesOn(cur, end, step) then pc + 1 else pc + 1 + off, Write(r, c, Int(cur)))
  }

  function NForNext(pc: int, regs: seq<Value>, off: int, c: int): Config {
    var cur := Wrap(ToInt(Reg(regs, c + 1)) + ToInt(Reg(regs, c + 3)));
    var goOn := NumGoesOn(cur, ToInt(Reg(regs, c + 2)), ToInt(Reg(regs, c + 3)));
    Running(if goOn then pc + 1 + off else pc + 1, Write(Write(regs, c + 1, Int(cur)), c, Int(cur)))
  }

  function Exec(P: Prog, i: Instr, pc: int, regs: seq<Value>): Config {
    match i
    case Ret1(c) => Done([Operand(P, regs, c)], regs)
    case RetN(a) => if a == 0 then Done([], regs) else Stuck
    case Jump(off) => Running(pc + 1 + off, regs)
    case CondJump(cond, off, c) => Running(if Holds(cond, Operand(P, regs, c)) then pc + 1 + off else pc + 1, regs)
    case NForPrep(off, c) => NForEnter(pc, regs, off, c)
    case NForJump(off, c) => NForNext(pc, regs, off, c)
    case LoadConst(e, c) => Running(pc + 1, Write(regs, c, if 0 <= e < |P.consts| then P.consts[e] else Null))
    case SetClsr(b, c) => Running(pc + 1, regs)
    case Set(a, b) => Running(pc + 1, Write(regs, a, Operand(P, regs, b)))
    case UnI(op, a, b) => Running(pc + 1, Write(regs, a, P.ops.un(op, Operand(P, regs, b))))
    case IncDecI(inc, a, b) => Running(pc + 1, Write(regs, a, IncDec(inc, Operand(P, regs, b))))
    case BinI(op, a, b, c) => Running(pc + 1, Write(regs, a, P.ops.bin(op, Operand(P, regs, b), Operand(P, regs, c))))
    case Placeholder => Stuck
    case Pend(_, _) => Stuck
  }

  function Step(P: Prog, s: Config): Config {
    if s.Running? && 0 <= s.pc < |P.code| then Exec(P, P.code[s.pc], s.pc, s.regs)
    else if s.Done? then s
    else Stuck
  }

  function Steps(P: Prog, s: Config, n: nat): Config
    decreases n
  {
    if n == 0 then s else Steps(P, Step(P, s), n - 1)
  }

  lemma {:induction false} StepsAdd(P: Prog, s: Config, m: nat, n: nat)
    ensures Steps(P, s, m + n) == Steps(P, Steps(P, s, m), n)
    decreases m
  {
    if m > 0 { StepsAdd(P, Step(P, s), m - 1, n); }
  }

  /** A finished run stays finished, with the same results. */
  lemma {:induction false} DoneForever(P: Prog, s: Config, n: nat)
    requires s.Done?
    ensures Steps(P, s, n) == s
  {
    if n > 0 { DoneForever(P, s, n - 1); }
  }
}
