/** The script fragment and what it means, independently of any bytecode.

    An expression does not simply yield a value: a bare local, or an assignment to one,
    yields the variable itself, which is read later, when the enclosing operator fires
    (src/sgs_bcg.c:1229-1232, 1917-1918).  The evaluator therefore returns a place. */
module Source {
  import opened Bytecode

  type Name = string

  datatype Logic = And | Or | Nullish

  datatype Expr =
    | Const(v: Value)
    | Var(x: Name)
    | Unary(un: UnOp, e: Expr)
    | Binary(bin: BinOp, l: Expr, r: Expr)
    | Lazy(op: Logic, l: Expr, r: Expr)                 // && || ??
    | Assign(x: Name, e: Expr)                          // =
    | OpAssign(bin: BinOp, x: Name, e: Expr)            // += and the like
    | LazyAssign(op: Logic, x: Name, e: Expr)           // &&= ||= ??=
    | Bump(inc: bool, postfix: bool, x: Name)           // ++ --

  /** A loop body is the list of statements of the block that the compiler opens around it. */
  datatype Stmt =
    | ExprS(e: Expr)
    | Block(ss: seq<Stmt>)
    | If(c: Expr, t: Stmt, f: Option<Stmt>)
    | While(c: Expr, body: seq<Stmt>)
    | DoWhile(body: seq<Stmt>, c: Expr)
    | For(init: seq<Expr>, test: Option<Expr>, incr: seq<Expr>, body: seq<Stmt>)
    | NumFor(x: Name, start: Option<Expr>, end: Expr, stride: Option<Expr>, body: seq<Stmt>)
    | Break(n: int)
    | Continue(n: int)
    | Return(result: Option<Expr>)
    | Defer(d: Stmt)

  type Store = map<Name, Value>

  function Get(s: Store, x: Name): Value {
    if x in s then s[x] else Null
  }

  /* ---- expressions ---- */

  datatype Place = InVar(x: Name) | Temp(v: Value)

  datatype Evaluated = Evaluated(store: Store, place: Place) {
    function Value(): Value { Read(store, place) }
  }

  function Read(s: Store, p: Place): Value {
    match p
    case InVar(x) => Get(s, x)
    case Temp(v) => v
  }

  /** Does `v` decide the result without looking at the right operand? */
  predicate Decides(op: Logic, v: Value) {
    match op
    case And => !Truthy(v)
    case Or => Truthy(v)
    case Nullish => v != Null
  }

  function Eval(ops: Ops, e: Expr, s: Store): Evaluated {
    match e
    case Const(v) => Evaluated(s, Temp(v))
    case Var(x) => Evaluated(s, InVar(x))
    case Unary(op, a) =>
      var r := Eval(ops, a, s);
      Evaluated(r.store, Temp(if op == Plus then r.Value() else ops.un(op, r.Value())))
    case Binary(op, a, b) =>
      var ra := Eval(ops, a, s);
      var rb := Eval(ops, b, ra.store);
      Evaluated(rb.store, Temp(ops.bin(op, Read(rb.store, ra.place), rb.Value())))
    case Lazy(op, a, b) =>
      var ra := Eval(ops, a, s);
      if Decides(op, ra.Value()) then Evaluated(ra.store, Temp(ra.Value()))
      else
        var rb := Eval(ops, b, ra.store);
        Evaluated(rb.store, Temp(rb.Value()))
    case Assign(x, a) =>
      var r := Eval(ops, a, s);
      Evaluated(r.store[x := r.Value()], InVar(x))
    case OpAssign(op, x, a) =>
      var r := Eval(ops, a, s);
      Evaluated(r.store[x := ops.bin(op, Get(r.store, x), r.Value())], InVar(x))
    case LazyAssign(op, x, a) =>
      if Decides(op, Get(s, x)) then Evaluated(s, InVar(x))
      else
        var r := Eval(ops, a, s);
        Evaluated(r.store[x := r.Value()], InVar(x))
    case Bump(inc, postfix, x) =>
      Evaluated(s[x := IncDec(inc, Get(s, x))], if postfix then Temp(Get(s, x)) else InVar(x))
  }

  /** A statement evaluates an expression for its effect only. */
  function Effect(ops: Ops, e: Expr, s: Store): Store {
    Eval(ops, e, s).store
  }

  function Effects(ops: Ops, es: seq<Expr>, s: Store): Store {
    if es == [] then s else Effects(ops, es[1..], Effect(ops, es[0], s))
  }

  /* ---- statements ---- */

  /** How a statement ends.  `Break(n)`/`Continue(n)` still have to leave n loops (the
      innermost enclosing one counts as the first).  A returned local is read only after
      the deferred statements have run. */
  datatype Outcome =
    | Timeout
    | Normal(store: Store)
    | Breaks(n: int, store: Store)
    | Continues(n: int, store: Store)
    | Returns(place: Option<Place>, store: Store)

  /** Runs the rest of a block's deferred statement on the way out, however the block is left. */
  function Finally(out: Outcome, deferred: Outcome): Outcome
    requires !out.Timeout?
  {
    match deferred
    case Normal(s) => out.(store := s)
    case _ => deferred
  }

  /* ---- the numbers of a numeric loop ---- */

  /** Who keeps a numeric loop's current number, its end and its step: the loop itself, as one
      would expect; or its variable, in three hidden registers that all loops over that
      variable use. */
  datatype LoopMode = Own | Shared

  datatype Numbers = Numbers(cur: int, end: int, step: int)

  /** The names of these registers in a store. */
  function Hid(x: Name, k: int): Name {
    (if k == 1 then "(num.for init)" else if k == 2 then "(num.for end)" else "(num.for step)") + x
  }

  function Put(m: LoopMode, s: Store, x: Name, k: int, v: Value): Store {
    if m == Own then s else s[Hid(x, k) := v]
  }

  function PutAll(m: LoopMode, s: Store, x: Name, cur: int, end: int, step: int): Store {
    Put(m, Put(m, Put(m, s, x, 1, Int(cur)), x, 2, Int(end)), x, 3, Int(step))
  }

  /** The numbers that a loop goes on with. */
  function Now(m: LoopMode, s: Store, x: Name, own: Numbers): Numbers {
    if m == Own then own else Numbers(ToInt(Get(s, Hid(x, 1))), ToInt(Get(s, Hid(x, 2))), ToInt(Get(s, Hid(x, 3))))
  }

  /** `fuel` bounds the number of times that each loop goes round. */
  function Run(m: LoopMode, ops: Ops, fuel: nat, st: Stmt, s: Store): Outcome
    decreases fuel, st, 2
  {
    match st
    case ExprS(e) => Normal(Effect(ops, e, s))
    case Block(ss) => RunSeq(m, ops, fuel, ss, s)
    case If(c, t, f) =>
      var r := Eval(ops, c, s);
      if Truthy(r.Value()) then Run(m, ops, fuel, t, r.store)
      else if f.Some? then Run(m, ops, fuel, f.value, r.store)
      else Normal(r.store)
    case While(c, body) => RunFor(m, ops, fuel, Some(c), [], body, s)
    case DoWhile(body, c) => RunDo(m, ops, fuel, body, c, s)
    case For(init, test, incr, body) => RunFor(m, ops, fuel, test, incr, body, Effects(ops, init, s))
    case NumFor(x, start, last, stride, body) =>
      var r1 := if start.Some? then Eval(ops, start.value, s) else Evaluated(s, Temp(Int(0)));
      var r2 := Eval(ops, last, Put(m, r1.store, x, 1, r1.Value()));
      var s2 := Put(m, r2.store, x, 2, r2.Value());
      var r3 := if stride.Some? then Eval(ops, stride.value, s2) else Evaluated(s2, Temp(Int(1)));
      var s3 := Put(m, r3.store, x, 3, r3.Value());
      var cur, end, step := ToInt(r1.Value()), ToInt(r2.Value()), ToInt(r3.Value());
      var s4 := PutAll(m, s3, x, cur, end, step);
      if NumGoesOn(cur, end, step) then RunNum(m, ops, fuel, x, cur, end, step, body, s4)
      else Normal(s4[x := Int(cur)])
    case Break(n) => Breaks(n, s)
    case Continue(n) => Continues(n, s)
    case Return(e) =>
      if e.None? then Returns(None, s)
      else
        var r := Eval(ops, e.value, s);
        Returns(Some(r.place), r.store)
    case Defer(d) => Normal(s)
  }

  /** The statements of one block: a deferred statement runs after the rest of the block. */
  function RunSeq(m: LoopMode, ops: Ops, fuel: nat, ss: seq<Stmt>, s: Store): Outcome
    decreases fuel, ss, 0
  {
    if ss == [] then Normal(s)
    else if ss[0].Defer? then
      var out := RunSeq(m, ops, fuel, ss[1..], s);
      if out.Timeout? then out
      else
        assert ss[0] decreases to ss[0].d;
        Finally(out, Run(m, ops, fuel, ss[0].d, out.store))
    else
      var out := Run(m, ops, fuel, ss[0], s);
      if out.Normal? then RunSeq(m, ops, fuel, ss[1..], out.store) else out
  }

  predicate GoesRound(out: Outcome) {
    out.Normal? || (out.Continues? && out.n == 1)
  }

  /** What a loop makes of a body that does not let it go round again. */
  function LeaveLoop(out: Outcome): Outcome
    requires !GoesRound(out)
  {
    match out
    case Breaks(n, s) => if n == 1 then Normal(s) else Breaks(n - 1, s)
    case Continues(n, s) => Continues(n - 1, s)
    case _ => out
  }

  function RunFor(m: LoopMode, ops: Ops, fuel: nat, test: Option<Expr>, incr: seq<Expr>, body: seq<Stmt>,
                  s: Store): Outcome
    decreases fuel, body, 1
  {
    var r := if test.Some? then Eval(ops, test.value, s) else Evaluated(s, Temp(Bool(true)));
    if !Truthy(r.Value()) then Normal(r.store)
    else
      var out := RunSeq(m, ops, fuel, body, r.store);
      if !GoesRound(out) then LeaveLoop(out)
      else if fuel == 0 then Timeout
      else RunFor(m, ops, fuel - 1, test, incr, body, Effects(ops, incr, out.store))
  }

  function RunDo(m: LoopMode, ops: Ops, fuel: nat, body: seq<Stmt>, c: Expr, s: Store): Outcome
    decreases fuel, body, 1
  {
    var out := RunSeq(m, ops, fuel, body, s);
    if !GoesRound(out) then LeaveLoop(out)
    else
      var r := Eval(ops, c, out.store);
      if !Truthy(r.Value()) then Normal(r.store)
      else if fuel == 0 then Timeout
      else RunDo(m, ops, fuel - 1, body, c, r.store)
  }

  /** What the body does to `x` is forgotten; what it does to the three numbers is not, in
      the mode in which it can do anything to them. */
  function RunNum(m: LoopMode, ops: Ops, fuel: nat, x: Name, cur: int, end: int, step: int, body: seq<Stmt>, s: Store):
      Outcome
    decreases fuel, body, 1
  {
    var out := RunSeq(m, ops, fuel, body, s[x := Int(cur)]);
    if !GoesRound(out) then LeaveLoop(out)
    else
      var now := Now(m, out.store, x, Numbers(cur, end, step));
      var next := Wrap(now.cur + now.step);
      var s1 := Put(m, out.store, x, 1, Int(next));
      if !NumGoesOn(next, now.end, now.step) then Normal(s1[x := Int(next)])
      else if fuel == 0 then Timeout
      else RunNum(m, ops, fuel - 1, x, next, now.end, now.step, body, s1)
  }
}
