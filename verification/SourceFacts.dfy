/** What the source semantics promises: which variables an expression changes, when reading
    places late does not matter, how often a numeric loop runs, in which order deferred
    statements run, and where expand_varlist puts the variables. */
module SourceFacts {
  import opened Bytecode
  import opened Source
  import opened Compile
  import opened ExprProof

  /* ---- places and values ---- */

  function Assigned(e: Expr): set<Name> {
    match e
    case Const(_) => {}
    case Var(_) => {}
    case Unary(_, a) => Assigned(a)
    case Binary(_, a, b) => Assigned(a) + Assigned(b)
    case Lazy(_, a, b) => Assigned(a) + Assigned(b)
    case Assign(x, a) => {x} + Assigned(a)
    case OpAssign(_, x, a) => {x} + Assigned(a)
    case LazyAssign(_, x, a) => {x} + Assigned(a)
    case Bump(_, _, x) => {x}
  }

  /** An expression changes only the variables it assigns. */
  lemma {:induction false} OnlyAssigned(ops: Ops, e: Expr, s: Store, y: Name)
    requires y !in Assigned(e)
    ensures Get(Eval(ops, e, s).store, y) == Get(s, y)
    decreases e
  {
    match e
    case Const(_) =>
    case Var(_) =>
    case Unary(_, a) => OnlyAssigned(ops, a, s, y);
    case Binary(_, a, b) =>
      OnlyAssigned(ops, a, s, y);
      OnlyAssigned(ops, b, Eval(ops, a, s).store, y);
    case Lazy(_, a, b) =>
      OnlyAssigned(ops, a, s, y);
      OnlyAssigned(ops, b, Eval(ops, a, s).store, y);
    case Assign(_, a) => OnlyAssigned(ops, a, s, y);
    case OpAssign(_, _, a) => OnlyAssigned(ops, a, s, y);
    case LazyAssign(_, _, a) => OnlyAssigned(ops, a, s, y);
    case Bump(_, _, _) =>
  }

  /** The usual semantics: every operand is a value, read when it has been evaluated. */
  function EvalV(ops: Ops, e: Expr, s: Store): (Store, Value) {
    match e
    case Const(v) => (s, v)
    case Var(x) => (s, Get(s, x))
    case Unary(op, a) =>
      var (s1, v) := EvalV(ops, a, s);
      (s1, if op == Plus then v else ops.un(op, v))
    case Binary(op, a, b) =>
      var (s1, v) := EvalV(ops, a, s);
      var (s2, w) := EvalV(ops, b, s1);
      (s2, ops.bin(op, v, w))
    case Lazy(op, a, b) =>
      var (s1, v) := EvalV(ops, a, s);
      if Decides(op, v) then (s1, v) else EvalV(ops, b, s1)
    case Assign(x, a) =>
      var (s1, v) := EvalV(ops, a, s);
      (s1[x := v], v)
    case OpAssign(op, x, a) =>
      var (s1, v) := EvalV(ops, a, s);
      var w := ops.bin(op, Get(s, x), v);
      (s1[x := w], w)
    case LazyAssign(op, x, a) =>
      if Decides(op, Get(s, x)) then (s, Get(s, x))
      else
        var (s1, v) := EvalV(ops, a, s);
        (s1[x := v], v)
    case Bump(inc, postfix, x) =>
      var v := IncDec(inc, Get(s, x));
      (s[x := v], if postfix then Get(s, x) else v)
  }

  /** The variable that an operand stands for, if it stands for one. */
  function PlaceOf(e: Expr): Option<Name> {
    match e
    case Var(x) => Some(x)
    case Assign(x, _) => Some(x)
    case OpAssign(_, x, _) => Some(x)
    case LazyAssign(_, x, _) => Some(x)
    case Bump(_, postfix, x) => if postfix then None else Some(x)
    case _ => None
  }

  /** No right operand writes the variable that its left operand stands for. */
  predicate Independent(e: Expr) {
    match e
    case Const(_) => true
    case Var(_) => true
    case Unary(_, a) => Independent(a)
    case Binary(_, a, b) => Independent(a) && Independent(b) && (PlaceOf(a).Some? ==> PlaceOf(a).value !in Assigned(b))
    case Lazy(_, a, b) => Independent(a) && Independent(b)
    case Assign(_, a) => Independent(a)
    case OpAssign(_, x, a) => Independent(a) && x !in Assigned(a)
    case LazyAssign(_, _, a) => Independent(a)
    case Bump(_, _, _) => true
  }

  lemma PlaceIs(ops: Ops, e: Expr, s: Store)
    ensures var r := Eval(ops, e, s);
            match r.place case InVar(x) => PlaceOf(e) == Some(x) case Temp(_) => PlaceOf(e) == None
  {
  }

  /** Then reading places late gives what reading values at once would give. */
  lemma {:induction false} PlacesAreValues(ops: Ops, e: Expr, s: Store)
    requires Independent(e)
    ensures EvalV(ops, e, s) == (Eval(ops, e, s).store, Eval(ops, e, s).Value())
    decreases e
  {
    match e
    case Const(_) =>
    case Var(_) =>
    case Unary(_, a) => PlacesAreValues(ops, a, s);
    case Binary(_, a, b) =>
      var ra := Eval(ops, a, s);
      PlacesAreValues(ops, a, s);
      PlacesAreValues(ops, b, ra.store);
      PlaceIs(ops, a, s);
      if ra.place.InVar? { OnlyAssigned(ops, b, ra.store, ra.place.x); }
    case Lazy(_, a, b) =>
      PlacesAreValues(ops, a, s);
      PlacesAreValues(ops, b, Eval(ops, a, s).store);
    case Assign(_, a) => PlacesAreValues(ops, a, s);
    case OpAssign(_, x, a) =>
      PlacesAreValues(ops, a, s);
      OnlyAssigned(ops, a, s, x);
    case LazyAssign(_, _, a) => PlacesAreValues(ops, a, s);
    case Bump(_, _, _) =>
  }

  /** Both semantics give the expression the same value and the same effect. */
  predicate Agree(ops: Ops, e: Expr, s: Store) {
    EvalV(ops, e, s) == (Eval(ops, e, s).store, Eval(ops, e, s).Value())
  }

  /** A binary operator that means `m`, in the semantics of places ... */
  function ByPlace(m: (Value, Value) -> Value, ops: Ops, a: Expr, b: Expr, s: Store): (Store, Value) {
    var ra := Eval(ops, a, s);
    var rb := Eval(ops, b, ra.store);
    (rb.store, m(Read(rb.store, ra.place), rb.Value()))
  }

  /** ... and in that of values. */
  function ByValue(m: (Value, Value) -> Value, ops: Ops, a: Expr, b: Expr, s: Store): (Store, Value) {
    var (s1, v) := EvalV(ops, a, s);
    var (s2, w) := EvalV(ops, b, s1);
    (s2, m(v, w))
  }

  /** Both are what the two semantics say about `a op b`. */
  lemma BothWays(ops: Ops, op: BinOp, a: Expr, b: Expr, s: Store)
    ensures Agree(ops, Binary(op, a, b), s)
            <==> var m := (v, w) => ops.bin(op, v, w); ByPlace(m, ops, a, b, s) == ByValue(m, ops, a, b, s)
  {
  }

  /** When reading the left operand late makes no difference, whatever the operator means:
      exactly if evaluating the right operand leaves the left place with the value it had. */
  lemma AgreeExactly(ops: Ops, a: Expr, b: Expr, s: Store)
    requires Agree(ops, a, s)
    ensures var ra := Eval(ops, a, s);
            var rb := Eval(ops, b, ra.store);
            (forall m: (Value, Value) -> Value :: ByPlace(m, ops, a, b, s) == ByValue(m, ops, a, b, s))
            <==> Agree(ops, b, ra.store) && Read(rb.store, ra.place) == ra.Value()
  {
    hide Eval, EvalV;
    if forall m: (Value, Value) -> Value :: ByPlace(m, ops, a, b, s) == ByValue(m, ops, a, b, s) {
      assert ByPlace((v, _) => v, ops, a, b, s) == ByValue((v, _) => v, ops, a, b, s);
      assert ByPlace((_, w) => w, ops, a, b, s) == ByValue((_, w) => w, ops, a, b, s);
    }
  }

  /** In particular for a variable on the left.  `x + (x = x)` writes x and still agrees. */
  lemma VariableAgreesExactly(ops: Ops, x: Name, b: Expr, s: Store)
    ensures (forall m: (Value, Value) -> Value :: ByPlace(m, ops, Var(x), b, s) == ByValue(m, ops, Var(x), b, s))
            <==> Agree(ops, b, s) && Get(Eval(ops, b, s).store, x) == Get(s, x)
    ensures var e := Assign(x, Var(x));
            Agree(ops, e, s) && Get(Eval(ops, e, s).store, x) == Get(s, x) && x in Assigned(e)
  {
    AgreeExactly(ops, Var(x), b, s);
  }

  /** Without that condition it does not: in `x + (x = 5)` with x being 1, the generated code
      adds 5 and 5, because the left operand is x's own register. */
  lemma LateRead()
    ensures var ops := Ops((_, v) => v, (_, v, w) => Int(ToInt(v) + ToInt(w)));
            var e := Binary(Add, Var("x"), Assign("x", Const(Int(5))));
            var s := map["x" := Int(1)];
            Eval(ops, e, s).Value() == Int(10) && EvalV(ops, e, s).1 == Int(6)
  {
    var ops := Ops((_, v) => v, (_, v, w) => Int(ToInt(v) + ToInt(w)));
    var s := map["x" := Int(1)];
    var r := Eval(ops, Assign("x", Const(Int(5))), s);
    assert r.store == s["x" := Int(5)] && r.Value() == Int(5);
    assert Eval(ops, Var("x"), s) == Evaluated(s, InVar("x"));
    assert EvalV(ops, Var("x"), s) == (s, Int(1));
    assert EvalV(ops, Assign("x", Const(Int(5))), s).1 == Int(5);
  }

  /* ---- numeric loops ---- */

  /** max(0, ceil((end - start) / step)) */
  function Trips(cur: int, end: int, step: int): nat
    requires step != 0
  {
    if !NumGoesOn(cur, end, step) then 0
    else if step > 0 then (end - cur + step - 1) / step
    else (cur - end - step - 1) / -step
  }

  /** The body run exactly `n` times, the variable set to start, start + step, ... before
      each run and to the next number after the last: no test, no wrap-around. */
  function Rounds(ops: Ops, fuel: nat, x: Name, cur: int, step: int, body: seq<Stmt>, n: nat, s: Store): Outcome
    decreases n
  {
    if n == 0 then Normal(s[x := Int(cur)])
    else
      var out := RunSeq(Own, ops, fuel, body, s[x := Int(cur)]);
      if !GoesRound(out) then LeaveLoop(out)
      else Rounds(ops, if fuel > 0 then fuel - 1 else 0, x, cur + step, step, body, n - 1, out.store)
  }

  predicate InInt64(i: int) { -TWO_63 <= i < TWO_63 }

  lemma TripsNext(cur: int, end: int, step: int)
    requires step != 0 && NumGoesOn(cur, end, step)
    ensures Trips(cur, end, step) == 1 + Trips(cur + step, end, step)
  {
    if step > 0 {
      DivStep(end - cur - 1, step);
    } else {
      DivStep(cur - end - 1, -step);
    }
  }

  lemma DivStep(a: int, d: int)
    requires a >= 0 && d > 0
    ensures (a + d) / d == 1 + a / d
    ensures a - d < 0 ==> a / d == 0
  {
    if a - d < 0 { SmallDiv(a, d); }
    AddDiv(a, d);
  }

  lemma SmallDiv(a: int, d: int)
    requires 0 <= a < d
    ensures a / d == 0
  {
  }

  lemma AddDiv(a: int, d: int)
    requires d > 0
    ensures (a + d) / d == 1 + a / d
  {
    var q, r := a / d, a % d;
    assert a + d == (q + 1) * d + r;
    DivUnique(a + d, d, q + 1, r);
  }

  lemma DivUnique(a: int, d: int, q: int, r: int)
    requires d > 0 && a == q * d + r && 0 <= r < d
    ensures a / d == q
  {
    var q', r' := a / d, a % d;
    assert a == q' * d + r' && 0 <= r' < d;
    if q > q' { MulAtLeast(q, q', d); }
    if q < q' { MulAtLeast(q', q, d); }
  }

  lemma {:induction false} MulAtLeast(p: int, q: int, d: int)
    requires p > q && d > 0
    ensures p * d >= q * d + d
    decreases p - q
  {
    assert p * d == (p - 1) * d + d;
    if p > q + 1 { MulAtLeast(p - 1, q, d); }
  }

  /** A numeric loop with a non-zero step and no overflow is its body run that many times,
      whatever the body does to the variable, and however it ends. */
  lemma {:induction false} NumLoopIsRounds(ops: Ops, fuel: nat, x: Name, cur: int, end: int, step: int,
            body: seq<Stmt>, s: Store)
    requires step != 0 && NumGoesOn(cur, end, step) && fuel + 1 >= Trips(cur, end, step)
    requires InInt64(cur) && InInt64(cur + Trips(cur, end, step) * step)
    ensures RunNum(Own, ops, fuel, x, cur, end, step, body, s)
            == Rounds(ops, fuel, x, cur, step, body, Trips(cur, end, step), s)
    decreases fuel
  {
    hide RunSeq, Trips, Wrap;
    TripsNext(cur, end, step);
    var n := Trips(cur, end, step);
    assert cur + step + (n - 1) * step == cur + n * step;
    Between(cur, step, n);
    var out := RunSeq(Own, ops, fuel, body, s[x := Int(cur)]);
    if GoesRound(out) {
      var next := cur + step;
      assert Wrap(next) == next;
      if NumGoesOn(next, end, step) {
        TripsNext(next, end, step);
        assert fuel > 0;
        NumLoopIsRounds(ops, fuel - 1, x, next, end, step, body, out.store);
      } else {
        TripsNone(next, end, step);
      }
    }
  }

  lemma TripsNone(cur: int, end: int, step: int)
    requires step != 0 && !NumGoesOn(cur, end, step)
    ensures Trips(cur, end, step) == 0
  {
  }

  lemma Between(cur: int, step: int, n: int)
    requires n >= 1 && InInt64(cur) && InInt64(cur + n * step)
    ensures InInt64(cur + step)
  {
    if step >= 0 { assert n * step >= step; } else { assert n * step <= step; }
  }

  /** The statement, bounds included. */
  lemma NumForIsRounds(ops: Ops, fuel: nat, x: Name, start: Option<Expr>, last: Expr, stride: Option<Expr>,
                       body: seq<Stmt>, s: Store)
    requires var b1 := if start.Some? then Eval(ops, start.value, s) else Evaluated(s, Temp(Int(0)));
             var b2 := Eval(ops, last, b1.store);
             var b3 := if stride.Some? then Eval(ops, stride.value, b2.store) else Evaluated(b2.store, Temp(Int(1)));
             var cur, end, step := ToInt(b1.Value()), ToInt(b2.Value()), ToInt(b3.Value());
             step != 0 && fuel + 1 >= Trips(cur, end, step) && InInt64(cur)
                 && InInt64(cur + Trips(cur, end, step) * step)
    ensures var b1 := if start.Some? then Eval(ops, start.value, s) else Evaluated(s, Temp(Int(0)));
            var b2 := Eval(ops, last, b1.store);
            var b3 := if stride.Some? then Eval(ops, stride.value, b2.store) else Evaluated(b2.store, Temp(Int(1)));
            var cur, end, step := ToInt(b1.Value()), ToInt(b2.Value()), ToInt(b3.Value());
            Run(Own, ops, fuel, NumFor(x, start, last, stride, body), s)
                == Rounds(ops, fuel, x, cur, step, body, Trips(cur, end, step), b3.store)
  {
    hide Eval, RunNum, Trips, NumGoesOn;
    var b1 := if start.Some? then Eval(ops, start.value, s) else Evaluated(s, Temp(Int(0)));
    var b2 := Eval(ops, last, b1.store);
    var b3 := if stride.Some? then Eval(ops, stride.value, b2.store) else Evaluated(b2.store, Temp(Int(1)));
    var cur, end, step := ToInt(b1.Value()), ToInt(b2.Value()), ToInt(b3.Value());
    if NumGoesOn(cur, end, step) {
      NumLoopIsRounds(ops, fuel, x, cur, end, step, body, b3.store);
    } else {
      TripsNone(cur, end, step);
    }
  }

  /* ---- deferred statements ---- */

  /** The statements of a block without its deferred ones: how they end, and how many
      children of the block had been passed by then. */
  function Raw(m: LoopMode, ops: Ops, fuel: nat, ss: seq<Stmt>, s: Store): (r: (Outcome, nat))
    ensures r.1 <= |ss|
    decreases ss
  {
    if ss == [] then (Normal(s), 0)
    else if ss[0].Defer? then
      var r := Raw(m, ops, fuel, ss[1..], s);
      (r.0, r.1 + 1)
    else
      var out := Run(m, ops, fuel, ss[0], s);
      if !out.Normal? then (out, 1)
      else
        var r := Raw(m, ops, fuel, ss[1..], out.store);
        (r.0, r.1 + 1)
  }

  /** The deferred statements among them, in program order. */
  function Deferred(ss: seq<Stmt>): seq<Stmt> {
    if ss == [] then []
    else (if ss[0].Defer? then [ss[0].d] else []) + Deferred(ss[1..])
  }

  function Then(m: LoopMode, ops: Ops, fuel: nat, d: Stmt, out: Outcome): Outcome {
    if out.Timeout? then out else Finally(out, Run(m, ops, fuel, d, out.store))
  }

  /** Runs statements from the last to the first. */
  function LatestFirst(m: LoopMode, ops: Ops, fuel: nat, ds: seq<Stmt>, out: Outcome): Outcome
    decreases ds
  {
    if ds == [] then out else LatestFirst(m, ops, fuel, ds[..|ds| - 1], Then(m, ops, fuel, ds[|ds| - 1], out))
  }

  lemma {:induction false} LatestFirstCons(m: LoopMode, ops: Ops, fuel: nat, d: Stmt, ds: seq<Stmt>, out: Outcome)
    ensures LatestFirst(m, ops, fuel, [d] + ds, out) == Then(m, ops, fuel, d, LatestFirst(m, ops, fuel, ds, out))
    decreases ds
  {
    hide Run;
    var all := [d] + ds;
    if ds == [] {
      assert all == [d] && all[..0] == [];
    } else {
      assert all[..|all| - 1] == [d] + ds[..|ds| - 1];
      LatestFirstCons(m, ops, fuel, d, ds[..|ds| - 1], Then(m, ops, fuel, ds[|ds| - 1], out));
    }
  }

  lemma DeferredCons(s: Stmt, ss: seq<Stmt>)
    ensures Deferred([s] + ss) == (if s.Defer? then [s.d] else []) + Deferred(ss)
  {
    assert ([s] + ss)[1..] == ss;
  }

  lemma RawCons(m: LoopMode, ops: Ops, fuel: nat, ss: seq<Stmt>, s: Store)
    requires ss != [] && (ss[0].Defer? || Run(m, ops, fuel, ss[0], s).Normal?)
    ensures var t := if ss[0].Defer? then s else Run(m, ops, fuel, ss[0], s).store;
            var r, rest := Raw(m, ops, fuel, ss, s), Raw(m, ops, fuel, ss[1..], t);
            && r == (rest.0, rest.1 + 1)
            && Deferred(ss[..r.1]) == (if ss[0].Defer? then [ss[0].d] else []) + Deferred(ss[1..][..rest.1])
  {
    hide Run, Deferred;
    var r := Raw(m, ops, fuel, ss, s);
    assert ss[..r.1] == [ss[0]] + ss[1..][..r.1 - 1];
    DeferredCons(ss[0], ss[1..][..r.1 - 1]);
  }

  /** However a block is left, exactly the deferred statements already passed in it run,
      once each, the latest first. */
  lemma {:induction false} DefersRunLatestFirst(m: LoopMode, ops: Ops, fuel: nat, ss: seq<Stmt>, s: Store)
    ensures var r := Raw(m, ops, fuel, ss, s);
            RunSeq(m, ops, fuel, ss, s) == LatestFirst(m, ops, fuel, Deferred(ss[..r.1]), r.0)
    decreases ss
  {
    hide Run, LatestFirst, Deferred;
    if ss == [] {
      LatestFirstNone(m, ops, fuel, [], Normal(s));
    } else if ss[0].Defer? {
      hide Raw;
      RawCons(m, ops, fuel, ss, s);
      var rest := Raw(m, ops, fuel, ss[1..], s);
      DefersRunLatestFirst(m, ops, fuel, ss[1..], s);
      LatestFirstCons(m, ops, fuel, ss[0].d, Deferred(ss[1..][..rest.1]), rest.0);
    } else if Run(m, ops, fuel, ss[0], s).Normal? {
      var t := Run(m, ops, fuel, ss[0], s).store;
      RawCons(m, ops, fuel, ss, s);
      DefersRunLatestFirst(m, ops, fuel, ss[1..], t);
      assert [] + Deferred(ss[1..][..Raw(m, ops, fuel, ss[1..], t).1])
             == Deferred(ss[1..][..Raw(m, ops, fuel, ss[1..], t).1]);
    } else {
      LatestFirstNone(m, ops, fuel, ss[..1], Run(m, ops, fuel, ss[0], s));
    }
  }

  lemma LatestFirstNone(m: LoopMode, ops: Ops, fuel: nat, ss: seq<Stmt>, out: Outcome)
    requires |ss| <= 1 && (ss != [] ==> !ss[0].Defer?)
    ensures LatestFirst(m, ops, fuel, Deferred(ss), out) == out
  {
    if ss != [] { DeferredCons(ss[0], []); assert [ss[0]] + [] == ss; }
  }

  /* ---- where the variables go ---- */

  predicate Plain(vars: seq<FCVar>) {
    && (forall i, j | 0 <= i < j < |vars| :: vars[i].name != vars[j].name)
    && (forall i | 0 <= i < |vars| :: !IsHidden(vars[i].name))
  }

  /** How many registers expand_varlist inserts in front of variable `k`. */
  function Inserted(vars: seq<FCVar>, k: nat): nat
    requires k <= |vars|
  {
    if k == 0 then 0 else (if vars[0].numfor then 3 else 0) + Inserted(vars[1..], k - 1)
  }

  /** Every variable moves up by the hidden registers of the loop variables before it. */
  lemma {:induction false} ExpandPlace(vars: seq<FCVar>, k: nat)
    requires Plain(vars) && k < |vars|
    ensures Find(Expand(vars), vars[k].name) == k + Inserted(vars, k)
    ensures var r := k + Inserted(vars, k); r < |Expand(vars)| && Expand(vars)[r] == vars[k]
    ensures vars[k].numfor ==> HasHidden(Expand(vars), k + Inserted(vars, k))
    decreases vars
  {
    hide Find, IsHidden;
    var h := if vars[0].numfor then NUM_HIDDEN else [];
    var rest := Expand(vars[1..]);
    assert Expand(vars) == [vars[0]] + h + rest;
    if k == 0 {
      assert Expand(vars)[0] == vars[0];
      FindAt(Expand(vars), 0);
      if vars[0].numfor { HiddenBehind(vars[0], rest); }
    } else {
      assert vars[1..][k - 1] == vars[k];
      ExpandPlace(vars[1..], k - 1);
      NotHidden(vars[0], vars[k].name);
      FindSkip([vars[0]] + h, rest, vars[k].name);
      if vars[k].numfor { HiddenShift([vars[0]] + h, rest, k - 1 + Inserted(vars[1..], k - 1)); }
    }
  }

  lemma HiddenBehind(v: FCVar, rest: seq<FCVar>)
    ensures HasHidden([v] + NUM_HIDDEN + rest, 0)
  {
    var l := [v] + NUM_HIDDEN + rest;
    assert l[1] == NUM_HIDDEN[0] && l[2] == NUM_HIDDEN[1] && l[3] == NUM_HIDDEN[2];
  }

  lemma HiddenShift(a: seq<FCVar>, b: seq<FCVar>, r: int)
    requires HasHidden(b, r)
    ensures HasHidden(a + b, |a| + r)
  {
    hide IsHidden;
    var l, i := a + b, |a| + r;
    assert l[i + 1] == b[r + 1] && l[i + 2] == b[r + 2] && l[i + 3] == b[r + 3];
  }

  lemma NotHidden(v: FCVar, x: Name)
    requires v.name != x && !IsHidden(x)
    ensures forall i | 0 <= i < |[v] + NUM_HIDDEN| :: ([v] + NUM_HIDDEN)[i].name != x
  {
  }

  lemma FindAt(vars: seq<FCVar>, i: nat)
    requires i < |vars| && forall j | 0 <= j < i :: vars[j].name != vars[i].name
    ensures Find(vars, vars[i].name) == i
  {
  }

  lemma FindSkip(a: seq<FCVar>, b: seq<FCVar>, x: Name)
    requires (forall i | 0 <= i < |a| :: a[i].name != x) && Find(b, x) >= 0
    ensures Find(a + b, x) == |a| + Find(b, x)
  {
    var r := |a| + Find(b, x);
    assert (a + b)[r].name == x;
    forall j | 0 <= j < r ensures (a + b)[j].name != x {
      if j >= |a| { assert (a + b)[j] == b[j - |a|]; }
    }
    FindAt(a + b, r);
  }

  lemma FindNone(a: seq<FCVar>, b: seq<FCVar>, x: Name)
    requires (forall i | 0 <= i < |a| :: a[i].name != x) && Find(b, x) < 0
    ensures Find(a + b, x) < 0
  {
    hide Find;
    forall i | 0 <= i < |a + b| ensures (a + b)[i].name != x {
      if i >= |a| { assert (a + b)[i] == b[i - |a|]; }
    }
  }

  lemma {:induction false} ExpandOnly(vars: seq<FCVar>, x: Name)
    requires !IsHidden(x) && Find(vars, x) < 0
    ensures Find(Expand(vars), x) < 0
    decreases vars
  {
    hide IsHidden;
    if vars != [] {
      assert vars[0].name != x;
      var h := if vars[0].numfor then NUM_HIDDEN else [];
      assert Expand(vars) == ([vars[0]] + h) + Expand(vars[1..]);
      ExpandOnly(vars[1..], x);
      NotHidden(vars[0], x);
      FindNone([vars[0]] + h, Expand(vars[1..]), x);
    }
  }

  /** Expansion gives every numeric loop variable its three registers. */
  lemma ExpandOk(vars: seq<FCVar>)
    requires Plain(vars)
    ensures VarsOk(Expand(vars))
  {
    hide Find, IsHidden, Expand;
    var all := Expand(vars);
    forall x | !IsHidden(x) && Find(all, x) >= 0 && all[Find(all, x)].numfor ensures HasHidden(all, Find(all, x)) {
      if Find(vars, x) < 0 { ExpandOnly(vars, x); } else { ExpandPlace(vars, Find(vars, x)); }
    }
  }

  /** The caller puts argument `k` into register `k`.  That is the parameter's register
      exactly if no parameter before it is a numeric loop variable. */
  lemma {:induction false} ParameterPlace(vars: seq<FCVar>, k: nat)
    requires Plain(vars) && k < |vars|
    ensures Find(Expand(vars), vars[k].name) == k <==> forall i | 0 <= i < k :: !vars[i].numfor
  {
    ExpandPlace(vars, k);
    InsertedNone(vars, k);
  }

  lemma {:induction false} InsertedNone(vars: seq<FCVar>, k: nat)
    requires k <= |vars|
    ensures Inserted(vars, k) == 0 <==> forall i | 0 <= i < k :: !vars[i].numfor
    decreases k
  {
    if k > 0 {
      InsertedNone(vars[1..], k - 1);
      if Inserted(vars, k) == 0 {
        forall i | 0 <= i < k ensures !vars[i].numfor { if i > 0 { assert vars[1..][i - 1] == vars[i]; } }
      }
    }
  }
}
