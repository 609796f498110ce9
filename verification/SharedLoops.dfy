/** What it means that all numeric loops over one variable share its three registers: for
    loops that are not nested nothing at all, and for one inside another over the same
    variable that the outer one ends early. */
module SharedLoops {
  import opened Bytecode
  import opened Source
  import opened Compile
  import opened ExprProof
  import opened StmtProof

  /* ---- stores that differ in hidden registers only ---- */

  ghost predicate Same(s: Store, t: Store) {
    forall y | !IsHidden(y) :: Get(s, y) == Get(t, y)
  }

  predicate Visible(p: Place) {
    p.InVar? ==> !IsHidden(p.x)
  }

  ghost predicate SameOut(a: Outcome, b: Outcome) {
    match a
    case Timeout => b.Timeout?
    case Normal(s) => b.Normal? && Same(s, b.store)
    case Breaks(n, s) => b.Breaks? && b.n == n && Same(s, b.store)
    case Continues(n, s) => b.Continues? && b.n == n && Same(s, b.store)
    case Returns(pl, s) => b.Returns? && b.place == pl && (pl.Some? ==> Visible(pl.value)) && Same(s, b.store)
  }

  lemma {:induction false} SameSet(s: Store, t: Store, x: Name, v: Value)
    requires Same(s, t)
    ensures Same(s[x := v], t[x := v])
  {
  }

  lemma {:induction false} SameHid(s: Store, t: Store, x: Name, k: int, v: Value)
    requires Same(s, t) && 1 <= k <= 3
    ensures Same(s, t[Hid(x, k) := v])
  {
    hide IsHidden, Hid;
    HidApart(x, k, x, k);
  }

  ghost predicate SameEval(a: Evaluated, b: Evaluated) {
    a.place == b.place && Visible(a.place) && Same(a.store, b.store) && a.Value() == b.Value()
  }

  lemma {:induction false} EvalSame(vars: seq<FCVar>, ops: Ops, e: Expr, s: Store, t: Store)
    requires ScopedE(vars, e) && Same(s, t)
    ensures SameEval(Eval(ops, e, s), Eval(ops, e, t))
    decreases e
  {
    hide IsHidden, Find;
    match e
    case Const(_) =>
    case Var(_) =>
    case Unary(_, a) => EvalSame(vars, ops, a, s, t);
    case Binary(_, a, b) =>
      EvalSame(vars, ops, a, s, t);
      EvalSame(vars, ops, b, Eval(ops, a, s).store, Eval(ops, a, t).store);
    case Lazy(_, a, b) =>
      EvalSame(vars, ops, a, s, t);
      EvalSame(vars, ops, b, Eval(ops, a, s).store, Eval(ops, a, t).store);
    case Assign(_, a) => EvalSame(vars, ops, a, s, t);
    case OpAssign(_, _, a) => EvalSame(vars, ops, a, s, t);
    case LazyAssign(_, _, a) => EvalSame(vars, ops, a, s, t);
    case Bump(_, _, _) =>
  }

  lemma {:induction false} EffectsSame(vars: seq<FCVar>, ops: Ops, es: seq<Expr>, s: Store, t: Store)
    requires ScopedEs(vars, es) && Same(s, t)
    ensures Same(Effects(ops, es, s), Effects(ops, es, t))
    decreases es
  {
    hide Eval, Same, ScopedE;
    if es != [] {
      EvalSame(vars, ops, es[0], s, t);
      EffectsSame(vars, ops, es[1..], Effect(ops, es[0], s), Effect(ops, es[0], t));
    }
  }

  /* ---- a statement leaves the registers of other loops alone ---- */

  /** The three registers of `x` have not changed. */
  predicate Left3(x: Name, s: Store, t: Store) {
    Get(s, Hid(x, 1)) == Get(t, Hid(x, 1)) && Get(s, Hid(x, 2)) == Get(t, Hid(x, 2))
        && Get(s, Hid(x, 3)) == Get(t, Hid(x, 3))
  }

  lemma {:induction false} SetLeft(x: Name, s: Store, y: Name, v: Value)
    requires !IsHidden(y)
    ensures Left3(x, s, s[y := v])
  {
    hide IsHidden, Hid;
    HidVisible(x, y);
  }

  lemma {:induction false} PutLeft(x: Name, s: Store, y: Name, k: int, v: Value)
    requires x != y && 1 <= k <= 3
    ensures Left3(x, s, s[Hid(y, k) := v])
  {
    hide IsHidden, Hid;
    HidApart(x, 1, y, k);
    HidApart(x, 2, y, k);
    HidApart(x, 3, y, k);
  }

  lemma {:induction false} EvalLeft(vars: seq<FCVar>, ops: Ops, e: Expr, s: Store, x: Name)
    requires ScopedE(vars, e)
    ensures Left3(x, s, Eval(ops, e, s).store)
    decreases e
  {
    hide IsHidden, Find, Hid;
    match e
    case Const(_) =>
    case Var(_) =>
    case Unary(_, a) => EvalLeft(vars, ops, a, s, x);
    case Binary(_, a, b) =>
      EvalLeft(vars, ops, a, s, x);
      EvalLeft(vars, ops, b, Eval(ops, a, s).store, x);
    case Lazy(_, a, b) =>
      EvalLeft(vars, ops, a, s, x);
      EvalLeft(vars, ops, b, Eval(ops, a, s).store, x);
    case Assign(y, a) =>
      EvalLeft(vars, ops, a, s, x);
      SetLeft(x, Eval(ops, a, s).store, y, Eval(ops, a, s).Value());
    case OpAssign(op, y, a) =>
      var r := Eval(ops, a, s);
      EvalLeft(vars, ops, a, s, x);
      SetLeft(x, r.store, y, ops.bin(op, Get(r.store, y), r.Value()));
    case LazyAssign(_, y, a) =>
      EvalLeft(vars, ops, a, s, x);
      SetLeft(x, Eval(ops, a, s).store, y, Eval(ops, a, s).Value());
    case Bump(inc, _, y) => SetLeft(x, s, y, IncDec(inc, Get(s, y)));
  }

  lemma {:induction false} EffectsLeft(vars: seq<FCVar>, ops: Ops, es: seq<Expr>, s: Store, x: Name)
    requires ScopedEs(vars, es)
    ensures Left3(x, s, Effects(ops, es, s))
    decreases es
  {
    hide Eval, ScopedE, Hid;
    if es != [] {
      EvalLeft(vars, ops, es[0], s, x);
      EffectsLeft(vars, ops, es[1..], Effect(ops, es[0], s), x);
    }
  }

  predicate OutLeft(x: Name, s: Store, out: Outcome) {
    !out.Timeout? ==> Left3(x, s, out.store)
  }

  /** A statement without loops over `x` leaves the three registers of `x` alone. */
  lemma {:induction false} RunLeft(vars: seq<FCVar>, ops: Ops, fuel: nat, st: Stmt, s: Store, x: Name)
    requires ScopedS(vars, st) && x !in NumVars(st)
    ensures OutLeft(x, s, Run(Shared, ops, fuel, st, s))
    decreases fuel, st, 2
  {
    hide Eval, Left3, ScopedE, Hid, ScopedNum, RunSeq, RunFor, RunDo, RunNum;
    LeftSelf(x, s);
    match st
    case ExprS(e) => EvalLeft(vars, ops, e, s, x);
    case Block(ss) => SeqLeft(vars, ops, fuel, ss, s, x);
    case If(c, t, f) =>
      var r := Eval(ops, c, s);
      EvalLeft(vars, ops, c, s, x);
      if Truthy(r.Value()) {
        RunLeft(vars, ops, fuel, t, r.store, x);
        LeftThen(x, s, r.store, Run(Shared, ops, fuel, t, r.store));
      } else if f.Some? {
        RunLeft(vars, ops, fuel, f.value, r.store, x);
        LeftThen(x, s, r.store, Run(Shared, ops, fuel, f.value, r.store));
      }
    case While(c, body) => ForLeft(vars, ops, fuel, Some(c), [], body, s, x);
    case DoWhile(body, c) => DoLeft(vars, ops, fuel, body, c, s, x);
    case For(init, test, incr, body) =>
      EffectsLeft(vars, ops, init, s, x);
      ForLeft(vars, ops, fuel, test, incr, body, Effects(ops, init, s), x);
      LeftThen(x, s, Effects(ops, init, s), RunFor(Shared, ops, fuel, test, incr, body, Effects(ops, init, s)));
    case NumFor(y, start, last, stride, body) => NumForLeft(vars, ops, fuel, y, start, last, stride, body, s, x);
    case Break(_) =>
    case Continue(_) =>
    case Return(e) => if e.Some? { EvalLeft(vars, ops, e.value, s, x); }
    case Defer(_) =>
  }

  lemma {:induction false} LeftSelf(x: Name, s: Store)
    ensures Left3(x, s, s)
  {
  }

  lemma {:induction false} LeftThen(x: Name, s: Store, t: Store, out: Outcome)
    requires Left3(x, s, t) && OutLeft(x, t, out)
    ensures OutLeft(x, s, out)
  {
  }

  lemma {:induction false} BoundsLeft(vars: seq<FCVar>, ops: Ops, y: Name, start: Option<Expr>, last: Expr,
                                      stride: Option<Expr>, s: Store, x: Name)
    requires ScopedO(vars, start) && ScopedE(vars, last) && ScopedO(vars, stride) && x != y
    ensures var r1 := if start.Some? then Eval(ops, start.value, s) else Evaluated(s, Temp(Int(0)));
            var r2 := Eval(ops, last, Put(Shared, r1.store, y, 1, r1.Value()));
            var s2 := Put(Shared, r2.store, y, 2, r2.Value());
            var r3 := if stride.Some? then Eval(ops, stride.value, s2) else Evaluated(s2, Temp(Int(1)));
            var s3 := Put(Shared, r3.store, y, 3, r3.Value());
            Left3(x, s, PutAll(Shared, s3, y, ToInt(r1.Value()), ToInt(r2.Value()), ToInt(r3.Value())))
  {
    hide Eval, ScopedE, Hid, PutAll;
    var r1 := if start.Some? then Eval(ops, start.value, s) else Evaluated(s, Temp(Int(0)));
    if start.Some? { EvalLeft(vars, ops, start.value, s, x); }
    PutLeft(x, r1.store, y, 1, r1.Value());
    var s1 := Put(Shared, r1.store, y, 1, r1.Value());
    var r2 := Eval(ops, last, s1);
    EvalLeft(vars, ops, last, s1, x);
    PutLeft(x, r2.store, y, 2, r2.Value());
    var s2 := Put(Shared, r2.store, y, 2, r2.Value());
    var r3 := if stride.Some? then Eval(ops, stride.value, s2) else Evaluated(s2, Temp(Int(1)));
    if stride.Some? { EvalLeft(vars, ops, stride.value, s2, x); }
    PutLeft(x, r3.store, y, 3, r3.Value());
    var s3 := Put(Shared, r3.store, y, 3, r3.Value());
    PutAllLeft(x, s3, y, ToInt(r1.Value()), ToInt(r2.Value()), ToInt(r3.Value()));
  }

  lemma {:induction false} NumForLeft(vars: seq<FCVar>, ops: Ops, fuel: nat, y: Name, start: Option<Expr>, last: Expr,
                                      stride: Option<Expr>, body: seq<Stmt>, s: Store, x: Name)
    requires ScopedS(vars, NumFor(y, start, last, stride, body)) && x != y && x !in NumVarsSeq(body)
    ensures OutLeft(x, s, Run(Shared, ops, fuel, NumFor(y, start, last, stride, body), s))
    decreases fuel, body, 2
  {
    hide Eval, ScopedE, Hid, RunNum, PutAll, Left3;
    BoundsLeft(vars, ops, y, start, last, stride, s, x);
    var r1 := if start.Some? then Eval(ops, start.value, s) else Evaluated(s, Temp(Int(0)));
    var r2 := Eval(ops, last, Put(Shared, r1.store, y, 1, r1.Value()));
    var s2 := Put(Shared, r2.store, y, 2, r2.Value());
    var r3 := if stride.Some? then Eval(ops, stride.value, s2) else Evaluated(s2, Temp(Int(1)));
    var s3 := Put(Shared, r3.store, y, 3, r3.Value());
    var cur, end, step := ToInt(r1.Value()), ToInt(r2.Value()), ToInt(r3.Value());
    var s4 := PutAll(Shared, s3, y, cur, end, step);
    SetLeft(x, s4, y, Int(cur));
    LeftThen(x, s, s4, Normal(s4[y := Int(cur)]));
    if NumGoesOn(cur, end, step) {
      NumLeft(vars, ops, fuel, y, cur, end, step, body, s4, x);
      LeftThen(x, s, s4, RunNum(Shared, ops, fuel, y, cur, end, step, body, s4));
    }
  }

  lemma {:induction false} PutAllLeft(x: Name, s: Store, y: Name, cur: int, end: int, step: int)
    requires x != y
    ensures Left3(x, s, PutAll(Shared, s, y, cur, end, step))
  {
    hide Hid;
    var a := Put(Shared, s, y, 1, Int(cur));
    var b := Put(Shared, a, y, 2, Int(end));
    PutLeft(x, s, y, 1, Int(cur));
    PutLeft(x, a, y, 2, Int(end));
    PutLeft(x, b, y, 3, Int(step));
  }

  lemma {:induction false} SeqLeft(vars: seq<FCVar>, ops: Ops, fuel: nat, ss: seq<Stmt>, s: Store, x: Name)
    requires ScopedSeq(vars, ss) && x !in NumVarsSeq(ss)
    ensures OutLeft(x, s, RunSeq(Shared, ops, fuel, ss, s))
    decreases fuel, ss, 0
  {
    hide Left3, Run, Hid;
    LeftSelf(x, s);
    if ss != [] && ss[0].Defer? {
      assert ss[0] decreases to ss[0].d;
      var out := RunSeq(Shared, ops, fuel, ss[1..], s);
      SeqLeft(vars, ops, fuel, ss[1..], s, x);
      if !out.Timeout? {
        RunLeft(vars, ops, fuel, ss[0].d, out.store, x);
        LeftThen(x, s, out.store, Run(Shared, ops, fuel, ss[0].d, out.store));
      }
    } else if ss != [] {
      var out := Run(Shared, ops, fuel, ss[0], s);
      RunLeft(vars, ops, fuel, ss[0], s, x);
      if out.Normal? {
        SeqLeft(vars, ops, fuel, ss[1..], out.store, x);
        LeftThen(x, s, out.store, RunSeq(Shared, ops, fuel, ss[1..], out.store));
      }
    }
  }

  lemma {:induction false} ForLeft(vars: seq<FCVar>, ops: Ops, fuel: nat, test: Option<Expr>, incr: seq<Expr>,
                                   body: seq<Stmt>, s: Store, x: Name)
    requires ScopedO(vars, test) && ScopedEs(vars, incr) && ScopedSeq(vars, body) && x !in NumVarsSeq(body)
    ensures OutLeft(x, s, RunFor(Shared, ops, fuel, test, incr, body, s))
    decreases fuel, body, 1
  {
    hide Eval, Left3, ScopedE, RunSeq, Effects, Hid;
    LeftSelf(x, s);
    var r := if test.Some? then Eval(ops, test.value, s) else Evaluated(s, Temp(Bool(true)));
    if test.Some? { EvalLeft(vars, ops, test.value, s, x); }
    if Truthy(r.Value()) {
      var out := RunSeq(Shared, ops, fuel, body, r.store);
      SeqLeft(vars, ops, fuel, body, r.store, x);
      LeftThen(x, s, r.store, out);
      if GoesRound(out) && fuel > 0 {
        var t := Effects(ops, incr, out.store);
        EffectsLeft(vars, ops, incr, out.store, x);
        ForLeft(vars, ops, fuel - 1, test, incr, body, t, x);
        LeftThen(x, out.store, t, RunFor(Shared, ops, fuel - 1, test, incr, body, t));
        LeftThen(x, s, out.store, RunFor(Shared, ops, fuel - 1, test, incr, body, t));
      }
    }
  }

  lemma {:induction false} DoLeft(vars: seq<FCVar>, ops: Ops, fuel: nat, body: seq<Stmt>, c: Expr, s: Store, x: Name)
    requires ScopedE(vars, c) && ScopedSeq(vars, body) && x !in NumVarsSeq(body)
    ensures OutLeft(x, s, RunDo(Shared, ops, fuel, body, c, s))
    decreases fuel, body, 1
  {
    hide Eval, Left3, ScopedE, RunSeq, Hid;
    var out := RunSeq(Shared, ops, fuel, body, s);
    SeqLeft(vars, ops, fuel, body, s, x);
    if GoesRound(out) {
      var r := Eval(ops, c, out.store);
      EvalLeft(vars, ops, c, out.store, x);
      LeftThen(x, s, out.store, Normal(r.store));
      if fuel > 0 {
        DoLeft(vars, ops, fuel - 1, body, c, r.store, x);
        LeftThen(x, s, r.store, RunDo(Shared, ops, fuel - 1, body, c, r.store));
      }
    }
  }

  lemma {:induction false} NumLeft(vars: seq<FCVar>, ops: Ops, fuel: nat, y: Name, cur: int, end: int, step: int,
                                   body: seq<Stmt>, s: Store, x: Name)
    requires ScopedNum(vars, y) && ScopedSeq(vars, body) && x != y && x !in NumVarsSeq(body)
    ensures OutLeft(x, s, RunNum(Shared, ops, fuel, y, cur, end, step, body, s))
    decreases fuel, body, 1
  {
    hide Left3, RunSeq, Hid, Wrap, NumGoesOn, Now;
    var s0 := s[y := Int(cur)];
    var out := RunSeq(Shared, ops, fuel, body, s0);
    SetLeft(x, s, y, Int(cur));
    SeqLeft(vars, ops, fuel, body, s0, x);
    LeftThen(x, s, s0, out);
    if GoesRound(out) {
      var now := Now(Shared, out.store, y, Numbers(cur, end, step));
      var next := Wrap(now.cur + now.step);
      var s1 := Put(Shared, out.store, y, 1, Int(next));
      PutLeft(x, out.store, y, 1, Int(next));
      SetLeft(x, s1, y, Int(next));
      LeftThen(x, s, out.store, Normal(s1));
      LeftThen(x, s, s1, Normal(s1[y := Int(next)]));
      if NumGoesOn(next, now.end, now.step) && fuel > 0 {
        NumLeft(vars, ops, fuel - 1, y, next, now.end, now.step, body, s1, x);
        LeftThen(x, s, s1, RunNum(Shared, ops, fuel - 1, y, next, now.end, now.step, body, s1));
      }
    }
  }

  /* ---- without reuse, sharing cannot be seen ---- */

  /** The three registers of `x` hold these numbers. */
  predicate Holding(s: Store, x: Name, n: Numbers) {
    Get(s, Hid(x, 1)) == Int(n.cur) && Get(s, Hid(x, 2)) == Int(n.end) && Get(s, Hid(x, 3)) == Int(n.step)
  }

  /** If no numeric loop contains another one over its variable, it makes no difference who
      keeps the numbers. */
  lemma {:induction false} OwnIsShared(vars: seq<FCVar>, ops: Ops, fuel: nat, st: Stmt, s: Store, t: Store)
    requires ScopedS(vars, st) && NoReuse(st) && Same(s, t)
    ensures SameOut(Run(Own, ops, fuel, st, s), Run(Shared, ops, fuel, st, t))
    decreases fuel, st, 2
  {
    hide Eval, Same, ScopedE, ScopedNum, Hid, RunSeq, RunFor, RunDo, RunNum, Effects;
    match st
    case ExprS(e) => EvalSame(vars, ops, e, s, t);
    case Block(ss) => SeqSame(vars, ops, fuel, ss, s, t);
    case If(c, a, f) =>
      EvalSame(vars, ops, c, s, t);
      var r, q := Eval(ops, c, s), Eval(ops, c, t);
      if Truthy(r.Value()) {
        OwnIsShared(vars, ops, fuel, a, r.store, q.store);
      } else if f.Some? {
        OwnIsShared(vars, ops, fuel, f.value, r.store, q.store);
      }
    case While(c, body) => ForSame(vars, ops, fuel, Some(c), [], body, s, t);
    case DoWhile(body, c) => DoSame(vars, ops, fuel, body, c, s, t);
    case For(init, test, incr, body) =>
      EffectsSame(vars, ops, init, s, t);
      ForSame(vars, ops, fuel, test, incr, body, Effects(ops, init, s), Effects(ops, init, t));
    case NumFor(x, start, last, stride, body) => NumForSame(vars, ops, fuel, x, start, last, stride, body, s, t);
    case Break(_) =>
    case Continue(_) =>
    case Return(e) => if e.Some? { EvalSame(vars, ops, e.value, s, t); }
    case Defer(_) =>
  }

  lemma {:induction false} SeqSame(vars: seq<FCVar>, ops: Ops, fuel: nat, ss: seq<Stmt>, s: Store, t: Store)
    requires ScopedSeq(vars, ss) && NoReuseSeq(ss) && Same(s, t)
    ensures SameOut(RunSeq(Own, ops, fuel, ss, s), RunSeq(Shared, ops, fuel, ss, t))
    decreases fuel, ss, 0
  {
    hide Same, Run;
    if ss != [] && ss[0].Defer? {
      assert ss[0] decreases to ss[0].d;
      SeqSame(vars, ops, fuel, ss[1..], s, t);
      var a, b := RunSeq(Own, ops, fuel, ss[1..], s), RunSeq(Shared, ops, fuel, ss[1..], t);
      if !a.Timeout? { OwnIsShared(vars, ops, fuel, ss[0].d, a.store, b.store); }
    } else if ss != [] {
      OwnIsShared(vars, ops, fuel, ss[0], s, t);
      var a, b := Run(Own, ops, fuel, ss[0], s), Run(Shared, ops, fuel, ss[0], t);
      if a.Normal? { SeqSame(vars, ops, fuel, ss[1..], a.store, b.store); }
    }
  }

  lemma {:induction false} ForSame(vars: seq<FCVar>, ops: Ops, fuel: nat, test: Option<Expr>, incr: seq<Expr>,
                                   body: seq<Stmt>, s: Store, t: Store)
    requires ScopedO(vars, test) && ScopedEs(vars, incr) && ScopedSeq(vars, body) && NoReuseSeq(body) && Same(s, t)
    ensures SameOut(RunFor(Own, ops, fuel, test, incr, body, s), RunFor(Shared, ops, fuel, test, incr, body, t))
    decreases fuel, body, 1
  {
    hide Same, Eval, Effects, ScopedE, RunSeq;
    var r := if test.Some? then Eval(ops, test.value, s) else Evaluated(s, Temp(Bool(true)));
    var q := if test.Some? then Eval(ops, test.value, t) else Evaluated(t, Temp(Bool(true)));
    if test.Some? { EvalSame(vars, ops, test.value, s, t); }
    if Truthy(r.Value()) {
      SeqSame(vars, ops, fuel, body, r.store, q.store);
      var a, b := RunSeq(Own, ops, fuel, body, r.store), RunSeq(Shared, ops, fuel, body, q.store);
      if GoesRound(a) && fuel > 0 {
        EffectsSame(vars, ops, incr, a.store, b.store);
        ForSame(vars, ops, fuel - 1, test, incr, body, Effects(ops, incr, a.store), Effects(ops, incr, b.store));
      }
    }
  }

  lemma {:induction false} DoSame(vars: seq<FCVar>, ops: Ops, fuel: nat, body: seq<Stmt>, c: Expr, s: Store, t: Store)
    requires ScopedE(vars, c) && ScopedSeq(vars, body) && NoReuseSeq(body) && Same(s, t)
    ensures SameOut(RunDo(Own, ops, fuel, body, c, s), RunDo(Shared, ops, fuel, body, c, t))
    decreases fuel, body, 1
  {
    hide Same, Eval, ScopedE, RunSeq;
    SeqSame(vars, ops, fuel, body, s, t);
    var a, b := RunSeq(Own, ops, fuel, body, s), RunSeq(Shared, ops, fuel, body, t);
    if GoesRound(a) {
      EvalSame(vars, ops, c, a.store, b.store);
      if fuel > 0 { DoSame(vars, ops, fuel - 1, body, c, Eval(ops, c, a.store).store, Eval(ops, c, b.store).store); }
    }
  }

  lemma {:induction false} NumSame(vars: seq<FCVar>, ops: Ops, fuel: nat, x: Name, cur: int, end: int, step: int,
                                   body: seq<Stmt>, s: Store, t: Store)
    requires ScopedNum(vars, x) && ScopedSeq(vars, body) && NoReuseSeq(body) && x !in NumVarsSeq(body)
    requires Same(s, t) && Holding(t, x, Numbers(cur, end, step))
    ensures SameOut(RunNum(Own, ops, fuel, x, cur, end, step, body, s),
            RunNum(Shared, ops, fuel, x, cur, end, step, body, t))
    decreases fuel, body, 1
  {
    hide Same, RunSeq, Hid, Wrap, NumGoesOn;
    var s0, t0 := s[x := Int(cur)], t[x := Int(cur)];
    SameSet(s, t, x, Int(cur));
    SeqSame(vars, ops, fuel, body, s0, t0);
    var a, b := RunSeq(Own, ops, fuel, body, s0), RunSeq(Shared, ops, fuel, body, t0);
    if GoesRound(a) {
      SetLeft(x, t, x, Int(cur));
      SeqLeft(vars, ops, fuel, body, t0, x);
      var next := Wrap(cur + step);
      var t1 := b.store[Hid(x, 1) := Int(next)];
      HidApart(x, 1, x, 2);
      HidApart(x, 1, x, 3);
      SameHid(a.store, b.store, x, 1, Int(next));
      SameSet(a.store, t1, x, Int(next));
      if NumGoesOn(next, end, step) && fuel > 0 {
        NumSame(vars, ops, fuel - 1, x, next, end, step, body, a.store, t1);
      }
    }
  }

  lemma {:induction false} NumForSame(vars: seq<FCVar>, ops: Ops, fuel: nat, x: Name, start: Option<Expr>, last: Expr,
                                      stride: Option<Expr>, body: seq<Stmt>, s: Store, t: Store)
    requires ScopedS(vars, NumFor(x, start, last, stride, body)) && Same(s, t)
    requires NoReuseSeq(body) && x !in NumVarsSeq(body)
    ensures var st := NumFor(x, start, last, stride, body);
            SameOut(Run(Own, ops, fuel, st, s), Run(Shared, ops, fuel, st, t))
    decreases fuel, body, 2
  {
    hide Eval, ScopedE, Hid, RunNum, Same;
    var r1 := if start.Some? then Eval(ops, start.value, s) else Evaluated(s, Temp(Int(0)));
    var q1 := if start.Some? then Eval(ops, start.value, t) else Evaluated(t, Temp(Int(0)));
    if start.Some? { EvalSame(vars, ops, start.value, s, t); }
    var t1 := Put(Shared, q1.store, x, 1, q1.Value());
    SameHid(r1.store, q1.store, x, 1, q1.Value());
    var r2, q2 := Eval(ops, last, r1.store), Eval(ops, last, t1);
    EvalSame(vars, ops, last, r1.store, t1);
    var t2 := Put(Shared, q2.store, x, 2, q2.Value());
    SameHid(r2.store, q2.store, x, 2, q2.Value());
    var r3 := if stride.Some? then Eval(ops, stride.value, r2.store) else Evaluated(r2.store, Temp(Int(1)));
    var q3 := if stride.Some? then Eval(ops, stride.value, t2) else Evaluated(t2, Temp(Int(1)));
    if stride.Some? { EvalSame(vars, ops, stride.value, r2.store, t2); }
    var t3 := Put(Shared, q3.store, x, 3, q3.Value());
    SameHid(r3.store, q3.store, x, 3, q3.Value());
    var cur, end, step := ToInt(r1.Value()), ToInt(r2.Value()), ToInt(r3.Value());
    var t4 := PutAll(Shared, t3, x, cur, end, step);
    PutAllSame(r3.store, t3, x, cur, end, step);
    SameSet(r3.store, t4, x, Int(cur));
    if NumGoesOn(cur, end, step) { NumSame(vars, ops, fuel, x, cur, end, step, body, r3.store, t4); }
  }

  lemma {:induction false} PutAllSame(s: Store, t: Store, x: Name, cur: int, end: int, step: int)
    requires Same(s, t)
    ensures var u := PutAll(Shared, t, x, cur, end, step); Same(s, u) && Holding(u, x, Numbers(cur, end, step))
  {
    hide Hid, Same;
    var a := Put(Shared, t, x, 1, Int(cur));
    var b := Put(Shared, a, x, 2, Int(end));
    SameHid(s, t, x, 1, Int(cur));
    SameHid(s, a, x, 2, Int(end));
    SameHid(s, b, x, 3, Int(step));
    HidApart(x, 1, x, 2);
    HidApart(x, 1, x, 3);
    HidApart(x, 2, x, 3);
  }

  /* ---- registers as a store ---- */

  /** The store with what the registers from number `i` on say about hidden registers. */
  ghost function Fill(vars: seq<FCVar>, s: Store, regs: seq<Value>, i: nat): Store
    requires |vars| <= |regs|
    decreases |vars| - i
  {
    if i >= |vars| then s
    else
      var t := Fill(vars, s, regs, i + 1);
      if HasHidden(vars, i) then Put3(t, vars[i].name, regs[i + 1], regs[i + 2], regs[i + 3]) else t
  }

  function Put3(s: Store, x: Name, u: Value, v: Value, w: Value): Store {
    s[Hid(x, 1) := u][Hid(x, 2) := v][Hid(x, 3) := w]
  }

  lemma {:induction false} Put3At(s: Store, x: Name, u: Value, v: Value, w: Value)
    ensures var t := Put3(s, x, u, v, w);
            && Same(s, t) && Get(t, Hid(x, 1)) == u && Get(t, Hid(x, 2)) == v && Get(t, Hid(x, 3)) == w
            && forall y | y != x :: Left3(y, s, t)
  {
    hide Hid, Same, Left3;
    HidApart(x, 1, x, 2);
    HidApart(x, 1, x, 3);
    HidApart(x, 2, x, 3);
    var a := s[Hid(x, 1) := u];
    var b := a[Hid(x, 2) := v];
    assert Same(s, s) by { SameSelf(s); }
    SameHid(s, s, x, 1, u);
    SameHid(s, a, x, 2, v);
    SameHid(s, b, x, 3, w);
    forall y | y != x ensures Left3(y, s, Put3(s, x, u, v, w)) {
      PutLeft(y, s, x, 1, u);
      PutLeft(y, a, x, 2, v);
      PutLeft(y, b, x, 3, w);
      LeftThen(y, s, a, Normal(b));
      LeftThen(y, s, b, Normal(Put3(s, x, u, v, w)));
    }
  }

  lemma {:induction false} SameSelf(s: Store)
    ensures Same(s, s)
  {
  }

  lemma {:induction false} SameTrans(s: Store, t: Store, u: Store)
    requires Same(s, t) && Same(t, u)
    ensures Same(s, u)
  {
  }

  lemma {:induction false} FillAt(vars: seq<FCVar>, s: Store, regs: seq<Value>, i: nat)
    requires |vars| <= |regs|
    ensures var t := Fill(vars, s, regs, i);
            && Same(s, t)
            && forall x | ScopedNum(vars, x) && HasHidden(vars, Find(vars, x)) && Find(vars, x) >= i ::
                 TracksAt(t, regs, x, Find(vars, x))
    decreases |vars| - i
  {
    hide Hid, Same, HasHidden, IsHidden, Find;
    SameSelf(s);
    if i < |vars| {
      FillAt(vars, s, regs, i + 1);
      var t := Fill(vars, s, regs, i + 1);
      if HasHidden(vars, i) {
        assert i + 3 < |vars| by { HiddenRoom(vars, i); }
        Put3At(t, vars[i].name, regs[i + 1], regs[i + 2], regs[i + 3]);
        SameTrans(s, t, Fill(vars, s, regs, i));
      }
      forall x | ScopedNum(vars, x) && HasHidden(vars, Find(vars, x)) && Find(vars, x) >= i
        ensures Find(vars, x) + 3 < |vars| && TracksAt(Fill(vars, s, regs, i), regs, x, Find(vars, x))
      {
        HiddenRoom(vars, Find(vars, x));
        if HasHidden(vars, i) && vars[i].name != x { assert Left3(x, t, Fill(vars, s, regs, i)); }
      }
    }
  }

  lemma {:induction false} HiddenRoom(vars: seq<FCVar>, r: int)
    requires HasHidden(vars, r)
    ensures 0 <= r && r + 3 < |vars|
  {
  }

  /** Registers that hold the variables hold a store that differs in hidden names only. */
  lemma {:induction false} Filled(vars: seq<FCVar>, s: Store, regs: seq<Value>)
    requires Rel(vars, s, regs)
    ensures var t := Fill(vars, s, regs, 0); Same(s, t) && Held(vars, t, regs)
  {
    hide Fill, HasHidden, TracksAt;
    FillAt(vars, s, regs, 0);
  }
}
