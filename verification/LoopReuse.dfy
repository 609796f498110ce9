/** A numeric loop inside another one over the same variable: the outer loop makes one round
    at most, because it finds the numbers of the inner one in the registers they share. */
module LoopReuse {
  import opened Bytecode
  import opened Source
  import opened Compile
  import opened ExprProof
  import opened StmtProof
  import opened SharedLoops
  import opened SourceFacts

  /* ---- statements that only end by finishing ---- */

  /** No break, continue or return. */
  predicate Calm(s: Stmt)
    decreases s, 1
  {
    match s
    case Block(ss) => CalmSeq(ss)
    case If(_, t, f) => Calm(t) && (f.Some? ==> Calm(f.value))
    case While(_, body) => CalmSeq(body)
    case DoWhile(body, _) => CalmSeq(body)
    case For(_, _, _, body) => CalmSeq(body)
    case NumFor(_, _, _, _, body) => CalmSeq(body)
    case Break(_) => false
    case Continue(_) => false
    case Return(_) => false
    case Defer(d) => Calm(d)
    case ExprS(_) => true
  }

  predicate CalmSeq(ss: seq<Stmt>)
    decreases ss, 0
  {
    ss != [] ==> Calm(ss[0]) && CalmSeq(ss[1..])
  }

  /** Running the statement runs a loop over `x`. */
  predicate Surely(x: Name, s: Stmt)
    decreases s, 1
  {
    match s
    case NumFor(y, _, _, _, _) => y == x
    case Block(ss) => SurelySeq(x, ss)
    case If(_, t, f) => Surely(x, t) && f.Some? && Surely(x, f.value)
    case DoWhile(body, _) => SurelySeq(x, body)
    case _ => false
  }

  predicate SurelySeq(x: Name, ss: seq<Stmt>)
    decreases ss, 0
  {
    ss != [] && (Surely(x, ss[0]) || SurelySeq(x, ss[1..]))
  }

  /** The loop whose numbers the registers of `x` hold is over. */
  predicate Over(s: Store, x: Name) {
    var n := Now(Shared, s, x, Numbers(0, 0, 0));
    !NumGoesOn(n.cur, n.end, n.step)
  }

  lemma {:induction false} OverLeft(x: Name, s: Store, t: Store)
    requires Over(s, x) && Left3(x, s, t)
    ensures Over(t, x)
  {
  }

  /** It has ended, if it has ended, with the loop over `x` over. */
  predicate EndsOver(out: Outcome, x: Name) {
    out.Timeout? || (out.Normal? && Over(out.store, x))
  }

  predicate Finishes(out: Outcome) {
    out.Timeout? || out.Normal?
  }

  /** Of a calm run: it finishes, with a loop over `x` over if there was one (`some`). */
  predicate KeepsOver(x: Name, some: bool, out: Outcome) {
    Finishes(out) && (some ==> EndsOver(out, x))
  }

  lemma {:induction false} RunOver(m: LoopMode, vars: seq<FCVar>, ops: Ops, fuel: nat, st: Stmt, s: Store, x: Name)
    requires ScopedS(vars, st) && Calm(st)
    ensures KeepsOver(x, m == Shared && (Over(s, x) || Surely(x, st)), Run(m, ops, fuel, st, s))
    decreases fuel, st, 2
  {
    hide Eval, Over, ScopedE, ScopedNum, RunSeq, RunFor, RunDo, RunNum, Left3, Effects;
    match st
    case ExprS(e) =>
      EvalLeft(vars, ops, e, s, x);
      if Over(s, x) { OverLeft(x, s, Eval(ops, e, s).store); }
    case Block(ss) => SeqOver(m, vars, ops, fuel, ss, s, x);
    case If(c, t, f) =>
      var r := Eval(ops, c, s);
      EvalLeft(vars, ops, c, s, x);
      if Over(s, x) { OverLeft(x, s, r.store); }
      if Truthy(r.Value()) {
        RunOver(m, vars, ops, fuel, t, r.store, x);
      } else if f.Some? {
        RunOver(m, vars, ops, fuel, f.value, r.store, x);
      }
    case While(c, body) => ForOver(m, vars, ops, fuel, Some(c), [], body, s, x);
    case DoWhile(body, c) => DoOver(m, vars, ops, fuel, body, c, s, x);
    case For(init, test, incr, body) =>
      EffectsLeft(vars, ops, init, s, x);
      if Over(s, x) { OverLeft(x, s, Effects(ops, init, s)); }
      ForOver(m, vars, ops, fuel, test, incr, body, Effects(ops, init, s), x);
    case NumFor(y, start, last, stride, body) => NumForOver(m, vars, ops, fuel, y, start, last, stride, body, s, x);
    case Defer(_) =>
  }

  lemma {:induction false} SeqOver(m: LoopMode, vars: seq<FCVar>, ops: Ops, fuel: nat, ss: seq<Stmt>, s: Store, x: Name)
    requires ScopedSeq(vars, ss) && CalmSeq(ss)
    ensures KeepsOver(x, m == Shared && (Over(s, x) || SurelySeq(x, ss)), RunSeq(m, ops, fuel, ss, s))
    decreases fuel, ss, 0
  {
    hide Over, Run;
    if ss != [] && ss[0].Defer? {
      assert ss[0] decreases to ss[0].d;
      SeqOver(m, vars, ops, fuel, ss[1..], s, x);
      var out := RunSeq(m, ops, fuel, ss[1..], s);
      if !out.Timeout? { RunOver(m, vars, ops, fuel, ss[0].d, out.store, x); }
    } else if ss != [] {
      RunOver(m, vars, ops, fuel, ss[0], s, x);
      var out := Run(m, ops, fuel, ss[0], s);
      if out.Normal? { SeqOver(m, vars, ops, fuel, ss[1..], out.store, x); }
    }
  }

  lemma {:induction false} ForOver(m: LoopMode, vars: seq<FCVar>, ops: Ops, fuel: nat, test: Option<Expr>,
                          incr: seq<Expr>,
                                   body: seq<Stmt>, s: Store, x: Name)
    requires ScopedO(vars, test) && ScopedEs(vars, incr) && ScopedSeq(vars, body) && CalmSeq(body)
    ensures KeepsOver(x, m == Shared && Over(s, x), RunFor(m, ops, fuel, test, incr, body, s))
    decreases fuel, body, 1
  {
    hide Eval, Over, ScopedE, RunSeq, Effects, Left3;
    var r := if test.Some? then Eval(ops, test.value, s) else Evaluated(s, Temp(Bool(true)));
    if test.Some? {
      EvalLeft(vars, ops, test.value, s, x);
      if Over(s, x) { OverLeft(x, s, r.store); }
    }
    if Truthy(r.Value()) {
      SeqOver(m, vars, ops, fuel, body, r.store, x);
      var out := RunSeq(m, ops, fuel, body, r.store);
      if out.Normal? && fuel > 0 {
        var t := Effects(ops, incr, out.store);
        EffectsLeft(vars, ops, incr, out.store, x);
        if Over(out.store, x) { OverLeft(x, out.store, t); }
        ForOver(m, vars, ops, fuel - 1, test, incr, body, t, x);
      }
    }
  }

  lemma {:induction false} DoOver(m: LoopMode, vars: seq<FCVar>, ops: Ops, fuel: nat, body: seq<Stmt>, c: Expr,
                          s: Store, x: Name)
    requires ScopedE(vars, c) && ScopedSeq(vars, body) && CalmSeq(body)
    ensures KeepsOver(x, m == Shared && (Over(s, x) || SurelySeq(x, body)), RunDo(m, ops, fuel, body, c, s))
    decreases fuel, body, 1
  {
    hide Eval, Over, ScopedE, RunSeq, Left3;
    SeqOver(m, vars, ops, fuel, body, s, x);
    var out := RunSeq(m, ops, fuel, body, s);
    if out.Normal? {
      var r := Eval(ops, c, out.store);
      EvalLeft(vars, ops, c, out.store, x);
      if Over(out.store, x) { OverLeft(x, out.store, r.store); }
      if fuel > 0 { DoOver(m, vars, ops, fuel - 1, body, c, r.store, x); }
    }
  }

  /** A loop over `x` that is over is over, whatever its body has done to its numbers. */
  lemma {:induction false} PutOver(s: Store, x: Name, next: int, v: Value)
    requires !IsHidden(x)
    requires var n := Now(Shared, s, x, Numbers(0, 0, 0)); !NumGoesOn(next, n.end, n.step)
    ensures Over(Put(Shared, s, x, 1, Int(next))[x := v], x)
  {
    hide IsHidden, Hid;
    HidApart(x, 1, x, 2);
    HidApart(x, 1, x, 3);
    HidVisible(x, x);
  }

  lemma {:induction false} NumOver(m: LoopMode, vars: seq<FCVar>, ops: Ops, fuel: nat, y: Name, cur: int, end: int,
                          step: int,
                                   body: seq<Stmt>, s: Store, x: Name)
    requires ScopedNum(vars, y) && ScopedSeq(vars, body) && CalmSeq(body)
    ensures KeepsOver(x, m == Shared && (Over(s, x) || x == y), RunNum(m, ops, fuel, y, cur, end, step, body, s))
    decreases fuel, body, 1
  {
    hide Over, RunSeq, Left3, Hid, Wrap, NumGoesOn, Now;
    var s0 := s[y := Int(cur)];
    SetLeft(x, s, y, Int(cur));
    if Over(s, x) { OverLeft(x, s, s0); }
    SeqOver(m, vars, ops, fuel, body, s0, x);
    var out := RunSeq(m, ops, fuel, body, s0);
    if out.Normal? {
      var now := Now(m, out.store, y, Numbers(cur, end, step));
      var next := Wrap(now.cur + now.step);
      var s1 := Put(m, out.store, y, 1, Int(next));
      NowAny(out.store, y, Numbers(cur, end, step), Numbers(0, 0, 0));
      if m == Shared && x != y {
        PutLeft(x, out.store, y, 1, Int(next));
        SetLeft(x, s1, y, Int(next));
        if Over(out.store, x) {
          OverLeft(x, out.store, s1);
          OverLeft(x, s1, s1[y := Int(next)]);
        }
      } else if m == Shared && !NumGoesOn(next, now.end, now.step) {
        PutOver(out.store, x, next, Int(next));
      }
      if NumGoesOn(next, now.end, now.step) && fuel > 0 {
        NumOver(m, vars, ops, fuel - 1, y, next, now.end, now.step, body, s1, x);
      }
    }
  }

  lemma {:induction false} NowAny(s: Store, x: Name, a: Numbers, b: Numbers)
    ensures Now(Shared, s, x, a) == Now(Shared, s, x, b)
  {
  }

  lemma {:induction false} NumForOver(m: LoopMode, vars: seq<FCVar>, ops: Ops, fuel: nat, y: Name,
                          start: Option<Expr>, last: Expr,
                                      stride: Option<Expr>, body: seq<Stmt>, s: Store, x: Name)
    requires ScopedS(vars, NumFor(y, start, last, stride, body)) && CalmSeq(body)
    ensures KeepsOver(x, m == Shared
            && (Over(s, x) || x == y), Run(m, ops, fuel, NumFor(y, start, last, stride, body), s))
    decreases fuel, body, 2
  {
    hide Eval, ScopedE, Hid, RunNum, Over, NumGoesOn, Left3, PutAll;
    var r1 := if start.Some? then Eval(ops, start.value, s) else Evaluated(s, Temp(Int(0)));
    var r2 := Eval(ops, last, Put(m, r1.store, y, 1, r1.Value()));
    var s2 := Put(m, r2.store, y, 2, r2.Value());
    var r3 := if stride.Some? then Eval(ops, stride.value, s2) else Evaluated(s2, Temp(Int(1)));
    var s3 := Put(m, r3.store, y, 3, r3.Value());
    var cur, end, step := ToInt(r1.Value()), ToInt(r2.Value()), ToInt(r3.Value());
    var s4 := PutAll(m, s3, y, cur, end, step);
    if m == Shared && x != y {
      BoundsLeft(vars, ops, y, start, last, stride, s, x);
      SetLeft(x, s4, y, Int(cur));
      if Over(s, x) {
        OverLeft(x, s, s4);
        OverLeft(x, s4, s4[y := Int(cur)]);
      }
    } else if m == Shared && !NumGoesOn(cur, end, step) {
      AllOver(s3, x, cur, end, step);
    }
    if NumGoesOn(cur, end, step) { NumOver(m, vars, ops, fuel, y, cur, end, step, body, s4, x); }
  }

  lemma {:induction false} AllOver(s: Store, x: Name, cur: int, end: int, step: int)
    requires !IsHidden(x) && !NumGoesOn(cur, end, step)
    ensures Over(PutAll(Shared, s, x, cur, end, step)[x := Int(cur)], x)
  {
    hide Hid, Same, IsHidden;
    SameSelf(s);
    PutAllSame(s, s, x, cur, end, step);
    HidVisible(x, x);
  }

  /* ---- how often the outer loop goes round ---- */

  /** How many rounds a numeric loop makes that has begun its first one. */
  function Made(m: LoopMode, ops: Ops, fuel: nat, x: Name, cur: int, end: int, step: int, body: seq<Stmt>,
                s: Store): nat
    decreases fuel
  {
    var out := RunSeq(m, ops, fuel, body, s[x := Int(cur)]);
    if !GoesRound(out) then 1
    else
      var now := Now(m, out.store, x, Numbers(cur, end, step));
      var next := Wrap(now.cur + now.step);
      if !NumGoesOn(next, now.end, now.step) || fuel == 0 then 1
      else 1 + Made(m, ops, fuel - 1, x, next, now.end, now.step, body, Put(m, out.store, x, 1, Int(next)))
  }

  /** A loop that keeps its own numbers makes all its rounds. */
  lemma {:induction false} OwnMade(vars: seq<FCVar>, ops: Ops, fuel: nat, x: Name, cur: int, end: int, step: int,
                                   body: seq<Stmt>, s: Store)
    requires ScopedSeq(vars, body) && CalmSeq(body) && step != 0 && NumGoesOn(cur, end, step)
    requires InInt64(cur) && InInt64(cur + Trips(cur, end, step) * step)
    requires RunNum(Own, ops, fuel, x, cur, end, step, body, s).Normal?
    ensures Made(Own, ops, fuel, x, cur, end, step, body, s) == Trips(cur, end, step)
    decreases fuel
  {
    hide RunSeq, Trips, Wrap, Over, ScopedS, Calm;
    SeqOver(Own, vars, ops, fuel, body, s[x := Int(cur)], x);
    TripsNext(cur, end, step);
    var n, next := Trips(cur, end, step), cur + step;
    assert next + (n - 1) * step == cur + n * step;
    Between(cur, step, n);
    var out := RunSeq(Own, ops, fuel, body, s[x := Int(cur)]);
    assert Wrap(next) == next;
    if NumGoesOn(next, end, step) {
      OwnMade(vars, ops, fuel - 1, x, next, end, step, body, out.store);
    } else {
      TripsNone(next, end, step);
    }
  }

  /** If the registers hold the numbers of a loop that is over, its next number would not
      bring it back, but for an overflow. */
  lemma {:induction false} StaysOver(s: Store, x: Name, own: Numbers)
    requires Over(s, x)
    ensures var n := Now(Shared, s, x, own); InInt64(n.cur + n.step) ==> !NumGoesOn(Wrap(n.cur + n.step), n.end, n.step)
  {
    NowAny(s, x, own, Numbers(0, 0, 0));
  }

  /** A loop whose body surely runs another one over the same variable makes one round. */
  lemma {:induction false} SharedMade(vars: seq<FCVar>, ops: Ops, fuel: nat, x: Name, cur: int, end: int, step: int,
                                      body: seq<Stmt>, s: Store)
    requires ScopedSeq(vars, body) && CalmSeq(body) && SurelySeq(x, body)
    requires var out := RunSeq(Shared, ops, fuel, body, s[x := Int(cur)]);
             out.Normal? ==> var n := Now(Shared, out.store, x, Numbers(cur, end, step)); InInt64(n.cur + n.step)
    ensures Made(Shared, ops, fuel, x, cur, end, step, body, s) == 1
    ensures var out := RunSeq(Shared, ops, fuel, body, s[x := Int(cur)]);
            RunNum(Shared, ops, fuel, x, cur, end, step, body, s) ==
            if out.Timeout? then Timeout
            else
              var n := Now(Shared, out.store, x, Numbers(cur, end, step));
              Normal(Put(Shared, out.store, x, 1, Int(n.cur + n.step))[x := Int(n.cur + n.step)])
  {
    hide RunSeq, Wrap, Over, Now, Put, ScopedS, Calm, NumGoesOn;
    SeqOver(Shared, vars, ops, fuel, body, s[x := Int(cur)], x);
    var out := RunSeq(Shared, ops, fuel, body, s[x := Int(cur)]);
    if out.Normal? { StaysOver(out.store, x, Numbers(cur, end, step)); }
  }

  /* ---- with constant bounds ---- */

  function Const3(x: Name, a: int, b: int, d: int, body: seq<Stmt>): Stmt {
    NumFor(x, Some(Const(Int(a))), Const(Int(b)), Some(Const(Int(d))), body)
  }

  /** The numbers that such a loop ends with. */
  function Last(a: int, b: int, d: int): Numbers
    requires d != 0
  {
    Numbers(a + Trips(a, b, d) * d, b, d)
  }

  lemma {:induction false} HeldNow(s: Store, x: Name, n: Numbers, own: Numbers)
    requires Holding(s, x, n)
    ensures Now(Shared, s, x, own) == n
  {
  }

  lemma {:induction false} HoldingLeft(s: Store, t: Store, x: Name, n: Numbers)
    requires Holding(s, x, n) && Left3(x, s, t)
    ensures Holding(t, x, n)
  {
  }

  lemma {:induction false} HoldingNext(s: Store, x: Name, n: Numbers, next: int, v: Value)
    requires Holding(s, x, n) && !IsHidden(x)
    ensures Holding(Put(Shared, s, x, 1, Int(next)), x, n.(cur := next))
    ensures Holding(Put(Shared, s, x, 1, Int(next))[x := v], x, n.(cur := next))
  {
    hide IsHidden, Hid;
    HidApart(x, 1, x, 2);
    HidApart(x, 1, x, 3);
    HidVisible(x, x);
  }

  lemma {:induction false} ConstNum(vars: seq<FCVar>, ops: Ops, fuel: nat, x: Name, cur: int, b: int, d: int,
                                    body: seq<Stmt>, s: Store)
    requires ScopedNum(vars, x) && ScopedSeq(vars, body) && CalmSeq(body) && x !in NumVarsSeq(body)
    requires d != 0 && NumGoesOn(cur, b, d) && InInt64(cur) && InInt64(cur + Trips(cur, b, d) * d)
    requires Holding(s, x, Numbers(cur, b, d))
    ensures var out := RunNum(Shared, ops, fuel, x, cur, b, d, body, s);
            out.Normal? ==> Holding(out.store, x, Last(cur, b, d))
    decreases fuel
  {
    hide RunSeq, Trips, Wrap, Over, ScopedS, Calm, Holding, Now, Put, Left3;
    var s0 := s[x := Int(cur)];
    SeqOver(Shared, vars, ops, fuel, body, s0, x);
    SetLeft(x, s, x, Int(cur));
    SeqLeft(vars, ops, fuel, body, s0, x);
    var out := RunSeq(Shared, ops, fuel, body, s0);
    TripsNext(cur, b, d);
    var n, next := Trips(cur, b, d), cur + d;
    assert next + (n - 1) * d == cur + n * d;
    Between(cur, d, n);
    if out.Normal? {
      HoldingLeft(s, s0, x, Numbers(cur, b, d));
      HoldingLeft(s0, out.store, x, Numbers(cur, b, d));
      HeldNow(out.store, x, Numbers(cur, b, d), Numbers(cur, b, d));
      assert Wrap(next) == next;
      HoldingNext(out.store, x, Numbers(cur, b, d), next, Int(next));
      if !NumGoesOn(next, b, d) {
        TripsNone(next, b, d);
      } else if fuel > 0 {
        ConstNum(vars, ops, fuel - 1, x, next, b, d, body, Put(Shared, out.store, x, 1, Int(next)));
      }
    }
  }

  lemma {:induction false} ConstFor(vars: seq<FCVar>, ops: Ops, fuel: nat, x: Name, a: int, b: int, d: int,
                                    body: seq<Stmt>, s: Store)
    requires ScopedS(vars, Const3(x, a, b, d, body)) && CalmSeq(body) && x !in NumVarsSeq(body)
    requires d != 0 && InInt64(a) && InInt64(a + Trips(a, b, d) * d)
    ensures var out := Run(Shared, ops, fuel, Const3(x, a, b, d, body), s);
            out.Normal? ==> Holding(out.store, x, Last(a, b, d))
  {
    hide RunNum, Trips, Holding, PutAll, Same, NumGoesOn;
    var s1 := Put(Shared, s, x, 1, Int(a));
    var s2 := Put(Shared, s1, x, 2, Int(b));
    var s3 := Put(Shared, s2, x, 3, Int(d));
    var s4 := PutAll(Shared, s3, x, a, b, d);
    SameSelf(s3);
    PutAllSame(s3, s3, x, a, b, d);
    if NumGoesOn(a, b, d) {
      ConstNum(vars, ops, fuel, x, a, b, d, body, s4);
    } else {
      TripsNone(a, b, d);
      SetLeft(x, s4, x, Int(a));
      HoldingLeft(s4, s4[x := Int(a)], x, Numbers(a, b, d));
    }
  }

  /** Statement `i` is the last one of the list that can run a loop over `x`. */
  predicate LastAt(x: Name, ss: seq<Stmt>, i: nat)
    requires i < |ss|
  {
    !ss[i].Defer? && x !in NumVarsSeq(ss[i + 1..]) && forall j | 0 <= j < i && ss[j].Defer? :: x !in NumVars(ss[j])
  }

  lemma {:induction false} ConstSeq(vars: seq<FCVar>, ops: Ops, fuel: nat, x: Name, a: int, b: int, d: int,
                                    inner: seq<Stmt>, ss: seq<Stmt>, i: nat, s: Store)
    requires ScopedSeq(vars, ss) && CalmSeq(ss) && i < |ss| && LastAt(x, ss, i) && ss[i] == Const3(x, a, b, d, inner)
    requires x !in NumVarsSeq(inner) && d != 0 && InInt64(a) && InInt64(a + Trips(a, b, d) * d)
    ensures SurelySeq(x, ss)
    ensures var out := RunSeq(Shared, ops, fuel, ss, s);
            out.Normal? ==> Holding(out.store, x, Last(a, b, d))
    decreases i
  {
    hide Run, Trips, Holding, Over, Left3;
    var rest := ss[1..];
    if i == 0 {
      assert CalmSeq(inner) && ss[0 + 1..] == rest;
      ConstFor(vars, ops, fuel, x, a, b, d, inner, s);
      RunOver(Shared, vars, ops, fuel, ss[0], s, x);
      var out := Run(Shared, ops, fuel, ss[0], s);
      if out.Normal? {
        SeqOver(Shared, vars, ops, fuel, rest, out.store, x);
        SeqLeft(vars, ops, fuel, rest, out.store, x);
        var last := RunSeq(Shared, ops, fuel, rest, out.store);
        if last.Normal? { HoldingLeft(out.store, last.store, x, Last(a, b, d)); }
      }
    } else {
      assert rest[i - 1] == ss[i] && rest[i - 1 + 1..] == ss[i + 1..] && forall j | 0 <= j < i - 1 ::
             rest[j] == ss[j + 1];
      if ss[0].Defer? {
        assert ss[0] decreases to ss[0].d;
        ConstSeq(vars, ops, fuel, x, a, b, d, inner, rest, i - 1, s);
        var out := RunSeq(Shared, ops, fuel, rest, s);
        SeqOver(Shared, vars, ops, fuel, rest, s, x);
        if out.Normal? {
          RunOver(Shared, vars, ops, fuel, ss[0].d, out.store, x);
          RunLeft(vars, ops, fuel, ss[0].d, out.store, x);
          var last := Run(Shared, ops, fuel, ss[0].d, out.store);
          if last.Normal? { HoldingLeft(out.store, last.store, x, Last(a, b, d)); }
        }
      } else {
        RunOver(Shared, vars, ops, fuel, ss[0], s, x);
        var out := Run(Shared, ops, fuel, ss[0], s);
        ConstSeq(vars, ops, fuel, x, a, b, d, inner, rest, i - 1, if out.Timeout? then s else out.store);
      }
    }
  }

  /** Reuse, exactly.  A numeric loop whose body surely runs, and finishes, another one over
      the same variable with constant bounds makes one round as compiled.  Keeping its own
      numbers it would make all of them; so the two agree exactly if there is one at most. */
  lemma ReuseExactly(vars: seq<FCVar>, ops: Ops, fuel: nat, x: Name, cur: int, end: int, step: int, body: seq<Stmt>,
                     i: nat, a: int, b: int, d: int, inner: seq<Stmt>, s: Store, t: Store)
    requires ScopedSeq(vars, body) && CalmSeq(body) && i < |body| && LastAt(x, body, i)
    requires body[i] == Const3(x, a, b, d, inner) && x !in NumVarsSeq(inner)
    requires d != 0 && InInt64(a) && InInt64(a + Trips(a, b, d) * d) && InInt64(a + Trips(a, b, d) * d + d)
    requires step != 0 && NumGoesOn(cur, end, step) && InInt64(cur) && InInt64(cur + Trips(cur, end, step) * step)
    requires RunNum(Own, ops, fuel, x, cur, end, step, body, s).Normal?
    ensures Made(Shared, ops, fuel, x, cur, end, step, body, t) == 1
    ensures Made(Shared, ops, fuel, x, cur, end, step, body, t) == Made(Own, ops, fuel, x, cur, end, step, body, s)
            <==> Trips(cur, end, step) <= 1
    ensures var out := RunNum(Shared, ops, fuel, x, cur, end, step, body, t);
            out.Timeout? || (out.Normal? && Get(out.store, x) == Int(a + Trips(a, b, d) * d + d))
  {
    hide RunSeq, RunNum, Made, Trips, Holding, Now, Put, Calm, ScopedS, Over;
    ConstSeq(vars, ops, fuel, x, a, b, d, inner, body, i, t[x := Int(cur)]);
    SeqOver(Shared, vars, ops, fuel, body, t[x := Int(cur)], x);
    var out := RunSeq(Shared, ops, fuel, body, t[x := Int(cur)]);
    if out.Normal? { HeldNow(out.store, x, Last(a, b, d), Numbers(cur, end, step)); }
    SharedMade(vars, ops, fuel, x, cur, end, step, body, t);
    OwnMade(vars, ops, fuel, x, cur, end, step, body, s);
    TripsNext(cur, end, step);
  }
}
