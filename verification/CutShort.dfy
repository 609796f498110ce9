/** A function with a numeric loop inside another one over the same variable, from its source
    to the words that run: it counts to 1 and not to 3. */
module CutShort {
  import opened Bytecode
  import opened Source
  import opened Compile
  import opened ExprProof
  import opened StmtProof
  import opened SharedLoops
  import opened SourceFacts
  import opened FunctionProof
  import opened LoopReuse

  /* ---- what it does ---- */

  /** The variables of `c = 0; for i : (0, 3, 1) { for i : (0, 1, 1) {} ++c; } return c;` */
  const COUNT_VARS: seq<FCVar> := Expand([FCVar("i", true), FCVar("c", false)])

  function Inner(): Stmt {
    Const3("i", 0, 1, 1, [])
  }

  function Round(): seq<Stmt> {
    [Inner(), ExprS(Bump(true, false, "c"))]
  }

  function Count(): Stmt {
    Block([ExprS(Assign("c", Const(Int(0)))), Const3("i", 0, 3, 1, Round()), Return(Some(Var("c")))])
  }

  /** The store in which such a loop begins its first round. */
  function Entered(m: LoopMode, s: Store, x: Name, a: int, b: int, d: int): Store {
    PutAll(m, Put(m, Put(m, Put(m, s, x, 1, Int(a)), x, 2, Int(b)), x, 3, Int(d)), x, a, b, d)
  }

  lemma {:induction false} ConstEnters(m: LoopMode, ops: Ops, fuel: nat, x: Name, a: int, b: int, d: int,
                                       body: seq<Stmt>, s: Store)
    requires NumGoesOn(a, b, d)
    ensures Run(m, ops, fuel, Const3(x, a, b, d, body), s)
            == RunNum(m, ops, fuel, x, a, b, d, body, Entered(m, s, x, a, b, d))
  {
    hide RunNum, Put, PutAll;
  }

  lemma {:induction false} EnteredKeeps(m: LoopMode, s: Store, x: Name, a: int, b: int, d: int, y: Name)
    requires !IsHidden(y)
    ensures Get(Entered(m, s, x, a, b, d), y) == Get(s, y)
    ensures m == Shared ==> Holding(Entered(m, s, x, a, b, d), x, Numbers(a, b, d))
  {
    hide Hid, IsHidden, Same;
    HidVisible(x, y);
    var s3 := Put(m, Put(m, Put(m, s, x, 1, Int(a)), x, 2, Int(b)), x, 3, Int(d));
    assert Get(s3, y) == Get(s, y);
    SameSelf(s3);
    PutAllSame(s3, s3, x, a, b, d);
  }

  lemma {:induction false} InnerRuns(m: LoopMode, ops: Ops, fuel: nat, s: Store)
    ensures var out := Run(m, ops, fuel, Inner(), s);
            && out.Normal? && Get(out.store, "c") == Get(s, "c")
            && (m == Shared ==> Holding(out.store, "i", Numbers(1, 1, 1)))
  {
    hide Hid, Holding, Entered, Run, RunSeq;
    ConstEnters(m, ops, fuel, "i", 0, 1, 1, [], s);
    EnteredKeeps(m, s, "i", 0, 1, 1, "c");
    var s0 := Entered(m, s, "i", 0, 1, 1);
    var s1 := s0["i" := Int(0)];
    NoneRuns(m, ops, fuel, s1);
    if m == Shared {
      SetLeft("i", s0, "i", Int(0));
      HoldingLeft(s0, s1, "i", Numbers(0, 1, 1));
      HeldNow(s1, "i", Numbers(0, 1, 1), Numbers(0, 1, 1));
      HoldingNext(s1, "i", Numbers(0, 1, 1), 1, Int(1));
    }
    HidVisible("i", "c");
  }

  lemma {:induction false} NoneRuns(m: LoopMode, ops: Ops, fuel: nat, s: Store)
    ensures RunSeq(m, ops, fuel, [], s) == Normal(s)
  {
  }

  lemma {:induction false} RoundRuns(m: LoopMode, ops: Ops, fuel: nat, s: Store, n: nat)
    requires Get(s, "c") == Int(n) && n < 10
    ensures var out := RunSeq(m, ops, fuel, Round(), s);
            && out.Normal? && Get(out.store, "c") == Int(n + 1)
            && (m == Shared ==> Holding(out.store, "i", Numbers(1, 1, 1)))
  {
    hide Hid, Holding, RunNum, RunFor, RunDo, Put, PutAll;
    InnerRuns(m, ops, fuel, s);
    var t := Run(m, ops, fuel, Inner(), s).store;
    var u := t["c" := Int(n + 1)];
    var rest := Round()[1..];
    assert Round()[0] == Inner() && rest[0] == ExprS(Bump(true, false, "c")) && rest[1..] == [];
    assert Run(m, ops, fuel, rest[0], t) == Normal(u);
    NoneRuns(m, ops, fuel, u);
    assert RunSeq(m, ops, fuel, rest, t) == Normal(u);
    assert RunSeq(m, ops, fuel, Round(), s) == Normal(u);
    if m == Shared {
      SetLeft("i", t, "c", Int(n + 1));
      HoldingLeft(t, u, "i", Numbers(1, 1, 1));
    }
  }

  lemma {:induction false} OwnCounts(ops: Ops, fuel: nat, cur: nat, s: Store)
    requires cur < 3 && fuel >= 2 - cur && Get(s, "c") == Int(cur)
    ensures var out := RunNum(Own, ops, fuel, "i", cur, 3, 1, Round(), s); out.Normal? && Get(out.store, "c") == Int(3)
    decreases 3 - cur
  {
    hide Round, RunSeq;
    RoundRuns(Own, ops, fuel, s["i" := Int(cur)], cur);
    if cur < 2 { OwnCounts(ops, fuel - 1, cur + 1, RunSeq(Own, ops, fuel, Round(), s["i" := Int(cur)]).store); }
  }

  lemma {:induction false} SharedCounts(ops: Ops, fuel: nat, s: Store)
    requires Get(s, "c") == Int(0)
    ensures var out := RunNum(Shared, ops, fuel, "i", 0, 3, 1, Round(), s);
            out.Normal? && Get(out.store, "c") == Int(1)
  {
    hide Round, RunSeq, Hid;
    RoundRuns(Shared, ops, fuel, s["i" := Int(0)], 0);
    HidVisible("i", "c");
  }

  lemma {:induction false} CountRuns(m: LoopMode, ops: Ops, fuel: nat, s: Store)
    requires fuel >= 2
    ensures var out := Run(m, ops, fuel, Count(), s);
            && out.Returns? && out.place == Some(InVar("c")) && Get(out.store, "c") == Int(if m == Own then 3 else 1)
  {
    hide Round, RunNum, Entered, Const3;
    var ss := Count().ss;
    var s0 := s["c" := Int(0)];
    var s1 := Entered(m, s0, "i", 0, 3, 1);
    var out := RunNum(m, ops, fuel, "i", 0, 3, 1, Round(), s1);
    EnteredKeeps(m, s0, "i", 0, 3, 1, "c");
    if m == Own { OwnCounts(ops, fuel, 0, s1); } else { SharedCounts(ops, fuel, s1); }
    ConstEnters(m, ops, fuel, "i", 0, 3, 1, Round(), s0);
    CountSeq(m, ops, fuel, s, out);
  }

  lemma {:induction false} CountSeq(m: LoopMode, ops: Ops, fuel: nat, s: Store, out: Outcome)
    requires out.Normal? && Run(m, ops, fuel, Const3("i", 0, 3, 1, Round()), s["c" := Int(0)]) == out
    ensures Run(m, ops, fuel, Count(), s) == Returns(Some(InVar("c")), out.store)
  {
    hide Round, RunFor, RunDo, RunNum, Put, PutAll;
    var ss := Count().ss;
    assert ss[1..][0] == ss[1] == Const3("i", 0, 3, 1, Round()) && ss[1..][1..] == [ss[2]] && [ss[2]][0] == ss[2];
    assert ss[0] == ExprS(Assign("c", Const(Int(0)))) && ss[2] == Return(Some(Var("c")));
    var s0 := s["c" := Int(0)];
    assert Eval(ops, Const(Int(0)), s) == Evaluated(s, Temp(Int(0)));
    assert Run(m, ops, fuel, ss[0], s) == Normal(s0);
    assert Run(m, ops, fuel, ss[2], out.store) == Returns(Some(InVar("c")), out.store);
    assert RunSeq(m, ops, fuel, [ss[2]], out.store) == Returns(Some(InVar("c")), out.store);
    assert RunSeq(m, ops, fuel, ss[1..], s0) == Returns(Some(InVar("c")), out.store);
  }

  /* ---- that it compiles ---- */

  /** No error, and no temporaries. */
  predicate Ready(st: CState) {
    st.ok && st.regs == 5 && st.lastreg <= 5
  }

  /** So compiled, with at most that many constants and instructions. */
  predicate Good(r: SCode, consts: nat, size: nat) {
    Ready(r.st) && |r.st.consts| <= consts && |r.code| <= size
  }

  /** The state behind the code of three constant bounds. */
  function BoundsState(vars: seq<FCVar>, st: CState, reg: int, a: int, b: int, d: int): CState {
    var s1 := CompInto(vars, st, Const(Int(a)), reg + 1).st;
    var s2 := CompInto(vars, s1, Const(Int(b)), reg + 2).st;
    CompInto(vars, s2, Const(Int(d)), reg + 3).st
  }

  lemma {:induction false} IntoCompiles(vars: seq<FCVar>, st: CState, v: Value, dst: int)
    requires |st.consts| < 200 && dst < 256
    ensures var r := CompInto(vars, st, Const(v), dst);
            && |r.code| == 1 && (Ready(st) ==> Ready(r.st)) && |r.st.consts| <= |st.consts| + 1
  {
  }

  lemma {:induction false} BoundsCompile(vars: seq<FCVar>, st: CState, reg: int, a: int, b: int, d: int)
    requires |st.consts| < 100 && reg + 3 < 256
    ensures var r := BoundsState(vars, st, reg, a, b, d);
            (Ready(st) ==> Ready(r)) && |r.consts| <= |st.consts| + 3
  {
    hide CompInto;
    IntoCompiles(vars, st, Int(a), reg + 1);
    var s1 := CompInto(vars, st, Const(Int(a)), reg + 1).st;
    IntoCompiles(vars, s1, Int(b), reg + 2);
    IntoCompiles(vars, CompInto(vars, s1, Const(Int(b)), reg + 2).st, Int(d), reg + 3);
  }

  lemma {:induction false} CountVars()
    ensures COUNT_VARS == [FCVar("i", true)] + NUM_HIDDEN + [FCVar("c", false)]
    ensures |COUNT_VARS| == 5 && Find(COUNT_VARS, "i") == 0 && Find(COUNT_VARS, "c") == 4
    ensures VarsOk(COUNT_VARS)
  {
    var vars := [FCVar("i", true), FCVar("c", false)];
    assert vars[1..] == [vars[1]] && vars[1..][1..] == [];
    assert Expand(vars[1..]) == [vars[1]];
    assert Expand(vars) == [vars[0]] + NUM_HIDDEN + [vars[1]];
    FindAt(COUNT_VARS, 4);
    FindAt(COUNT_VARS, 0);
    ExpandOk(vars);
  }

  /** In the fragment, nothing deferred. */
  predicate Fine(vars: seq<FCVar>, s: Stmt, loops: nat) {
    Wf(s, loops, true) && Depth(s) == 0 && ScopedS(vars, s)
  }

  predicate FineSeq(vars: seq<FCVar>, ss: seq<Stmt>, loops: nat) {
    WfSeq(ss, loops, true) && DepthSeq(ss) == 0 && ScopedSeq(vars, ss)
  }

  lemma {:induction false} FineCons(vars: seq<FCVar>, s: Stmt, ss: seq<Stmt>, loops: nat)
    requires Fine(vars, s, loops) && FineSeq(vars, ss, loops) && !s.Defer?
    ensures FineSeq(vars, [s] + ss, loops)
  {
    hide Wf, Depth, ScopedS;
    assert ([s] + ss)[1..] == ss && ([s] + ss)[0] == s;
  }

  lemma {:induction false} FineLoop(vars: seq<FCVar>, x: Name, a: int, b: int, d: int, body: seq<Stmt>, loops: nat)
    requires ScopedNum(vars, x) && FineSeq(vars, body, loops + 1)
    ensures Fine(vars, Const3(x, a, b, d, body), loops)
  {
    hide ScopedNum, WfSeq, DepthSeq, ScopedSeq;
  }

  lemma {:induction false} CountScoped()
    ensures Fine(COUNT_VARS, Count(), 0) && FineSeq(COUNT_VARS, Round(), 1)
  {
    hide Find, Expand, Fine, FineSeq;
    CountVars();
    FineNone(COUNT_VARS, 0);
    FineNone(COUNT_VARS, 1);
    FineNone(COUNT_VARS, 2);
    FineLoop(COUNT_VARS, "i", 0, 1, 1, [], 1);
    var ss := Count().ss;
    FineSimple(COUNT_VARS);
    FineCons(COUNT_VARS, Round()[1], [], 1);
    FineCons(COUNT_VARS, Inner(), [Round()[1]] + [], 1);
    assert Round() == [Inner()] + ([Round()[1]] + []);
    FineLoop(COUNT_VARS, "i", 0, 3, 1, Round(), 0);
    FineCons(COUNT_VARS, ss[2], [], 0);
    FineCons(COUNT_VARS, ss[1], [ss[2]] + [], 0);
    FineCons(COUNT_VARS, ss[0], [ss[1]] + ([ss[2]] + []), 0);
    assert ss == [ss[0]] + ([ss[1]] + ([ss[2]] + []));
    FineBlock(COUNT_VARS, ss, 0);
  }

  lemma {:induction false} FineBlock(vars: seq<FCVar>, ss: seq<Stmt>, loops: nat)
    requires FineSeq(vars, ss, loops)
    ensures Fine(vars, Block(ss), loops)
  {
    hide WfSeq, DepthSeq, ScopedSeq;
  }

  lemma {:induction false} FineNone(vars: seq<FCVar>, loops: nat)
    ensures FineSeq(vars, [], loops)
  {
  }

  lemma {:induction false} FineSimple(vars: seq<FCVar>)
    requires Find(vars, "c") >= 0
    ensures Fine(vars, ExprS(Assign("c", Const(Int(0)))), 0) && Fine(vars, Return(Some(Var("c"))), 0)
    ensures Fine(vars, ExprS(Bump(true, false, "c")), 1)
  {
    hide Find;
    assert ScopedE(vars, Const(Int(0))) && ScopedE(vars, Var("c"));
  }

  /** Inside so many loops, nothing deferred. */
  function Inside(loops: nat): Env {
    Env(COUNT_VARS, [], seq(loops, _ => 0), true, 0)
  }

  lemma {:induction false} NoneCompiles(env: Env, st: CState)
    requires WfEnv(0, env) && env.defers == []
    ensures CompSeq(0, env, 0, st, []) == SCode([], st)
  {
    hide WfEnv;
  }

  lemma {:induction false} InsideOk(loops: nat)
    ensures WfEnv(0, Inside(loops)) && EnterLoop(Inside(loops)) == Inside(loops + 1) && |Inside(loops).loops| == loops
    ensures Inside(0) == TopEnv(COUNT_VARS)
  {
    assert Inside(loops).loops + [0] == Inside(loops + 1).loops;
  }

  lemma {:induction false} ConsCompiles(loops: nat, st: CState, s: Stmt, ss: seq<Stmt>, consts: nat, size: nat,
                                        more: nat)
    requires WfEnv(0, Inside(loops)) && |Inside(loops).loops| == loops && !s.Defer?
    requires Fine(COUNT_VARS, s, loops) && FineSeq(COUNT_VARS, ss, loops) && FineSeq(COUNT_VARS, [s] + ss, loops)
    requires var r := CompS(0, Inside(loops), st, s);
             Good(r, consts, size) && Good(CompSeq(0, Inside(loops), 0, Unwind(r.st, st.regs), ss), consts, more)
    ensures Good(CompSeq(0, Inside(loops), 0, st, [s] + ss), consts, size + more)
  {
    hide CompS, WfEnv;
    assert ([s] + ss)[1..] == ss && ([s] + ss)[0] == s;
  }

  lemma {:induction false} AssignCompiles(st: CState)
    requires Ready(st) && |st.consts| < 50 && WfEnv(0, Inside(0))
    ensures Good(CompS(0, Inside(0), st, ExprS(Assign("c", Const(Int(0))))), |st.consts| + 1, 1)
  {
    hide Find, CompSeq, CompDefers, WfEnv, ConstIndex;
    assert CompE(COUNT_VARS, st, Const(Int(0)), true) == CompConst(st, Int(0));
  }

  lemma {:induction false} BumpCompiles(st: CState)
    requires Ready(st) && WfEnv(0, Inside(1)) && |Inside(1).loops| == 1
    ensures Good(CompS(0, Inside(1), st, ExprS(Bump(true, false, "c"))), |st.consts|, 1)
  {
    hide Find, CompSeq, CompDefers, WfEnv;
  }

  lemma {:induction false} ReturnCompiles(st: CState)
    requires Ready(st) && WfEnv(0, Inside(0)) && |Inside(0).loops| == 0
    ensures Good(CompS(0, Inside(0), st, Return(Some(Var("c")))), |st.consts|, 1)
  {
    hide Find, CompSeq, WfEnv;
  }

  lemma {:induction false} LoopCompiles(loops: nat, st: CState, a: int, b: int, d: int, body: seq<Stmt>, rb: SCode,
                                        consts: nat, size: nat)
    requires FineSeq(COUNT_VARS, body, loops + 1) && WfEnv(0, Inside(loops + 1))
             && |Inside(loops + 1).loops| == loops + 1
    requires Ready(st) && |st.consts| < 100 && size < 100
    requires rb == CompSeq(0, Inside(loops + 1), 0, BoundsState(COUNT_VARS, st, 0, a, b, d), body)
             && Good(rb, consts, size)
    ensures Fine(COUNT_VARS, Const3("i", a, b, d, body), loops) && WfEnv(0, Inside(loops))
            && |Inside(loops).loops| == loops
    ensures Good(CompS(0, Inside(loops), st, Const3("i", a, b, d, body)), consts, size + 5)
  {
    hide CompInto, CompSeq, WfEnv, WfSeq, DepthSeq, ScopedSeq, ScopedS;
    InsideOk(loops);
    CountVars();
    FineLoop(COUNT_VARS, "i", a, b, d, body, loops);
    IntoCompiles(COUNT_VARS, st, Int(a), 1);
    var s1 := CompInto(COUNT_VARS, st, Const(Int(a)), 1).st;
    IntoCompiles(COUNT_VARS, s1, Int(b), 2);
    IntoCompiles(COUNT_VARS, CompInto(COUNT_VARS, s1, Const(Int(b)), 2).st, Int(d), 3);
  }

  lemma {:induction false} RoundCompiles(st: CState)
    requires Ready(st) && |st.consts| < 50
    ensures FineSeq(COUNT_VARS, Round(), 1) && WfEnv(0, Inside(1)) && |Inside(1).loops| == 1
    ensures Good(CompSeq(0, Inside(1), 0, st, Round()), |st.consts| + 3, 6)
  {
    hide Find, CompS, CompSeq, BoundsState, FineSeq, Fine, WfEnv, AllocN;
    var n := |st.consts| + 3;
    CountVars();
    InsideOk(1);
    InsideOk(2);
    CountScoped();
    FineNone(COUNT_VARS, 1);
    FineNone(COUNT_VARS, 2);
    FineSimple(COUNT_VARS);
    var t0 := BoundsState(COUNT_VARS, st, 0, 0, 1, 1);
    BoundsCompile(COUNT_VARS, st, 0, 0, 1, 1);
    NoneCompiles(Inside(2), t0);
    LoopCompiles(1, st, 0, 1, 1, [], SCode([], t0), n, 0);
    var bump := ExprS(Bump(true, false, "c"));
    var t1 := Unwind(CompS(0, Inside(1), st, Inner()).st, 5);
    BumpCompiles(t1);
    var t2 := Unwind(CompS(0, Inside(1), t1, bump).st, 5);
    NoneCompiles(Inside(1), t2);
    FineCons(COUNT_VARS, bump, [], 1);
    ConsCompiles(1, t1, bump, [], n, 1, 0);
    assert Round() == [Inner()] + ([bump] + []);
    ConsCompiles(1, st, Inner(), [bump] + [], n, 5, 1);
  }

  lemma {:induction false} OuterCompiles(st: CState)
    requires Ready(st) && |st.consts| <= 1
    ensures var loop := Const3("i", 0, 3, 1, Round());
            && Fine(COUNT_VARS, loop, 0) && WfEnv(0, Inside(0)) && |Inside(0).loops| == 0
            && Good(CompS(0, Inside(0), st, loop), 10, 11)
  {
    hide Find, CompS, CompSeq, BoundsState, FineSeq, WfEnv, Round;
    InsideOk(1);
    var u := BoundsState(COUNT_VARS, st, 0, 0, 3, 1);
    BoundsCompile(COUNT_VARS, st, 0, 0, 3, 1);
    RoundCompiles(u);
    FineSeqIs(COUNT_VARS, Round(), 1);
    LoopCompiles(0, st, 0, 3, 1, Round(), CompSeq(0, Inside(1), 0, u, Round()), 10, 6);
  }

  lemma {:induction false} TailCompiles(st: CState)
    requires Ready(st) && |st.consts| <= 1 && WfEnv(0, Inside(0)) && |Inside(0).loops| == 0
    ensures var tail := [Const3("i", 0, 3, 1, Round()), Return(Some(Var("c")))];
            FineSeq(COUNT_VARS, tail, 0) && Good(CompSeq(0, Inside(0), 0, st, tail), 10, 12)
  {
    hide Find, CompS, CompSeq, FineSeq, WfEnv, Round;
    var loop, ret := Const3("i", 0, 3, 1, Round()), Return(Some(Var("c")));
    CountVars();
    FineSimple(COUNT_VARS);
    FineNone(COUNT_VARS, 0);
    OuterCompiles(st);
    var t1 := Unwind(CompS(0, Inside(0), st, loop).st, 5);
    ReturnCompiles(t1);
    var t2 := Unwind(CompS(0, Inside(0), t1, ret).st, 5);
    NoneCompiles(Inside(0), t2);
    FineCons(COUNT_VARS, ret, [], 0);
    ConsCompiles(0, t1, ret, [], 10, 1, 0);
    FineCons(COUNT_VARS, loop, [ret] + [], 0);
    ConsCompiles(0, st, loop, [ret] + [], 10, 11, 1);
    assert [loop, ret] == [loop] + ([ret] + []);
  }

  lemma {:induction false} BodyCompiles(st: CState)
    requires st == CState(5, -1, [], true)
    ensures Fine(COUNT_VARS, Count(), 0) && WfEnv(0, Inside(0)) && |Inside(0).loops| == 0
    ensures Good(CompS(0, Inside(0), st, Count()), 10, 13)
  {
    hide Find, CompS, CompSeq, FineSeq, Fine, WfEnv, Round, Const3;
    CountVars();
    CountScoped();
    InsideOk(0);
    FineSimple(COUNT_VARS);
    var ss := Count().ss;
    AssignCompiles(st);
    var t0 := Unwind(CompS(0, Inside(0), st, ss[0]).st, 5);
    TailCompiles(t0);
    var tail := [ss[1], ss[2]];
    FineCons(COUNT_VARS, ss[0], tail, 0);
    ConsCompiles(0, st, ss[0], tail, 10, 1, 12);
    assert ss == [ss[0]] + tail;
    BlockCompiles(st, ss, 10, 13);
  }

  lemma {:induction false} CountCompiles()
    ensures Fine(COUNT_VARS, Count(), 0)
    ensures CompFn(0, COUNT_VARS, Count()).st.ok && |CompFn(0, COUNT_VARS, Count()).code| <= 13
  {
    hide Find, CompS, AllocN, Fine, Count, WfEnv;
    CountVars();
    InsideOk(0);
    StartOk();
    BodyCompiles(AllocN(START, 5));
    FineIs(COUNT_VARS, Count(), 0);
  }

  lemma {:induction false} FineIs(vars: seq<FCVar>, s: Stmt, loops: nat)
    requires Fine(vars, s, loops)
    ensures Wf(s, loops, true) && Depth(s) == 0 && ScopedS(vars, s)
  {
  }

  lemma {:induction false} FineSeqIs(vars: seq<FCVar>, ss: seq<Stmt>, loops: nat)
    requires FineSeq(vars, ss, loops)
    ensures WfSeq(ss, loops, true) && DepthSeq(ss) == 0 && ScopedSeq(vars, ss)
  {
  }

  lemma {:induction false} StartOk()
    ensures AllocN(START, 5) == CState(5, -1, [], true)
  {
    var a := CState(1, -1, [], true);
    assert Alloc(START) == a && Alloc(a).regs == 2;
    assert AllocN(START, 5) == AllocN(a, 4) == AllocN(Alloc(a), 3) == AllocN(Alloc(Alloc(a)), 2);
  }

  lemma {:induction false} BlockCompiles(st: CState, ss: seq<Stmt>, consts: nat, size: nat)
    requires FineSeq(COUNT_VARS, ss, 0) && WfEnv(0, Inside(0)) && |Inside(0).loops| == 0
    requires Good(CompSeq(0, Inside(0), 0, st, ss), consts, size) && Ready(st)
    ensures Good(CompS(0, Inside(0), st, Block(ss)), consts, size)
  {
    hide CompSeq, WfEnv;
  }

  /** The registers of a function that has been called without arguments. */
  function Fresh(n: int): seq<Value> {
    if n <= 0 then [] else seq(n, _ => Null)
  }

  /** In `c = 0; for i : (0, 3, 1) { for i : (0, 1, 1) {} ++c; } return c;` the counter would be
      3 if each loop kept its own numbers.  The compiled function returns 1. */
  lemma CountCutShort(ops: Ops, fuel: nat, pre: seq<Instr>)
    requires fuel >= 2 && IsPrefix(pre) && |pre| < 1000
    ensures Fine(COUNT_VARS, Count(), 0)
    ensures var fn := CompFn(0, COUNT_VARS, Count());
            && fn.st.ok
            && exists n, c :: Runs(Loaded(ops, pre, fn), Running(0, Fresh(fn.st.lastreg)), n, c)
                              && c.Done? && c.results == [Int(1)]
    ensures var out := Run(Own, ops, fuel, Count(), map[]);
            out.Returns? && out.place.Some? && Read(out.store, out.place.value) == Int(3)
  {
    hide CompFn, Loaded, Fine, Count, Runs, Run;
    CountVars();
    CountCompiles();
    FineIs(COUNT_VARS, Count(), 0);
    FnLast(0, COUNT_VARS, Count());
    CountRuns(Own, ops, fuel, map[]);
    CountRuns(Shared, ops, fuel, map[]);
    var regs := Fresh(CompFn(0, COUNT_VARS, Count()).st.lastreg);
    var n, c := CompileCorrect(Shared, ops, 0, COUNT_VARS, Count(), pre, fuel, map[], regs);
  }
}
