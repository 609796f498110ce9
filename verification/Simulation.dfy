/** The simulation theorem for statements, by recursion on fuel and statement. */
module Simulation {
  import opened Bytecode
  import opened Source
  import opened Compile
  import opened CompileFacts
  import opened ExprProof
  import opened ExitProof
  import opened StmtProof

  /* ---- expressions as statements ---- */

  lemma EffectRuns(P: Prog, T: seq<Target>, p: int, vars: seq<FCVar>, st: CState, e: Expr, s: Store, regs: seq<Value>)
    returns (n: nat, regs': seq<Value>)
    requires ScopedE(vars, e) && Held(vars, s, regs)
    requires var r := CompEffect(vars, st, e); Placed(P.code, p, r.code, T) && Room(P, vars, st, r.st, regs)
    ensures var r := CompEffect(vars, st, e);
            Went(P, vars, st.regs, {}, Running(p, regs), n, p + |r.code|, Effect(P.ops, e, s), regs, regs')
                && |regs'| == |regs|
  {
    hide Steps, Placed, Runs, Held, Keep, Went, CompE, Prefix;
    if e.Const? || e.Var? {
      n, regs' := 0, regs;
      WentZero(P, vars, st.regs, {}, p, s, regs);
    } else {
      GrowsE(vars, st, e, false);
      n, regs' := ExprRuns(P, T, p, vars, st, e, false, s, regs);
    }
  }

  lemma {:induction false} EffectsRuns(P: Prog, T: seq<Target>, p: int, vars: seq<FCVar>, st: CState, es: seq<Expr>,
                                       s: Store, regs: seq<Value>)
    returns (n: nat, regs': seq<Value>)
    requires ScopedEs(vars, es) && Held(vars, s, regs) && 0 <= p <= |P.code|
    requires var r := CompEffects(vars, st, es); Placed(P.code, p, r.code, T) && Room(P, vars, st, r.st, regs)
    ensures var r := CompEffects(vars, st, es);
            Went(P, vars, st.regs, {}, Running(p, regs), n, p + |r.code|, Effects(P.ops, es, s), regs, regs')
                && |regs'| == |regs|
    decreases es
  {
    hide Steps, Placed, Runs, Held, Keep, Went, CompE, CompEffect, Effect, Room;
    if es == [] {
      n, regs' := 0, regs;
      WentZero(P, vars, st.regs, {}, p, s, regs);
    } else {
      var r := CompEffect(vars, st, es[0]);
      var rest := CompEffects(vars, r.st, es[1..]);
      GrowsEffect(vars, st, es[0]);
      GrowsEffects(vars, r.st, es[1..]);
      ExitProof.RoomBetween(P, vars, st, r.st, rest.st, regs);
      PlacedSplit(P.code, p, r.code, rest.code, T);
      PlacedIn(P.code, p, r.code, T);
      var s1 := Effect(P.ops, es[0], s);
      var m, regs1 := EffectRuns(P, T, p, vars, st, es[0], s, regs);
      WentLen(P, vars, st.regs, {}, Running(p, regs), m, p + |r.code|, s1, regs, regs1);
      RoomSame(P, vars, r.st, rest.st, regs, regs1);
      var k;
      k, regs' := EffectsRuns(P, T, p + |r.code|, vars, r.st, es[1..], s1, regs1);
      n := m + k;
      WentThen(P, vars, st.regs, {}, st.regs, {}, Running(p, regs), m, p + |r.code|, s1,
               k, p + |r.code| + |rest.code|, Effects(P.ops, es[1..], s1), regs, regs1, regs');
    }
  }

  lemma InitRuns(P: Prog, T: seq<Target>, p: int, vars: seq<FCVar>, st: CState, es: Option<seq<Expr>>, s: Store,
                 regs: seq<Value>)
    returns (n: nat, regs': seq<Value>)
    requires ScopedEs(vars, ListOf(es)) && Held(vars, s, regs) && 0 <= p <= |P.code|
    requires var r := CompInit(vars, st, es); Placed(P.code, p, r.code, T) && Room(P, vars, st, r.st, regs)
    ensures var r := CompInit(vars, st, es);
            Went(P, vars, st.regs, {}, Running(p, regs), n, p + |r.code|, Effects(P.ops, ListOf(es), s), regs, regs')
                && |regs'| == |regs|
  {
    hide Held, Placed, Room, Went, CompEffects;
    if es.None? {
      n, regs' := 0, regs;
      WentZero(P, vars, st.regs, {}, p, s, regs);
    } else {
      n, regs' := EffectsRuns(P, T, p, vars, st, es.value, s, regs);
    }
  }

  lemma PlacedIn(code: seq<Instr>, p: int, c: seq<Instr>, T: seq<Target>)
    requires Placed(code, p, c, T)
    ensures 0 <= p && p + |c| <= |code|
  {
  }

  /* ---- deferred statements on the way out ---- */

  /** After the latest deferred statement has run, its block's exit continues without it. */
  lemma FinallyLeft(P: Prog, T: seq<Target>, lev: nat, env: Env, env': Env, start: int, end: int, fuel: nat,
                    out: Outcome, d: Stmt,
                    s: Store, cs: CState, opd: int, w: int, xs: set<Name>, ys: set<Name>, a: Config, m: nat, q: int,
                        n: nat,
                    regs: seq<Value>, regs1: seq<Value>, regs2: seq<Value>)
    requires WfEnv(lev, env) && WfEnv(lev, env') && env'.defers == env.defers + [d]
             && env' == env.(defers := env'.defers)
    requires 0 <= start <= |env.defers| && !out.Timeout?
    requires Left(P, T, lev, env', start, end, fuel, out, cs, opd, w, xs, a, m, q, regs, regs1)
    requires AtExit(P, lev, env', EndOf(env', start, out), cs, TailOf(T, end, opd, out), q, regs1)
    requires Depth(d) < lev && Wf(d, 0, false) && WfEnv(lev - 1, DeferEnv(env))
    requires var r := CompS(lev - 1, DeferEnv(env), cs, d);
             Went(P, env.vars, cs.regs, ys, Running(q, regs1), n, q + |r.code|, s, regs1, regs2) && |regs2| == |regs1|
    ensures var r := CompS(lev - 1, DeferEnv(env), cs, d);
            Left(P, T, lev, env, start, end, fuel, Finally(out, Normal(s)), r.st, opd, w, xs + ys, a, m + n, q
                + |r.code|, regs, regs2)
  {
    hide Steps, Placed, Runs, Held, Keep, Went, CompS, Room, AtExit, TailAt, Yields, WfEnv, TailOf, EndOf, InScope,
        Finally;
    FinallyTarget(T, lev, env, env', start, end, opd, out, s);
    var r := CompS(lev - 1, DeferEnv(env), cs, d);
    var tail := TailOf(T, end, opd, out);
    assert env.defers == env'.defers[..|env'.defers| - 1] && env'.defers[|env'.defers| - 1] == d;
    AtLatest(P, lev, env, env', EndOf(env, start, out), cs, tail, q, regs1);
    AtExitSame(P, lev, env, EndOf(env, start, out), r.st, tail, q + |r.code|, regs1, regs2);
    WentWeaken(P, env.vars, w, xs, w, xs + ys, a, m, q, out.store, regs, regs1);
    WentThen(P, env.vars, w, xs + ys, cs.regs, ys, a, m, q, out.store, n, q + |r.code|, s, regs, regs1, regs2);
    if out.Returns? && out.place.Some? {
      YieldsLater(P, env.vars, cs.regs, ys, Running(q, regs1), n, q + |r.code|, s, regs1, regs2, opd, out.place.value,
          |env.vars|, cs.regs);
    }
  }

  /** A deferred statement that finishes changes the store, not where control is going. */
  lemma FinallyTarget(T: seq<Target>, lev: nat, env: Env, env': Env, start: int, end: int, opd: int, out: Outcome,
                      s: Store)
    requires WfEnv(lev, env) && env' == env.(defers := env'.defers) && 0 <= start <= |env.defers| && !out.Timeout?
             && InScope(out, env')
    ensures InScope(out, env) && 0 <= EndOf(env, start, out) <= |env.defers|
            && EndOf(env, start, out) == EndOf(env', start, out)
    ensures var f := Finally(out, Normal(s));
            && !f.Timeout? && f.store == s && InScope(f, env) && EndOf(env, start, f) == EndOf(env, start, out)
            && TailOf(T, end, opd, f) == TailOf(T, end, opd, out) && (f.Returns? <==> out.Returns?)
               && (f.Returns? ==> f.place == out.place)
  {
  }

  lemma AtExitSame(P: Prog, lev: nat, env: Env, end: int, cs: CState, tail: Tail, q: int, regs: seq<Value>,
                   regs': seq<Value>)
    requires WfEnv(lev, env) && AtExit(P, lev, env, end, cs, tail, q, regs) && |regs'| == |regs|
    ensures AtExit(P, lev, env, end, cs, tail, q, regs')
  {
    hide Placed, TailAt;
  }

  /* ---- statements ---- */

  /** Where a simulation starts: code in place, registers that hold the store, room for all. */
  ghost predicate Ready(P: Prog, T: seq<Target>, p: int, env: Env, st: CState, r: SCode, s: Store, regs: seq<Value>) {
    && VarsOk(env.vars) && |T| == |env.loops| && Held(env.vars, s, regs)
    && Placed(P.code, p, r.code, T) && Room(P, env.vars, st, r.st, regs)
  }

  lemma {:induction false} StmtRuns(P: Prog, T: seq<Target>, p: int, lev: nat, env: Env, st: CState, stm: Stmt,
                                    fuel: nat, s: Store, regs: seq<Value>)
    returns (n: nat, q: int, regs': seq<Value>, cs: CState, opd: int)
    requires WfEnv(lev, env) && Wf(stm, |env.loops|, env.top) && Depth(stm) <= lev && ScopedS(env.vars, stm)
    requires Ready(P, T, p, env, st, CompS(lev, env, st, stm), s, regs)
    ensures Left(P, T, lev, env, |env.defers|, p + |CompS(lev, env, st, stm).code|, fuel,
                 Run(Shared, P.ops, fuel, stm, s),
                 cs, opd, st.regs, NumVars(stm), Running(p, regs), n, q, regs, regs')
    decreases fuel, lev, 1, stm, 3
  {
    hide Left, Ready, CompE, CompEffect, CompSeq, CompFor, CompDo, CompNum, CompExit, CompDefers, RunSeq, RunFor,
        RunDo, RunNum, Eval, Effect;
    match stm
    case ExprS(e) => n, q, regs', cs, opd := ExprSRuns(P, T, p, lev, env, st, e, fuel, s, regs);
    case Block(ss) => n, q, regs', cs, opd := BlockRuns(P, T, p, lev, env, st, ss, fuel, s, regs);
    case If(c, t, f) => n, q, regs', cs, opd := IfRuns(P, T, p, lev, env, st, c, t, f, fuel, s, regs);
    case While(c, body) =>
      assert Effects(P.ops, [], s) == s;
      n, q, regs', cs, opd := ForRuns(P, T, p, lev, env, st, None, Some(c), None, body, fuel, s, regs);
    case DoWhile(body, c) => n, q, regs', cs, opd := DoRuns(P, T, p, lev, env, st, body, c, fuel, s, regs);
    case For(init, test, incr, body) =>
      n, q, regs', cs, opd := ForRuns(P, T, p, lev, env, st, Some(init), test, Some(incr), body, fuel, s, regs);
    case NumFor(x, start, last, stride, body) =>
      n, q, regs', cs, opd := NumRuns(P, T, p, lev, env, st, x, start, last, stride, body, fuel, s, regs);
    case Break(m) => n, q, regs', cs, opd := ExitRuns(P, T, p, lev, env, st, m, false, fuel, s, regs);
    case Continue(m) => n, q, regs', cs, opd := ExitRuns(P, T, p, lev, env, st, m, true, fuel, s, regs);
    case Return(e) => n, q, regs', cs, opd := ReturnRuns(P, T, p, lev, env, st, e, fuel, s, regs);
  }

  lemma ReadyRoom(P: Prog, T: seq<Target>, p: int, env: Env, st: CState, r: SCode, s: Store, regs: seq<Value>)
    requires Ready(P, T, p, env, st, r, s, regs) && Grows(st, r.st)
    ensures Room(P, env.vars, st, st, regs)
  {
    hide Placed, Held;
  }

  lemma ExprSRuns(P: Prog, T: seq<Target>, p: int, lev: nat, env: Env, st: CState, e: Expr, fuel: nat, s: Store,
                  regs: seq<Value>)
    returns (n: nat, q: int, regs': seq<Value>, cs: CState, opd: int)
    requires WfEnv(lev, env) && ScopedE(env.vars, e)
    requires Ready(P, T, p, env, st, CompEffect(env.vars, st, e), s, regs)
    ensures Left(P, T, lev, env, |env.defers|, p + |CompEffect(env.vars, st, e).code|, fuel,
                 Normal(Effect(P.ops, e, s)),
                 cs, opd, st.regs, {}, Running(p, regs), n, q, regs, regs')
  {
    hide Left, CompEffect, Effect, Held, Placed, Room, Went, Grows;
    var r := CompEffect(env.vars, st, e);
    n, regs' := EffectRuns(P, T, p, env.vars, st, e, s, regs);
    GrowsEffect(env.vars, st, e);
    PlacedIn(P.code, p, r.code, T);
    q, cs, opd := p + |r.code|, st, 0;
    ReadyRoom(P, T, p, env, st, r, s, regs);
    RoomSame(P, env.vars, st, st, regs, regs');
    LeftAtEnd(P, T, lev, env, fuel, Effect(P.ops, e, s), st, st.regs, {}, Running(p, regs), n, q, regs, regs');
  }

  lemma {:induction false} BlockRuns(P: Prog, T: seq<Target>, p: int, lev: nat, env: Env, st: CState, ss: seq<Stmt>,
                                     fuel: nat, s: Store, regs: seq<Value>)
    returns (n: nat, q: int, regs': seq<Value>, cs: CState, opd: int)
    requires WfEnv(lev, env) && Wf(Block(ss), |env.loops|, env.top) && Depth(Block(ss)) <= lev
             && ScopedS(env.vars, Block(ss))
    requires Ready(P, T, p, env, st, CompS(lev, env, st, Block(ss)), s, regs)
    ensures Left(P, T, lev, env, |env.defers|, p + |CompS(lev, env, st, Block(ss)).code|, fuel,
                 Run(Shared, P.ops, fuel, Block(ss), s),
                 cs, opd, st.regs, NumVars(Block(ss)), Running(p, regs), n, q, regs, regs')
    decreases fuel, lev, 1, Block(ss), 2
  {
    hide Left, CompSeq, RunSeq, Held, Placed, Prefix;
    SettlesSeq(lev, env, |env.defers|, st, ss);
    n, q, regs', cs, opd := SeqRuns(P, T, p, lev, env, |env.defers|, st, ss, fuel, s, regs);
  }

  lemma {:induction false} SeqRuns(P: Prog, T: seq<Target>, p: int, lev: nat, env: Env, start: nat, st: CState,
                                   ss: seq<Stmt>, fuel: nat, s: Store, regs: seq<Value>)
    returns (n: nat, q: int, regs': seq<Value>, cs: CState, opd: int)
    requires WfEnv(lev, env) && WfSeq(ss, |env.loops|, env.top) && DepthSeq(ss) <= lev && ScopedSeq(env.vars, ss)
             && start <= |env.defers|
    requires Ready(P, T, p, env, st, CompSeq(lev, env, start, st, ss), s, regs)
    ensures Left(P, T, lev, env, start, p + |CompSeq(lev, env, start, st, ss).code|, fuel,
                 RunSeq(Shared, P.ops, fuel, ss, s),
                 cs, opd, st.regs, NumVarsSeq(ss), Running(p, regs), n, q, regs, regs')
    decreases fuel, lev, 1, ss, 0
  {
    hide Left, Ready, CompS, CompDefers, Run;
    if ss == [] {
      n, q, regs', cs, opd := 0, p, regs, st, 0;
      LeftEmpty(P, T, p, lev, env, start, st, fuel, s, regs);
    } else if ss[0].Defer? {
      n, q, regs', cs, opd := DeferRuns(P, T, p, lev, env, start, st, ss, fuel, s, regs);
    } else {
      n, q, regs', cs, opd := ConsRuns(P, T, p, lev, env, start, st, ss, fuel, s, regs);
    }
  }

  /** The end of a block: its deferred statements are next. */
  lemma LeftEmpty(P: Prog, T: seq<Target>, p: int, lev: nat, env: Env, start: nat, st: CState, fuel: nat, s: Store,
                  regs: seq<Value>)
    requires WfEnv(lev, env) && start <= |env.defers|
    requires Ready(P, T, p, env, st, CompDefers(lev, env, |env.defers|, start, st), s, regs)
    ensures Left(P, T, lev, env, start, p + |CompDefers(lev, env, |env.defers|, start, st).code|, fuel, Normal(s), st,
                 0, st.regs, {}, Running(p, regs), 0, p, regs, regs)
  {
    hide CompDefers, Held, Room, Placed, Went;
    var r := CompDefers(lev, env, |env.defers|, start, st);
    WentZero(P, env.vars, st.regs, {}, p, s, regs);
    PendDefers(lev, env, |env.defers|, start, st, 0);
    PlacedAnywhere(P.code, p, r.code, T);
  }

  lemma {:induction false} ConsRuns(P: Prog, T: seq<Target>, p: int, lev: nat, env: Env, start: nat, st: CState,
                                    ss: seq<Stmt>, fuel: nat, s: Store, regs: seq<Value>)
    returns (n: nat, q: int, regs': seq<Value>, cs: CState, opd: int)
    requires WfEnv(lev, env) && WfSeq(ss, |env.loops|, env.top) && DepthSeq(ss) <= lev && ScopedSeq(env.vars, ss)
             && start <= |env.defers|
    requires ss != [] && !ss[0].Defer? && Ready(P, T, p, env, st, CompSeq(lev, env, start, st, ss), s, regs)
    ensures Left(P, T, lev, env, start, p + |CompSeq(lev, env, start, st, ss).code|, fuel,
                 RunSeq(Shared, P.ops, fuel, ss, s),
                 cs, opd, st.regs, NumVarsSeq(ss), Running(p, regs), n, q, regs, regs')
    decreases fuel, lev, 1, ss, 0, 0
  {
    hide Left, CompS, CompDefers, Run, Held, Placed, Room, Grows, Went, AtExit, Keeps, TailAt;
    var r := CompS(lev, env, st, ss[0]);
    var st1 := Unwind(r.st, st.regs);
    var rest := CompSeq(lev, env, start, st1, ss[1..]);
    assert CompSeq(lev, env, start, st, ss) == SCode(r.code + rest.code, rest.st);
    PlacedSplit(P.code, p, r.code, rest.code, T);
    SettlesS(lev, env, st, ss[0]);
    SettlesSeq(lev, env, start, st1, ss[1..]);
    UnwindSame(r.st);
    ExitProof.RoomBetween(P, env.vars, st, r.st, rest.st, regs);
    n, q, regs', cs, opd := StmtRuns(P, T, p, lev, env, st, ss[0], fuel, s, regs);
    var out := Run(Shared, P.ops, fuel, ss[0], s);
    var end := p + |r.code| + |rest.code|;
    var at := Running(p, regs);
    if out.Normal? {
      LeftNormal(P, T, lev, env, p + |r.code|, fuel, out, cs, opd, st.regs, NumVars(ss[0]), at, n, q, regs, regs');
      RoomSame(P, env.vars, st1, rest.st, regs, regs');
      var k, q2, regs2;
      k, q2, regs2, cs, opd := SeqRuns(P, T, q, lev, env, start, st1, ss[1..], fuel, out.store, regs');
      var xs := NumVarsSeq(ss);
      WentWeaken(P, env.vars, st.regs, NumVars(ss[0]), st.regs, xs, at, n, q, out.store, regs, regs');
      LeftAfter(P, T, lev, env, start, end, fuel, RunSeq(Shared, P.ops, fuel, ss[1..], out.store), cs, opd, st.regs, xs,
          st1.regs, NumVarsSeq(ss[1..]),
                at, n, q, out.store, k, q2, regs, regs', regs2);
      n, q, regs' := n + k, q2, regs2;
    } else {
      LeftElsewhere(P, T, lev, env, |env.defers|, p + |r.code|, start, end, fuel, out, cs, opd, st.regs,
          NumVars(ss[0]), NumVarsSeq(ss),
                    at, n, q, regs, regs');
    }
  }

  lemma UnwindSame(st: CState)
    requires st.regs <= st.lastreg
    ensures Unwind(st, st.regs) == st
  {
  }

  /** What does not fall through does not depend on where the construct ends or began. */
  lemma LeftElsewhere(P: Prog, T: seq<Target>, lev: nat, env: Env, start: int, end: int, start': int, end': int,
                      fuel: nat, out: Outcome,
                      cs: CState, opd: int, w: int, xs: set<Name>, ys: set<Name>, a: Config, n: nat, q: int,
                          regs: seq<Value>, regs': seq<Value>)
    requires WfEnv(lev, env) && !out.Normal? && xs <= ys
    requires Left(P, T, lev, env, start, end, fuel, out, cs, opd, w, xs, a, n, q, regs, regs')
    ensures Left(P, T, lev, env, start', end', fuel, out, cs, opd, w, ys, a, n, q, regs, regs')
  {
    hide AtExit, Keeps, Yields, Steps, Runs;
  }

  lemma {:induction false} DeferRuns(P: Prog, T: seq<Target>, p: int, lev: nat, env: Env, start: nat, st: CState,
                                     ss: seq<Stmt>, fuel: nat, s: Store, regs: seq<Value>)
    returns (n: nat, q: int, regs': seq<Value>, cs: CState, opd: int)
    requires WfEnv(lev, env) && WfSeq(ss, |env.loops|, env.top) && DepthSeq(ss) <= lev && ScopedSeq(env.vars, ss)
             && start <= |env.defers|
    requires ss != [] && ss[0].Defer? && Ready(P, T, p, env, st, CompSeq(lev, env, start, st, ss), s, regs)
    ensures Left(P, T, lev, env, start, p + |CompSeq(lev, env, start, st, ss).code|, fuel,
                 RunSeq(Shared, P.ops, fuel, ss, s),
                 cs, opd, st.regs, NumVarsSeq(ss), Running(p, regs), n, q, regs, regs')
    decreases fuel, lev, 1, ss, 0, 0
  {
    hide CompS, CompDefers, Run, Held, Placed, Prefix, Grows, Went, AtExit, Keeps, TailAt, Runs;
    var d := ss[0].d;
    assert NumVars(ss[0]) == NumVars(d);
    assert ss[0] decreases to d;
    DeferFits(P, lev, env, start, st, ss, regs);
    var env' := env.(defers := env.defers + [d]);
    var st1 := Unwind(st, st.regs);
    var end := p + |CompSeq(lev, env, start, st, ss).code|;
    var at, rest := Running(p, regs), NumVarsSeq(ss[1..]);
    n, q, regs', cs, opd := SeqRuns(P, T, p, lev, env', start, st1, ss[1..], fuel, s, regs);
    var out := RunSeq(Shared, P.ops, fuel, ss[1..], s);
    if !out.Timeout? {
      assert env.defers == env'.defers[..|env'.defers| - 1] && env'.defers[|env'.defers| - 1] == d;
      AtLatest(P, lev, env, env', EndOf(env', start, out), cs, TailOf(T, end, opd, out), q, regs');
      WentLen(P, env.vars, st.regs, rest, at, n, q, out.store, regs, regs');
      var k, q2, regs2, cs2, opd2 := StmtRuns(P, [], q, lev - 1, DeferEnv(env), cs, d, fuel, out.store, regs');
      var out2 := Run(Shared, P.ops, fuel, d, out.store);
      var r := CompS(lev - 1, DeferEnv(env), cs, d);
      if out2.Timeout? {
        GoneOn(P, env.vars, st.regs, rest, at, n, q, out.store, k, q2, regs, regs', regs2);
        n, q, regs' := n + k, q2, regs2;
      } else {
        assert out2.Normal?;
        LeftNormal(P, [], lev - 1, DeferEnv(env), q + |r.code|, fuel, out2, cs2, opd2, cs.regs, NumVars(d),
            Running(q, regs'), k, q2, regs', regs2);
        FinallyLeft(P, T, lev, env, env', start, end, fuel, out, d, out2.store, cs, opd, st.regs, rest, NumVars(d),
            at, n, q, k, regs, regs', regs2);
        LeftWeaken(P, T, lev, env, start, end, fuel, Finally(out, out2), end, r.st, opd, st.regs, rest + NumVars(d),
            st.regs, NumVarsSeq(ss),
                   at, n + k, q2, regs, regs2);
        n, q, regs', cs := n + k, q2, regs2, r.st;
      }
    }
  }

  lemma GoneOn(P: Prog, vars: seq<FCVar>, w: int, xs: set<Name>, a: Config, m: nat, q: int, s: Store, n: nat, q': int,
               regs: seq<Value>, regs1: seq<Value>, regs2: seq<Value>)
    requires Went(P, vars, w, xs, a, m, q, s, regs, regs1) && Runs(P, Running(q, regs1), n, Running(q', regs2))
    ensures Runs(P, a, m + n, Running(q', regs2))
  {
    RunsThen(P, a, m, Running(q, regs1), n, Running(q', regs2));
  }

  /** A successful compilation did not exceed the limit on deferred statements. */
  lemma DeferFits(P: Prog, lev: nat, env: Env, start: nat, st: CState, ss: seq<Stmt>, regs: seq<Value>)
    requires WfEnv(lev, env) && WfSeq(ss, |env.loops|, env.top) && DepthSeq(ss) <= lev && start <= |env.defers|
             && ss != [] && ss[0].Defer?
    requires CompSeq(lev, env, start, st, ss).st.ok
    ensures env.under + |env.defers| < MAX_DEFERS
    ensures var env' := env.(defers := env.defers + [ss[0].d]);
            WfEnv(lev, env') && CompSeq(lev, env, start, st, ss)
                == CompSeq(lev, env', start, Unwind(st, st.regs), ss[1..])
    ensures var d := ss[0].d; Depth(d) < lev && Wf(d, 0, false) && WfEnv(lev - 1, DeferEnv(env))
  {
    hide CompS, CompDefers;
    assert Depth(ss[0]) == 1 + Depth(ss[0].d);
    if env.under + |env.defers| >= MAX_DEFERS {
      SettlesSeq(lev, env, start, Unwind(Fail(st), st.regs), ss[1..]);
    }
  }

  /* ---- break, continue, return ---- */

  /** `break n` and `continue n`: the deferred statements being left, then the jump. */
  lemma ExitRuns(P: Prog, T: seq<Target>, p: int, lev: nat, env: Env, st: CState, m: int, iscont: bool, fuel: nat,
                 s: Store, regs: seq<Value>)
    returns (n: nat, q: int, regs': seq<Value>, cs: CState, opd: int)
    requires WfEnv(lev, env) && (env.top || 1 <= m <= |env.loops|)
    requires Ready(P, T, p, env, st, CompExit(lev, env, st, m, iscont), s, regs)
    ensures Left(P, T, lev, env, |env.defers|, p + |CompExit(lev, env, st, m, iscont).code|, fuel,
                 if iscont then Continues(m, s) else Breaks(m, s),
                 cs, opd, st.regs, {}, Running(p, regs), n, q, regs, regs')
  {
    hide CompDefers, Held, Placed, Prefix, Went, TailAt;
    n, q, regs', cs, opd := 0, p, regs, st, 0;
    var d, end := |env.loops| + 1 - m, env.loops[|env.loops| - m];
    var r := CompDefers(lev, env, |env.defers|, end, st);
    SettlesDefers(lev, env, |env.defers|, end, st);
    WentZero(P, env.vars, st.regs, {}, p, s, regs);
    PlacedSplit(P.code, p, r.code, [Pend(d, iscont)], T);
    PlacedOne(P.code, p + |r.code|, Pend(d, iscont), T);
    PendDefers(lev, env, |env.defers|, end, st, 0);
    PlacedAnywhere(P.code, p, r.code, T);
    JumpTail(P, T, p + |r.code|, m, iscont, s);
  }

  lemma JumpTail(P: Prog, T: seq<Target>, t: int, m: int, iscont: bool, s: Store)
    requires 1 <= m <= |T| && 0 <= t < |P.code| && Resolves(P.code[t], Pend(|T| + 1 - m, iscont), t, T)
    ensures TailAt(P, t, TailOf(T, 0, 0, if iscont then Continues(m, s) else Breaks(m, s)))
  {
  }

  /** `return`: all deferred statements of the function, then the return instruction,
      which reads the operand only then. */
  lemma ReturnRuns(P: Prog, T: seq<Target>, p: int, lev: nat, env: Env, st: CState, e: Option<Expr>, fuel: nat,
                   s: Store, regs: seq<Value>)
    returns (n: nat, q: int, regs': seq<Value>, cs: CState, opd: int)
    requires WfEnv(lev, env) && env.top && ScopedO(env.vars, e)
    requires Ready(P, T, p, env, st, CompS(lev, env, st, Return(e)), s, regs)
    ensures Left(P, T, lev, env, |env.defers|, p + |CompS(lev, env, st, Return(e)).code|, fuel,
                 Run(Shared, P.ops, fuel, Return(e), s),
                 cs, opd, st.regs, {}, Running(p, regs), n, q, regs, regs')
  {
    hide CompDefers, CompE, Eval, Held, Placed, Prefix, Went, Yields;
    var r := if e.Some? then CompE(env.vars, st, e.value, true) else ECode([], st, 0);
    var ret := if e.Some? then Ret1(r.out) else RetN(0);
    var rd := CompDefers(lev, env, |env.defers|, 0, r.st);
    assert CompS(lev, env, st, Return(e)).code == r.code + (rd.code + [ret]);
    if e.Some? { GrowsE(env.vars, st, e.value, true); }
    SettlesDefers(lev, env, |env.defers|, 0, r.st);
    PlacedSplit(P.code, p, r.code, rd.code + [ret], T);
    PlacedSplit(P.code, p + |r.code|, rd.code, [ret], T);
    PlacedOne(P.code, p + |r.code| + |rd.code|, ret, T);
    PendDefers(lev, env, |env.defers|, 0, r.st, 0);
    PlacedAnywhere(P.code, p + |r.code|, rd.code, T);
    PrefixSame(r.st.consts);
    PrefixTrans(r.st.consts, rd.st.consts, P.consts);
    q, cs, opd := p + |r.code|, r.st, r.out;
    if e.Some? {
      n, regs' := ExprRuns(P, T, p, env.vars, st, e.value, true, s, regs);
      YieldsFrom(P, env.vars, regs', r.out, Eval(P.ops, e.value, s).place, st.regs, r.st.regs);
    } else {
      n, regs' := 0, regs;
      WentZero(P, env.vars, st.regs, {}, p, s, regs);
    }
  }

  lemma PrefixSame(a: seq<Value>)
    ensures Prefix(a, a)
  {
  }

  lemma PrefixTrans(a: seq<Value>, b: seq<Value>, c: seq<Value>)
    requires Prefix(a, b) && Prefix(b, c)
    ensures Prefix(a, c)
  {
  }

  lemma YieldsFrom(P: Prog, vars: seq<FCVar>, regs: seq<Value>, x: int, pl: Place, lo: int, hi: int)
    requires Yields(P, vars, regs, x, pl, lo, hi) && |vars| <= lo
    ensures Yields(P, vars, regs, x, pl, |vars|, hi)
  {
  }

  /* ---- if ---- */

  /** The parts of an if statement in their places. */
  lemma IfLayout(P: Prog, T: seq<Target>, p: int, lev: nat, env: Env, st: CState, c: Expr, t: Stmt, f: Option<Stmt>,
                 s: Store, regs: seq<Value>)
    requires WfEnv(lev, env) && Wf(If(c, t, f), |env.loops|, env.top) && Depth(If(c, t, f)) <= lev
    requires Ready(P, T, p, env, st, CompS(lev, env, st, If(c, t, f)), s, regs)
    ensures var rc := CompE(env.vars, st, c, true);
            var st1 := Unwind(rc.st, st.regs);
            var rt := CompS(lev, env, st1, t);
            var q := p + |rc.code|;
            && Placed(P.code, p, rc.code, T) && Room(P, env.vars, st, rc.st, regs) && Room(P, env.vars, st, st, regs)
            && Placed(P.code, q + 1, rt.code, T) && Room(P, env.vars, st1, rt.st, regs) && st1.regs == st.regs
            && 0 <= q && q + 1 + |rt.code| <= |P.code|
            && (f.None? ==> && P.code[q] == CondJump(IfFalse, |rt.code|, rc.out)
                            && |CompS(lev, env, st, If(c, t, f)).code| == |rc.code| + 1 + |rt.code|)
            && (f.Some? ==> var st2 := Check(rt.st, InJumpRange(|rt.code| + 1));
                            var rf := CompS(lev, env, st2, f.value);
                            && q + 1 + |rt.code| < |P.code| && st2.regs == st.regs
                            && P.code[q] == CondJump(IfFalse, |rt.code| + 1, rc.out)
                               && P.code[q + 1 + |rt.code|] == Jump(|rf.code|)
                            && Placed(P.code, q + 2 + |rt.code|, rf.code, T) && Room(P, env.vars, st2, rf.st, regs)
                            && |CompS(lev, env, st, If(c, t, f)).code| == |rc.code| + 2 + |rt.code| + |rf.code|)
  {
    hide Held, Placed, CompE, CompS, Prefix, VarsOk, Wf, Depth, WfEnv;
    IfParts(c, t, f, |env.loops|, env.top, lev);
    IfCode(lev, env, st, c, t, f);
    var rc := CompE(env.vars, st, c, true);
    var st1 := Unwind(rc.st, st.regs);
    var rt := CompS(lev, env, st1, t);
    var q := p + |rc.code|;
    GrowsE(env.vars, st, c, true);
    SettlesS(lev, env, st1, t);
    if f.None? {
      var cj := CondJump(IfFalse, |rt.code|, rc.out);
      assert CompS(lev, env, st, If(c, t, f)).code == rc.code + ([cj] + rt.code);
      PlacedSplit(P.code, p, rc.code, [cj] + rt.code, T);
      PlacedHead(P.code, q, cj, rt.code, T);
      PlacedIn(P.code, q + 1, rt.code, T);
      IfRoom(P, env.vars, st, rc.st, rt.st, rt.st, regs);
    } else {
      var st2 := Check(rt.st, InJumpRange(|rt.code| + 1));
      assert st2 == rt.st;
      var rf := CompS(lev, env, st2, f.value);
      SettlesS(lev, env, st2, f.value);
      var cj, j := CondJump(IfFalse, |rt.code| + 1, rc.out), Jump(|rf.code|);
      assert CompS(lev, env, st, If(c, t, f)).code == rc.code + ([cj] + (rt.code + ([j] + rf.code)));
      PlacedSplit(P.code, p, rc.code, [cj] + (rt.code + ([j] + rf.code)), T);
      PlacedHead(P.code, q, cj, rt.code + ([j] + rf.code), T);
      PlacedSplit(P.code, q + 1, rt.code, [j] + rf.code, T);
      PlacedHead(P.code, q + 1 + |rt.code|, j, rf.code, T);
      IfRoom(P, env.vars, st, rc.st, rt.st, rf.st, regs);
    }
  }

  lemma IfRoom(P: Prog, vars: seq<FCVar>, a: CState, b: CState, c: CState, d: CState, regs: seq<Value>)
    requires Room(P, vars, a, d, regs) && Grows(a, b) && Grows(b, c) && Grows(c, d) && c.regs == a.regs <= b.regs
    ensures Room(P, vars, a, a, regs) && Room(P, vars, a, b, regs) && Room(P, vars, Unwind(b, a.regs), c, regs)
            && Room(P, vars, c, d, regs)
  {
  }

  lemma {:induction false} IfRuns(P: Prog, T: seq<Target>, p: int, lev: nat, env: Env, st: CState, c: Expr, t: Stmt,
                                  f: Option<Stmt>, fuel: nat, s: Store, regs: seq<Value>)
    returns (n: nat, q: int, regs': seq<Value>, cs: CState, opd: int)
    requires WfEnv(lev, env) && Wf(If(c, t, f), |env.loops|, env.top) && Depth(If(c, t, f)) <= lev
             && ScopedS(env.vars, If(c, t, f))
    requires Ready(P, T, p, env, st, CompS(lev, env, st, If(c, t, f)), s, regs)
    ensures Left(P, T, lev, env, |env.defers|, p + |CompS(lev, env, st, If(c, t, f)).code|, fuel,
                 Run(Shared, P.ops, fuel, If(c, t, f), s),
                 cs, opd, st.regs, NumVars(If(c, t, f)), Running(p, regs), n, q, regs, regs')
    decreases fuel, lev, 1, If(c, t, f), 2
  {
    hide Left, CompE, CompS, Eval, Run, Held, Placed, Room, Went, Wf, Depth, WfEnv;
    IfParts(c, t, f, |env.loops|, env.top, lev);
    var w, xs, at := st.regs, NumVars(If(c, t, f)), Running(p, regs);
    var rc := CompE(env.vars, st, c, true);
    var st1 := Unwind(rc.st, w);
    var rt := CompS(lev, env, st1, t);
    var ev := Eval(P.ops, c, s);
    var v := ev.Value();
    IfMeans(P.ops, fuel, c, t, f, s);
    IfLayout(P, T, p, lev, env, st, c, t, f, s, regs);
    var end := p + |CompS(lev, env, st, If(c, t, f)).code|;
    var pc := p + |rc.code|;
    var k, regs1 := ExprRuns(P, T, p, env.vars, st, c, true, s, regs);
    WentLen(P, env.vars, w, {}, at, k, pc, ev.store, regs, regs1);
    RoomLen(P, env.vars, st, rc.st, regs);
    WentReads(P, env.vars, w, {}, at, k, pc, ev.store, regs, regs1, rc.out, ev.place, w, rc.st.regs);
    WentWeaken(P, env.vars, w, {}, w, xs, at, k, pc, ev.store, regs, regs1);
    var jump := P.code[pc];
    WentCond(P, env.vars, w, xs, at, k, pc, ev.store, regs, regs1, IfFalse, jump.off, rc.out, v);
    if Truthy(v) {
      RoomSame(P, env.vars, st1, rt.st, regs, regs1);
      var m, q1, regs2;
      m, q1, regs2, cs, opd := StmtRuns(P, T, pc + 1, lev, env, st1, t, fuel, ev.store, regs1);
      var out := Run(Shared, P.ops, fuel, t, ev.store);
      LeftAfter(P, T, lev, env, |env.defers|, pc + 1 + |rt.code|, fuel, out, cs, opd, w, xs, w, NumVars(t),
                at, k + 1, pc + 1, ev.store, m, q1, regs, regs1, regs2);
      n, q, regs' := k + 1 + m, q1, regs2;
      if f.Some? && out.Normal? {
        LeftNormal(P, T, lev, env, pc + 1 + |rt.code|, fuel, out, cs, opd, w, xs, at, n, q, regs, regs');
        WentGoto(P, env.vars, w, xs, at, n, q, out.store, regs, regs', P.code[q].off);
        RoomSame(P, env.vars, st, st, regs, regs');
        PlacedEnd(P, T, p, lev, env, st, c, t, f);
        LeftAtEnd(P, T, lev, env, fuel, out.store, st, w, xs, at, n + 1, end, regs, regs');
        n, q, cs, opd := n + 1, end, st, 0;
      } else {
        LeftWeaken(P, T, lev, env, |env.defers|, pc + 1 + |rt.code|, fuel, out, end, cs, opd, w, xs, w, xs, at, n, q,
            regs, regs');
      }
    } else if f.Some? {
      var st2 := Check(rt.st, InJumpRange(|rt.code| + 1));
      var rf := CompS(lev, env, st2, f.value);
      RoomSame(P, env.vars, st2, rf.st, regs, regs1);
      var m, q1, regs2;
      m, q1, regs2, cs, opd := StmtRuns(P, T, pc + 2 + |rt.code|, lev, env, st2, f.value, fuel, ev.store, regs1);
      LeftAfter(P, T, lev, env, |env.defers|, end, fuel, Run(Shared, P.ops, fuel, f.value, ev.store), cs, opd, w, xs, w,
          NumVars(f.value),
                at, k + 1, pc + 2 + |rt.code|, ev.store, m, q1, regs, regs1, regs2);
      n, q, regs' := k + 1 + m, q1, regs2;
    } else {
      n, q, regs', cs, opd := k + 1, end, regs1, st, 0;
      RoomSame(P, env.vars, st, st, regs, regs1);
      LeftAtEnd(P, T, lev, env, fuel, ev.store, st, w, xs, at, n, end, regs, regs1);
    }
  }

  lemma IfMeans(ops: Ops, fuel: nat, c: Expr, t: Stmt, f: Option<Stmt>, s: Store)
    ensures var ev := Eval(ops, c, s);
            var other := if f.Some? then Run(Shared, ops, fuel, f.value, ev.store) else Normal(ev.store);
            Run(Shared, ops, fuel, If(c, t, f), s) == if Truthy(ev.Value()) then Run(Shared, ops, fuel, t, ev.store)
                else other
  {
  }

  lemma RoomLen(P: Prog, vars: seq<FCVar>, lo: CState, hi: CState, regs: seq<Value>)
    requires Room(P, vars, lo, hi, regs)
    ensures |vars| <= lo.regs && |regs| <= 256
  {
  }

  lemma PlacedEnd(P: Prog, T: seq<Target>, p: int, lev: nat, env: Env, st: CState, c: Expr, t: Stmt, f: Option<Stmt>)
    requires WfEnv(lev, env) && Wf(If(c, t, f), |env.loops|, env.top) && Depth(If(c, t, f)) <= lev
    requires Placed(P.code, p, CompS(lev, env, st, If(c, t, f)).code, T)
    ensures 0 <= p + |CompS(lev, env, st, If(c, t, f)).code| <= |P.code|
  {
    hide CompS;
  }

  /* ---- loops ---- */

  /** A body that goes round again is at the loop's continue target. */
  lemma LoopAgain(P: Prog, T: seq<Target>, lev: nat, env: Env, tgt: Target, fuel: nat, out: Outcome, cs: CState,
                  opd: int,
                  w: int, xs: set<Name>, a: Config, n: nat, q: int, regs: seq<Value>, regs': seq<Value>)
    returns (n': nat)
    requires WfEnv(lev, env) && WfEnv(lev, EnterLoop(env)) && GoesRound(out)
    requires Left(P, T + [tgt], lev, EnterLoop(env), |env.defers|, tgt.cont, fuel, out, cs, opd, w, xs, a, n, q, regs,
             regs')
    ensures Went(P, env.vars, w, xs, a, n', tgt.cont, out.store, regs, regs') && |regs'| == |regs|
            && Held(env.vars, out.store, regs')
  {
    hide Went, AtExit, Held;
    n' := n;
    if out.Normal? {
      LeftNormal(P, T + [tgt], lev, EnterLoop(env), tgt.cont, fuel, out, cs, opd, w, xs, a, n, q, regs, regs');
    } else {
      AtTail(P, lev, EnterLoop(env), cs, ToPc(tgt.cont), q, regs');
      WentGoto(P, env.vars, w, xs, a, n, q, out.store, regs, regs', P.code[q].off);
      n' := n + 1;
      WentLen(P, env.vars, w, xs, a, n', tgt.cont, out.store, regs, regs');
    }
  }

  /** A body that does not go round leaves the loop, with one loop less still to leave. */
  lemma LoopLeave(P: Prog, T: seq<Target>, lev: nat, env: Env, st: CState, tgt: Target, fuel: nat, out: Outcome,
                  cs: CState, opd: int,
                  w: int, xs: set<Name>, a: Config, n: nat, q: int, regs: seq<Value>, regs': seq<Value>)
    returns (n': nat, q': int, cs': CState, opd': int)
    requires WfEnv(lev, env) && WfEnv(lev, EnterLoop(env)) && !GoesRound(out)
    requires Left(P, T + [tgt], lev, EnterLoop(env), |env.defers|, tgt.cont, fuel, out, cs, opd, w, xs, a, n, q, regs,
             regs')
    requires Room(P, env.vars, st, st, regs) && w <= st.regs && 0 <= tgt.brk <= |P.code|
    ensures Left(P, T, lev, env, |env.defers|, tgt.brk, fuel, LeaveLoop(out), cs', opd', w, xs, a, n', q', regs, regs')
  {
    hide Went, AtExit, Room, Runs;
    n', q', cs', opd' := n, q, cs, opd;
    if out.Breaks? && out.n == 1 {
      AtTail(P, lev, EnterLoop(env), cs, ToPc(tgt.brk), q, regs');
      WentGoto(P, env.vars, w, xs, a, n, q, out.store, regs, regs', P.code[q].off);
      RoomSame(P, env.vars, st, st, regs, regs');
      n', q', cs', opd' := n + 1, tgt.brk, st, 0;
      LeftAtEnd(P, T, lev, env, fuel, out.store, st, w, xs, a, n', q', regs, regs');
    } else if !out.Timeout? {
      AtExitOuter(P, lev, EnterLoop(env), env, EndOf(EnterLoop(env), |env.defers|, out), cs,
          TailOf(T + [tgt], tgt.cont, opd, out), q, regs');
    }
  }

  lemma EnterLoopWf(lev: nat, env: Env)
    requires WfEnv(lev, env)
    ensures WfEnv(lev, EnterLoop(env))
  {
  }

  /** The parts of a for or while loop in their places, from its test on. */
  ghost predicate ForPlaced(P: Prog, T: seq<Target>, lev: nat, env: Env, st: CState, st1: CState, test: Option<Expr>,
                            incr: Option<seq<Expr>>, body: seq<Stmt>,
                            rc: ECode, rb: SCode, ru: SCode, pt: int, pb: int, regs: seq<Value>)
    requires WfEnv(lev, env) && WfSeq(body, |env.loops| + 1, env.top) && DepthSeq(body) <= lev
  {
    var st2, st3 := Unwind(rc.st, st.regs), Unwind(rb.st, st.regs);
    var pu := pb + |rb.code|;
    var pj := pu + |ru.code|;
    && VarsOk(env.vars) && |T| == |env.loops| && st1.regs == st.regs && WfEnv(lev, EnterLoop(env))
    && rc == (if test.Some? then CompE(env.vars, st1, test.value, true) else ECode([], st1, 0))
    && rb == CompSeq(lev, EnterLoop(env), |env.defers|, st2, body)
    && ru == CompInit(env.vars, st3, incr)
    && Placed(P.code, pt, rc.code, T)
    && (if test.Some? then pb == pt + |rc.code| + 1 && 0 < pb <= |P.code|
       && P.code[pb - 1] == CondJump(IfFalse, pj + 1 - pb, rc.out) else pb == pt)
    && Placed(P.code, pb, rb.code, T + [Target(pj + 1, pu)])
    && Placed(P.code, pu, ru.code, T)
    && 0 <= pj < |P.code| && P.code[pj] == Jump(pt - pj - 1)
    && Room(P, env.vars, st, st, regs) && Room(P, env.vars, st1, rc.st, regs) && Room(P, env.vars, st2, rb.st, regs)
       && Room(P, env.vars, st3, ru.st, regs)
  }

  lemma ForPlacedSame(P: Prog, T: seq<Target>, lev: nat, env: Env, st: CState, st1: CState, test: Option<Expr>,
                      incr: Option<seq<Expr>>, body: seq<Stmt>,
                      rc: ECode, rb: SCode, ru: SCode, pt: int, pb: int, regs: seq<Value>, regs': seq<Value>)
    requires WfEnv(lev, env) && WfSeq(body, |env.loops| + 1, env.top) && DepthSeq(body) <= lev
    requires ForPlaced(P, T, lev, env, st, st1, test, incr, body, rc, rb, ru, pt, pb, regs) && |regs'| == |regs|
    ensures ForPlaced(P, T, lev, env, st, st1, test, incr, body, rc, rb, ru, pt, pb, regs')
  {
    hide Placed, CompE, CompSeq, CompInit;
  }

  /** One test of the loop condition: on to the body, or out at the end. */
  lemma ForTest(P: Prog, T: seq<Target>, lev: nat, env: Env, st: CState, st1: CState, test: Option<Expr>,
                incr: Option<seq<Expr>>, body: seq<Stmt>,
                rc: ECode, rb: SCode, ru: SCode, pt: int, pb: int, s: Store, regs: seq<Value>)
    returns (n: nat, regs': seq<Value>)
    requires WfEnv(lev, env) && WfSeq(body, |env.loops| + 1, env.top) && DepthSeq(body) <= lev
    requires ForPlaced(P, T, lev, env, st, st1, test, incr, body, rc, rb, ru, pt, pb, regs) && ScopedO(env.vars, test)
             && Held(env.vars, s, regs)
    ensures var r := if test.Some? then Eval(P.ops, test.value, s) else Evaluated(s, Temp(Bool(true)));
            var q := if Truthy(r.Value()) then pb else pb + |rb.code| + |ru.code| + 1;
            Went(P, env.vars, st.regs, {}, Running(pt, regs), n, q, r.store, regs, regs') && |regs'| == |regs|
                && Held(env.vars, r.store, regs')
  {
    hide CompE, CompSeq, CompInit, Eval, Held, Placed, Room, Went, Holds;
    var at, w := Running(pt, regs), st.regs;
    if test.Some? {
      var ev := Eval(P.ops, test.value, s);
      var k;
      k, regs' := ExprRuns(P, T, pt, env.vars, st1, test.value, true, s, regs);
      RoomLen(P, env.vars, st1, rc.st, regs);
      WentLen(P, env.vars, w, {}, at, k, pb - 1, ev.store, regs, regs');
      WentReads(P, env.vars, w, {}, at, k, pb - 1, ev.store, regs, regs', rc.out, ev.place, w, rc.st.regs);
      WentCond(P, env.vars, w, {}, at, k, pb - 1, ev.store, regs, regs', IfFalse, P.code[pb - 1].off, rc.out,
          ev.Value());
      assert Holds(IfFalse, ev.Value()) == !Truthy(ev.Value()) by { HoldsFalse(ev.Value()); }
      n := k + 1;
    } else {
      n, regs' := 0, regs;
      WentZero(P, env.vars, w, {}, pt, s, regs);
      assert Truthy(Bool(true));
    }
  }

  lemma HoldsFalse(v: Value)
    ensures Holds(IfFalse, v) == !Truthy(v)
  {
  }

  lemma {:induction false} ForLoop(P: Prog, T: seq<Target>, lev: nat, env: Env, st: CState, st1: CState,
                                   test: Option<Expr>, incr: Option<seq<Expr>>, body: seq<Stmt>,
                                   rc: ECode, rb: SCode, ru: SCode, pt: int, pb: int, fuel: nat, s: Store,
                                       regs: seq<Value>)
    returns (n: nat, q: int, regs': seq<Value>, cs: CState, opd: int)
    requires WfEnv(lev, env) && WfSeq(body, |env.loops| + 1, env.top) && DepthSeq(body) <= lev
    requires ForPlaced(P, T, lev, env, st, st1, test, incr, body, rc, rb, ru, pt, pb, regs)
    requires ScopedO(env.vars, test) && ScopedEs(env.vars, ListOf(incr)) && ScopedSeq(env.vars, body)
             && Held(env.vars, s, regs)
    ensures Left(P, T, lev, env, |env.defers|, pb + |rb.code| + |ru.code| + 1, fuel,
                 RunFor(Shared, P.ops, fuel, test, ListOf(incr), body, s),
                 cs, opd, st.regs, NumVarsSeq(body), Running(pt, regs), n, q, regs, regs')
    decreases fuel, lev, 1, body, 1
  {
    hide CompE, CompSeq, CompInit, Eval, RunSeq, RunFor, Held, Placed, Room, Went, Left, Effects, ScopedSeq;
    var w, xs, at := st.regs, NumVarsSeq(body), Running(pt, regs);
    var pu := pb + |rb.code|;
    var pj := pu + |ru.code|;
    var tgt := Target(pj + 1, pu);
    ForMeans(P.ops, fuel, test, ListOf(incr), body, s);
    var r := if test.Some? then Eval(P.ops, test.value, s) else Evaluated(s, Temp(Bool(true)));
    var k, regs1 := ForTest(P, T, lev, env, st, st1, test, incr, body, rc, rb, ru, pt, pb, s, regs);
    var q1 := if Truthy(r.Value()) then pb else pj + 1;
    WentWeaken(P, env.vars, w, {}, w, xs, at, k, q1, r.store, regs, regs1);
    RoomSame(P, env.vars, st, st, regs, regs1);
    if !Truthy(r.Value()) {
      n, q, regs', cs, opd := k, q1, regs1, st, 0;
      LeftAtEnd(P, T, lev, env, fuel, r.store, st, w, xs, at, n, q, regs, regs1);
      return;
    }
    RoomSame(P, env.vars, Unwind(rc.st, w), rb.st, regs, regs1);
    var m, q2, regs2, cs2,
        opd2 := SeqRuns(P, T + [tgt], pb, lev, EnterLoop(env), |env.defers|, Unwind(rc.st, w), body, fuel, r.store,
        regs1);
    var out := RunSeq(Shared, P.ops, fuel, body, r.store);
    if !GoesRound(out) {
      var m', q3, cs3, opd3 := LoopLeave(P, T, lev, env, st, tgt, fuel, out, cs2, opd2, w, xs, Running(pb, regs1), m,
          q2, regs1, regs2);
      LeftAfter(P, T, lev, env, |env.defers|, pj + 1, fuel, LeaveLoop(out), cs3, opd3, w, xs, w, xs, at, k, pb,
          r.store, m', q3, regs, regs1, regs2);
      n, q, regs', cs, opd := k + m', q3, regs2, cs3, opd3;
      return;
    }
    var m' := LoopAgain(P, T, lev, env, tgt, fuel, out, cs2, opd2, w, xs, Running(pb, regs1), m, q2, regs1, regs2);
    WentThen(P, env.vars, w, xs, w, xs, at, k, pb, r.store, m', pu, out.store, regs, regs1, regs2);
    RoomSame(P, env.vars, Unwind(rb.st, w), ru.st, regs, regs2);
    PlacedIn(P.code, pu, ru.code, T);
    var j, regs3 := InitRuns(P, T, pu, env.vars, Unwind(rb.st, w), incr, out.store, regs2);
    var s3 := Effects(P.ops, ListOf(incr), out.store);
    WentThen(P, env.vars, w, xs, w, {}, at, k + m', pu, out.store, j, pj, s3, regs, regs2, regs3);
    WentGoto(P, env.vars, w, xs, at, k + m' + j, pj, s3, regs, regs3, pt - pj - 1);
    var t := k + m' + j + 1;
    if fuel == 0 {
      n, q, regs', cs, opd := t, pt, regs3, st, 0;
      LeftTimeout(P, T, lev, env, pj + 1, fuel, st, w, xs, at, n, pt, s3, regs, regs3);
    } else {
      WentLen(P, env.vars, w, xs, at, t, pt, s3, regs, regs3);
      ForPlacedSame(P, T, lev, env, st, st1, test, incr, body, rc, rb, ru, pt, pb, regs, regs3);
      var n4, q4, regs4, cs4,
          opd4 := ForLoop(P, T, lev, env, st, st1, test, incr, body, rc, rb, ru, pt, pb, fuel - 1, s3, regs3);
      var o4 := RunFor(Shared, P.ops, fuel - 1, test, ListOf(incr), body, s3);
      LeftRound(P, T, lev, env, pj + 1, fuel, o4, cs4, opd4, w, xs, at, t, pt, s3, n4, q4, regs, regs3, regs4);
      n, q, regs', cs, opd := t + n4, q4, regs4, cs4, opd4;
    }
  }

  lemma ForMeans(ops: Ops, fuel: nat, test: Option<Expr>, incr: seq<Expr>, body: seq<Stmt>, s: Store)
    ensures var r := if test.Some? then Eval(ops, test.value, s) else Evaluated(s, Temp(Bool(true)));
            var out := RunSeq(Shared, ops, fuel, body, r.store);
            var run := RunFor(Shared, ops, fuel, test, incr, body, s);
            && (!Truthy(r.Value()) ==> run == Normal(r.store))
            && (Truthy(r.Value()) && !GoesRound(out) ==> run == LeaveLoop(out))
            && (Truthy(r.Value()) && GoesRound(out) && fuel == 0 ==> run == Timeout)
            && (Truthy(r.Value()) && GoesRound(out) && fuel > 0 ==>
               run == RunFor(Shared, ops, fuel - 1, test, incr, body, Effects(ops, incr, out.store)))
  {
    hide Eval, RunSeq, Effects;
  }

  lemma LeftTimeout(P: Prog, T: seq<Target>, lev: nat, env: Env, end: int, fuel: nat, cs: CState, w: int,
                    xs: set<Name>, a: Config, n: nat, q: int,
                    s: Store, regs: seq<Value>, regs': seq<Value>)
    requires WfEnv(lev, env) && fuel == 0 && Went(P, env.vars, w, xs, a, n, q, s, regs, regs')
    ensures Left(P, T, lev, env, |env.defers|, end, fuel, Timeout, cs, 0, w, xs, a, n, q, regs, regs')
  {
  }

  /** One round, which took at least one step, and then the rest with less fuel. */
  lemma LeftRound(P: Prog, T: seq<Target>, lev: nat, env: Env, end: int, fuel: nat, out: Outcome, cs: CState,
                  opd: int, w: int, xs: set<Name>,
                  a: Config, m: nat, q: int, s: Store, n: nat, q': int, regs: seq<Value>, regs1: seq<Value>,
                      regs2: seq<Value>)
    requires WfEnv(lev, env) && fuel > 0 && m > 0 && Went(P, env.vars, w, xs, a, m, q, s, regs, regs1)
             && |regs1| == |regs|
    requires Left(P, T, lev, env, |env.defers|, end, fuel - 1, out, cs, opd, w, xs, Running(q, regs1), n, q', regs1,
             regs2)
    ensures Left(P, T, lev, env, |env.defers|, end, fuel, out, cs, opd, w, xs, a, m + n, q', regs, regs2)
  {
    hide AtExit, Keeps, Held, Keep, Steps;
    if out.Timeout? {
      RunsThen(P, a, m, Running(q, regs1), n, Running(q', regs2));
    } else {
      WentThen(P, env.vars, w, xs, w, xs, a, m, q, s, n, q', out.store, regs, regs1, regs2);
    }
  }

  lemma ForLayout(P: Prog, T: seq<Target>, p: int, lev: nat, env: Env, st: CState, init: Option<seq<Expr>>,
                  test: Option<Expr>, incr: Option<seq<Expr>>, body: seq<Stmt>,
                  s: Store, regs: seq<Value>)
    returns (ri: SCode, rc: ECode, rb: SCode, ru: SCode, pb: int)
    requires WfEnv(lev, env) && WfSeq(body, |env.loops| + 1, env.top) && DepthSeq(body) <= lev
    requires Ready(P, T, p, env, st, CompFor(lev, env, st, init, test, incr, body), s, regs)
    ensures ri == CompInit(env.vars, st, init) && Placed(P.code, p, ri.code, T) && Room(P, env.vars, st, ri.st, regs)
    ensures ForPlaced(P, T, lev, env, st, ri.st, test, incr, body, rc, rb, ru, p + |ri.code|, pb, regs)
            && 0 <= p <= |P.code|
    ensures p + |CompFor(lev, env, st, init, test, incr, body).code| == pb + |rb.code| + |ru.code| + 1
  {
    hide Held, Placed, CompE, CompSeq, CompInit, Patch, Prefix, PatchInRange, VarsOk, Resolves;
    var d := |env.loops| + 1;
    ri := CompInit(env.vars, st, init);
    var pt := p + |ri.code|;
    rc := if test.Some? then CompE(env.vars, ri.st, test.value, true) else ECode([], ri.st, 0);
    var st2 := Unwind(rc.st, st.regs);
    rb := CompSeq(lev, EnterLoop(env), |env.defers|, st2, body);
    var st3 := Unwind(rb.st, st.regs);
    ru := CompInit(env.vars, st3, incr);
    var cj := CondJump(IfFalse, |rb.code| + |ru.code| + 1, rc.out);
    var skip := if test.Some? then [cj] else [];
    pb := pt + |rc.code| + |skip|;
    var jump := Jump(-(|rc.code| + |skip| + |rb.code| + |ru.code|) - 1);
    var b1 := Patch(rb.code, d, true, |rb.code|);
    var b2 := Patch(b1, d, false, |rb.code| + |ru.code| + 1);
    ForGrows(lev, env, st, init, test, incr, body);
    PlacedIn(P.code, p, CompFor(lev, env, st, init, test, incr, body).code, T);
    PlacedSplit(P.code, p, ri.code, rc.code + (skip + (b2 + (ru.code + [jump]))), T);
    PlacedSplit(P.code, pt, rc.code, skip + (b2 + (ru.code + [jump])), T);
    PlacedSplit(P.code, pt + |rc.code|, skip, b2 + (ru.code + [jump]), T);
    PlacedSplit(P.code, pb, b2, ru.code + [jump], T);
    PlacedSplit(P.code, pb + |rb.code|, ru.code, [jump], T);
    PlacedAre(P.code, pb + |rb.code| + |ru.code|, jump, T);
    if test.Some? { PlacedAre(P.code, pb - 1, cj, T); }
    PatchedBody(P.code, pb, rb.code, T, |rb.code|, |rb.code| + |ru.code| + 1);
    LoopRooms(P, env.vars, st, ri.st, rc.st, rb.st, ru.st, regs);
  }

  lemma PlacedAre(code: seq<Instr>, p: int, i: Instr, T: seq<Target>)
    requires Placed(code, p, [i], T) && !i.Pend?
    ensures 0 <= p < |code| && code[p] == i
  {
    PlacedOne(code, p, i, T);
  }

  lemma LoopRooms(P: Prog, vars: seq<FCVar>, a: CState, b: CState, c: CState, d: CState, e: CState, regs: seq<Value>)
    requires |vars| <= a.regs && Peak(e) <= |regs| <= 256 && e.ok && Prefix(e.consts, P.consts)
    requires Grows(a, b) && a.regs <= b.regs && Grows(b, c) && a.regs <= c.regs
    requires Grows(Unwind(c, a.regs), d) && a.regs <= d.regs && Grows(Unwind(d, a.regs), e)
    ensures Room(P, vars, a, a, regs) && Room(P, vars, a, b, regs) && Room(P, vars, b, c, regs)
    ensures Room(P, vars, Unwind(c, a.regs), d, regs) && Room(P, vars, Unwind(d, a.regs), e, regs)
  {
  }

  lemma {:induction false} ForRuns(P: Prog, T: seq<Target>, p: int, lev: nat, env: Env, st: CState,
                                   init: Option<seq<Expr>>, test: Option<Expr>, incr: Option<seq<Expr>>,
                                   body: seq<Stmt>,
                                   fuel: nat, s: Store, regs: seq<Value>)
    returns (n: nat, q: int, regs': seq<Value>, cs: CState, opd: int)
    requires WfEnv(lev, env) && WfSeq(body, |env.loops| + 1, env.top) && DepthSeq(body) <= lev
    requires ScopedEs(env.vars, ListOf(init)) && ScopedO(env.vars, test) && ScopedEs(env.vars, ListOf(incr))
             && ScopedSeq(env.vars, body)
    requires Ready(P, T, p, env, st, CompFor(lev, env, st, init, test, incr, body), s, regs)
    ensures Left(P, T, lev, env, |env.defers|, p + |CompFor(lev, env, st, init, test, incr, body).code|, fuel,
                 RunFor(Shared, P.ops, fuel, test, ListOf(incr), body, Effects(P.ops, ListOf(init), s)),
                 cs, opd, st.regs, NumVarsSeq(body), Running(p, regs), n, q, regs, regs')
    decreases fuel, lev, 1, body, 2
  {
    hide CompE, CompSeq, CompInit, CompFor, Eval, RunFor, Held, Placed, Room, Went, Left, Effects, ScopedSeq, ForPlaced;
    var ri, rc, rb, ru, pb := ForLayout(P, T, p, lev, env, st, init, test, incr, body, s, regs);
    var w, xs, at, pt := st.regs, NumVarsSeq(body), Running(p, regs), p + |ri.code|;
    var s1 := Effects(P.ops, ListOf(init), s);
    var k, regs1 := InitRuns(P, T, p, env.vars, st, init, s, regs);
    WentLen(P, env.vars, w, {}, at, k, pt, s1, regs, regs1);
    ForPlacedSame(P, T, lev, env, st, ri.st, test, incr, body, rc, rb, ru, pt, pb, regs, regs1);
    var m;
    m, q, regs', cs, opd := ForLoop(P, T, lev, env, st, ri.st, test, incr, body, rc, rb, ru, pt, pb, fuel, s1, regs1);
    WentWeaken(P, env.vars, w, {}, w, xs, at, k, pt, s1, regs, regs1);
    LeftAfter(P, T, lev, env, |env.defers|, pb + |rb.code| + |ru.code| + 1, fuel,
        RunFor(Shared, P.ops, fuel, test, ListOf(incr), body, s1), cs, opd, w, xs, w, xs,
              at, k, pt, s1, m, q, regs, regs1, regs');
    n := k + m;
  }

  /* ---- do/while ---- */

  ghost predicate DoPlaced(P: Prog, T: seq<Target>, lev: nat, env: Env, st: CState, body: seq<Stmt>, c: Expr,
                           rb: SCode, rc: ECode, p: int, regs: seq<Value>)
    requires WfEnv(lev, env) && WfSeq(body, |env.loops| + 1, env.top) && DepthSeq(body) <= lev
  {
    var pu := p + |rb.code|;
    var pj := pu + |rc.code|;
    && VarsOk(env.vars) && |T| == |env.loops| && WfEnv(lev, EnterLoop(env))
    && rb == CompSeq(lev, EnterLoop(env), |env.defers|, st, body)
    && rc == CompE(env.vars, Unwind(rb.st, st.regs), c, true)
    && Placed(P.code, p, rb.code, T + [Target(pj + 1, pu)])
    && Placed(P.code, pu, rc.code, T)
    && 0 <= pj < |P.code| && P.code[pj] == CondJump(IfTrue, p - pj - 1, rc.out)
    && Room(P, env.vars, st, st, regs) && Room(P, env.vars, st, rb.st, regs)
       && Room(P, env.vars, Unwind(rb.st, st.regs), rc.st, regs)
  }

  lemma DoPlacedSame(P: Prog, T: seq<Target>, lev: nat, env: Env, st: CState, body: seq<Stmt>, c: Expr, rb: SCode,
                     rc: ECode, p: int,
                     regs: seq<Value>, regs': seq<Value>)
    requires WfEnv(lev, env) && WfSeq(body, |env.loops| + 1, env.top) && DepthSeq(body) <= lev
    requires DoPlaced(P, T, lev, env, st, body, c, rb, rc, p, regs) && |regs'| == |regs|
    ensures DoPlaced(P, T, lev, env, st, body, c, rb, rc, p, regs')
  {
    hide Placed, CompE, CompSeq;
  }

  lemma DoLayout(P: Prog, T: seq<Target>, p: int, lev: nat, env: Env, st: CState, body: seq<Stmt>, c: Expr, s: Store,
                 regs: seq<Value>)
    returns (rb: SCode, rc: ECode)
    requires WfEnv(lev, env) && WfSeq(body, |env.loops| + 1, env.top) && DepthSeq(body) <= lev
    requires Ready(P, T, p, env, st, CompDo(lev, env, st, body, c), s, regs)
    ensures DoPlaced(P, T, lev, env, st, body, c, rb, rc, p, regs)
    ensures p + |CompDo(lev, env, st, body, c).code| == p + |rb.code| + |rc.code| + 1
  {
    hide Held, Placed, CompE, CompSeq, Patch, Prefix, PatchInRange, VarsOk, Resolves;
    var d := |env.loops| + 1;
    EnterLoopWf(lev, env);
    rb := CompSeq(lev, EnterLoop(env), |env.defers|, st, body);
    rc := CompE(env.vars, Unwind(rb.st, st.regs), c, true);
    SettlesSeq(lev, EnterLoop(env), |env.defers|, st, body);
    GrowsE(env.vars, Unwind(rb.st, st.regs), c, true);
    var b1 := Patch(rb.code, d, true, |rb.code|);
    var b2 := Patch(b1, d, false, |rb.code| + |rc.code| + 1);
    var cj := CondJump(IfTrue, -(|rb.code| + |rc.code|) - 1, rc.out);
    PlacedSplit(P.code, p, b2, rc.code + [cj], T);
    PlacedSplit(P.code, p + |rb.code|, rc.code, [cj], T);
    PlacedAre(P.code, p + |rb.code| + |rc.code|, cj, T);
    PatchedBody(P.code, p, rb.code, T, |rb.code|, |rb.code| + |rc.code| + 1);
    DoRooms(P, env.vars, st, rb.st, rc.st, regs);
  }

  lemma DoRooms(P: Prog, vars: seq<FCVar>, a: CState, b: CState, c: CState, regs: seq<Value>)
    requires |vars| <= a.regs && Peak(c) <= |regs| <= 256 && c.ok && Prefix(c.consts, P.consts)
    requires Grows(a, b) && a.regs <= b.regs && Grows(Unwind(b, a.regs), c)
    ensures Room(P, vars, a, a, regs) && Room(P, vars, a, b, regs) && Room(P, vars, Unwind(b, a.regs), c, regs)
  {
  }

  lemma {:induction false} DoRuns(P: Prog, T: seq<Target>, p: int, lev: nat, env: Env, st: CState, body: seq<Stmt>,
                                  c: Expr, fuel: nat, s: Store, regs: seq<Value>)
    returns (n: nat, q: int, regs': seq<Value>, cs: CState, opd: int)
    requires WfEnv(lev, env) && WfSeq(body, |env.loops| + 1, env.top) && DepthSeq(body) <= lev
    requires ScopedE(env.vars, c) && ScopedSeq(env.vars, body)
    requires Ready(P, T, p, env, st, CompDo(lev, env, st, body, c), s, regs)
    ensures Left(P, T, lev, env, |env.defers|, p + |CompDo(lev, env, st, body, c).code|, fuel,
                 RunDo(Shared, P.ops, fuel, body, c, s),
                 cs, opd, st.regs, NumVarsSeq(body), Running(p, regs), n, q, regs, regs')
    decreases fuel, lev, 1, body, 2
  {
    hide CompE, CompSeq, CompDo, RunDo, Held, Placed, Room, Left, ScopedSeq, DoPlaced;
    var rb, rc := DoLayout(P, T, p, lev, env, st, body, c, s, regs);
    n, q, regs', cs, opd := DoLoop(P, T, p, lev, env, st, body, c, rb, rc, fuel, s, regs);
  }

  lemma {:induction false} DoLoop(P: Prog, T: seq<Target>, p: int, lev: nat, env: Env, st: CState, body: seq<Stmt>,
                                  c: Expr, rb: SCode, rc: ECode,
                                  fuel: nat, s: Store, regs: seq<Value>)
    returns (n: nat, q: int, regs': seq<Value>, cs: CState, opd: int)
    requires WfEnv(lev, env) && WfSeq(body, |env.loops| + 1, env.top) && DepthSeq(body) <= lev
    requires DoPlaced(P, T, lev, env, st, body, c, rb, rc, p, regs)
    requires ScopedE(env.vars, c) && ScopedSeq(env.vars, body) && Held(env.vars, s, regs)
    ensures Left(P, T, lev, env, |env.defers|, p + |rb.code| + |rc.code| + 1, fuel,
                 RunDo(Shared, P.ops, fuel, body, c, s),
                 cs, opd, st.regs, NumVarsSeq(body), Running(p, regs), n, q, regs, regs')
    decreases fuel, lev, 1, body, 1
  {
    hide CompE, CompSeq, Eval, RunSeq, RunDo, Held, Placed, Room, Went, Left, ScopedSeq;
    var w, xs, at := st.regs, NumVarsSeq(body), Running(p, regs);
    var pu := p + |rb.code|;
    var pj := pu + |rc.code|;
    var tgt := Target(pj + 1, pu);
    var st3 := Unwind(rb.st, w);
    DoMeans(P.ops, fuel, body, c, s);
    var m, q2, regs2, cs2, opd2 := SeqRuns(P, T + [tgt], p, lev, EnterLoop(env), |env.defers|, st, body, fuel, s, regs);
    var out := RunSeq(Shared, P.ops, fuel, body, s);
    if !GoesRound(out) {
      var m', q3, cs3, opd3 := LoopLeave(P, T, lev, env, st, tgt, fuel, out, cs2, opd2, w, xs, at, m, q2, regs, regs2);
      n, q, regs', cs, opd := m', q3, regs2, cs3, opd3;
      return;
    }
    var m' := LoopAgain(P, T, lev, env, tgt, fuel, out, cs2, opd2, w, xs, at, m, q2, regs, regs2);
    RoomSame(P, env.vars, st3, rc.st, regs, regs2);
    RoomLen(P, env.vars, st3, rc.st, regs2);
    var ev := Eval(P.ops, c, out.store);
    var v := ev.Value();
    var k, regs3 := ExprRuns(P, T, pu, env.vars, st3, c, true, out.store, regs2);
    WentThen(P, env.vars, w, xs, w, {}, at, m', pu, out.store, k, pj, ev.store, regs, regs2, regs3);
    WentReads(P, env.vars, w, xs, at, m' + k, pj, ev.store, regs, regs3, rc.out, ev.place, w, rc.st.regs);
    WentCond(P, env.vars, w, xs, at, m' + k, pj, ev.store, regs, regs3, IfTrue, p - pj - 1, rc.out, v);
    var t := m' + k + 1;
    RoomSame(P, env.vars, st, st, regs, regs3);
    if !Truthy(v) {
      n, q, regs', cs, opd := t, pj + 1, regs3, st, 0;
      LeftAtEnd(P, T, lev, env, fuel, ev.store, st, w, xs, at, n, q, regs, regs3);
    } else if fuel == 0 {
      n, q, regs', cs, opd := t, p, regs3, st, 0;
      LeftTimeout(P, T, lev, env, pj + 1, fuel, st, w, xs, at, n, p, ev.store, regs, regs3);
    } else {
      WentLen(P, env.vars, w, xs, at, t, p, ev.store, regs, regs3);
      DoPlacedSame(P, T, lev, env, st, body, c, rb, rc, p, regs, regs3);
      var n4, q4, regs4, cs4, opd4 := DoLoop(P, T, p, lev, env, st, body, c, rb, rc, fuel - 1, ev.store, regs3);
      LeftRound(P, T, lev, env, pj + 1, fuel, RunDo(Shared, P.ops, fuel - 1, body, c, ev.store), cs4, opd4, w, xs, at,
          t, p,
          ev.store, n4, q4, regs, regs3, regs4);
      n, q, regs', cs, opd := t + n4, q4, regs4, cs4, opd4;
    }
  }

  lemma DoMeans(ops: Ops, fuel: nat, body: seq<Stmt>, c: Expr, s: Store)
    ensures var out := RunSeq(Shared, ops, fuel, body, s);
            var run := RunDo(Shared, ops, fuel, body, c, s);
            && (!GoesRound(out) ==> run == LeaveLoop(out))
            && (GoesRound(out) ==> var r := Eval(ops, c, out.store);
                                   && (!Truthy(r.Value()) ==> run == Normal(r.store))
                                   && (Truthy(r.Value()) && fuel == 0 ==> run == Timeout)
                                   && (Truthy(r.Value()) && fuel > 0 ==>
                                      run == RunDo(Shared, ops, fuel - 1, body, c, r.store)))
  {
    hide Eval, RunSeq;
  }

  /* ---- numeric for ---- */

  /** The value of a bound, or its default. */
  function Bound(ops: Ops, e: Option<Expr>, v: int, s: Store): Evaluated {
    if e.Some? then Eval(ops, e.value, s) else Evaluated(s, Temp(Int(v)))
  }

  /** The other two hidden registers behind `r` are unchanged. */
  predicate OthersSame(r: int, k: int, regs: seq<Value>, regs': seq<Value>) {
    && 0 <= r && r + 3 < |regs| && |regs'| == |regs|
    && (k != 1 ==> regs'[r + 1] == regs[r + 1]) && (k != 2 ==> regs'[r + 2] == regs[r + 2])
       && (k != 3 ==> regs'[r + 3] == regs[r + 3])
  }

  /** A hidden register of `x` is untouched by whatever touches other loops' only. */
  lemma HiddenKept(vars: seq<FCVar>, x: Name, xs: set<Name>, w: int, regs: seq<Value>, regs': seq<Value>)
    requires VarsOk(vars) && ScopedNum(vars, x) && x !in xs && |vars| <= w && |vars| <= |regs|
    requires (forall y | y in xs :: ScopedNum(vars, y)) && Keep(vars, w, xs, regs, regs')
    ensures OthersSame(Find(vars, x), 0, regs, regs') && Find(vars, x) + 3 < |vars|
  {
    hide Find, IsHidden, Kept, VarsOk;
    HiddenApart(vars, x, xs, 1);
    HiddenApart(vars, x, xs, 2);
    HiddenApart(vars, x, xs, 3);
  }

  /** Storing an operand into a hidden register of `x`. */
  lemma {:induction false} HiddenStore(P: Prog, T: seq<Target>, vars: seq<FCVar>, x: Name, k: int, src: int, v: Value,
                          w: int,
                    at: Config, m: nat, q: int, s: Store,
                    regs: seq<Value>, regs1: seq<Value>, code: seq<Instr>)
    returns (n: nat, regs': seq<Value>)
    requires VarsOk(vars) && ScopedNum(vars, x) && 1 <= k <= 3 && |vars| <= w
    requires Went(P, vars, w, {}, at, m, q, s, regs, regs1) && Operand(P, regs1, src) == v && |regs1| <= 256
    requires code == [Set(Find(vars, x) + k, src)] || (code == [] && src == Find(vars, x) + k)
    requires Placed(P.code, q, code, T)
    ensures Went(P, vars, w, {x}, at, n, q + |code|, s[Hid(x, k) := v], regs, regs') && |regs'| == |regs|
            && Find(vars, x) + 3 < |vars| <= |regs|
    ensures regs'[Find(vars, x) + k] == v
    ensures OthersSame(Find(vars, x), k, regs, regs')
  {
    hide Find, IsHidden, Hid, Held, Runs, VarsOk;
    var r := Find(vars, x);
    HiddenApart(vars, x, {}, k);
    WentLen(P, vars, w, {}, at, m, q, s, regs, regs1);
    HeldLen(vars, s, regs1);
    HiddenKept(vars, x, {}, w, regs, regs1);
    HeldHidden(vars, s, regs1, x, k, v);
    if code == [] {
      n, regs' := m, regs1;
      WentWeaken(P, vars, w, {}, w, {x}, at, m, q, s, regs, regs1);
      assert Write(regs1, r + k, v) == regs1;
    } else {
      PlacedOne(P.code, q, Set(r + k, src), T);
      RunsStep(P, at, m, q, regs1);
      n, regs' := m + 1, Write(regs1, r + k, v);
      assert Owned(vars, r + k, {x});
    }
  }

  lemma {:induction false} HeldLen(vars: seq<FCVar>, s: Store, regs: seq<Value>)
    requires Held(vars, s, regs)
    ensures |vars| <= |regs|
  {
  }

  /** A hidden register is written, and the store says so. */
  lemma {:induction false} HeldHidden(vars: seq<FCVar>, s: Store, regs: seq<Value>, x: Name, k: int, v: Value)
    requires VarsOk(vars) && ScopedNum(vars, x) && Held(vars, s, regs) && 1 <= k <= 3
    ensures HasHidden(vars, Find(vars, x)) && Held(vars, s[Hid(x, k) := v], Write(regs, Find(vars, x) + k, v))
  {
    hide Find, IsHidden, Hid, Tracks;
    var i, s' := Find(vars, x) + k, s[Hid(x, k) := v];
    assert HasHidden(vars, Find(vars, x));
    HidApart(x, k, x, k);
    forall y | !IsHidden(y) && Find(vars, y) >= 0 ensures Get(s', y) == Write(regs, i, v)[Find(vars, y)] {
      assert vars[Find(vars, y)].name == y;
    }
    TracksHidden(vars, s, regs, x, k, v);
  }

  lemma {:induction false} TracksHidden(vars: seq<FCVar>, s: Store, regs: seq<Value>, x: Name, k: int, v: Value)
    requires VarsOk(vars) && ScopedNum(vars, x) && |vars| <= |regs| && Tracks(vars, s, regs) && 1 <= k <= 3
    ensures HasHidden(vars, Find(vars, x)) && Tracks(vars, s[Hid(x, k) := v], regs[Find(vars, x) + k := v])
  {
    hide Find, IsHidden, Hid, VarsOk;
    HiddenApart(vars, x, {}, 1);
    forall y | ScopedNum(vars, y) && HasHidden(vars, Find(vars, y))
      ensures TracksAt(s[Hid(x, k) := v], regs[Find(vars, x) + k := v], y, Find(vars, y))
    {
      assert TracksAt(s, regs, y, Find(vars, y));
      HidApart(x, k, y, 1);
      HidApart(x, k, y, 2);
      HidApart(x, k, y, 3);
      if x != y { OtherBlock(vars, x, y); }
    }
  }

  lemma BoundRuns(P: Prog, T: seq<Target>, p: int, vars: seq<FCVar>, st: CState, e: Option<Expr>, v: int, x: Name,
                  k: int, s: Store, regs: seq<Value>)
    returns (n: nat, regs': seq<Value>)
    requires VarsOk(vars) && ScopedNum(vars, x) && ScopedO(vars, e) && 1 <= k <= 3 && Held(vars, s, regs)
    requires var r := CompBound(vars, st, e, v, Find(vars, x) + k);
             Placed(P.code, p, r.code, T) && Room(P, vars, st, r.st, regs)
    ensures var r := CompBound(vars, st, e, v, Find(vars, x) + k);
            var b := Bound(P.ops, e, v, s);
            && Went(P, vars, st.regs, {x}, Running(p, regs), n, p + |r.code|, b.store[Hid(x, k) := b.Value()],
                    regs, regs')
            && Held(vars, b.store[Hid(x, k) := b.Value()], regs')
            && |regs'| == |regs| && Find(vars, x) + 3 < |vars| <= |regs|
            && regs'[Find(vars, x) + k] == b.Value()
            && OthersSame(Find(vars, x), k, regs, regs')
  {
    hide Find, Held, Placed, Went, CompE, Eval, Prefix, ConstIndex;
    var dst, at := Find(vars, x) + k, Running(p, regs);
    var b := Bound(P.ops, e, v, s);
    var r := if e.Some? then CompE(vars, st, e.value, true) else CompE(vars, st, Const(Int(v)), true);
    ConstMeans(P.ops, vars, st, v, s);
    var w := if e.Some? then CompWrite(dst, r.out) else [Set(dst, r.out)];
    GrowsE(vars, st, if e.Some? then e.value else Const(Int(v)), true);
    PlacedSplit(P.code, p, r.code, w, T);
    var m, regs1 := ExprRuns(P, T, p, vars, st, if e.Some? then e.value else Const(Int(v)), true, s, regs);
    var q := p + |r.code|;
    WentReads(P, vars, st.regs, {}, at, m, q, b.store, regs, regs1, r.out, b.place, st.regs, r.st.regs);
    n, regs' := HiddenStore(P, T, vars, x, k, r.out, b.Value(), st.regs, at, m, q, b.store, regs, regs1, w);
    WentLen(P, vars, st.regs, {x}, at, n, q + |w|, b.store[Hid(x, k) := b.Value()], regs, regs');
  }

  lemma ConstMeans(ops: Ops, vars: seq<FCVar>, st: CState, v: int, s: Store)
    ensures CompE(vars, st, Const(Int(v)), true) == CompConst(st, Int(v))
            && Eval(ops, Const(Int(v)), s) == Evaluated(s, Temp(Int(v)))
  {
  }

  ghost predicate NumPlaced(P: Prog, T: seq<Target>, lev: nat, env: Env, st: CState, x: Name, body: seq<Stmt>,
                            st3: CState, rb: SCode, pb: int, regs: seq<Value>)
    requires WfEnv(lev, env) && WfSeq(body, |env.loops| + 1, env.top) && DepthSeq(body) <= lev
  {
    var pj := pb + |rb.code|;
    && VarsOk(env.vars) && |T| == |env.loops| && WfEnv(lev, EnterLoop(env)) && st.regs <= st3.regs
    && rb == CompSeq(lev, EnterLoop(env), |env.defers|, st3, body)
    && Placed(P.code, pb, rb.code, T + [Target(pj + 1, pj)])
    && 0 < pb && pj < |P.code|
    && P.code[pb - 1] == NForPrep(|rb.code| + 1, Find(env.vars, x))
       && P.code[pj] == NForJump(-|rb.code| - 1, Find(env.vars, x))
    && Room(P, env.vars, st, st, regs) && Room(P, env.vars, st3, rb.st, regs)
  }

  /** Setting a loop up: the three numbers become integers and the variable gets the first. */
  lemma {:induction false} EnterNum(P: Prog, vars: seq<FCVar>, x: Name, off: int, w: int, xs: set<Name>, at: Config,
                          m: nat, q: int,
                 s: Store, regs: seq<Value>, regs1: seq<Value>)
    returns (regs': seq<Value>)
    requires VarsOk(vars) && ScopedNum(vars, x) && x in xs && |vars| <= w && Find(vars, x) + 3 < |vars| <= |regs1|
    requires Went(P, vars, w, xs, at, m, q, s, regs, regs1) && 0 <= q < |P.code|
             && P.code[q] == NForPrep(off, Find(vars, x))
    ensures var r := Find(vars, x);
            var cur, end, step := ToInt(regs1[r + 1]), ToInt(regs1[r + 2]), ToInt(regs1[r + 3]);
            && Went(P, vars, w, xs, at, m + 1, if NumGoesOn(cur, end, step) then q + 1 else q + 1 + off,
                    PutAll(Shared, s, x, cur, end, step)[x := Int(cur)], regs, regs')
            && |regs'| == |regs1|
  {
    hide Find, IsHidden, Held, Keep, Write, PutAll, ScopedNum, VarsOk;
    VarName(vars, x);
    var r := Find(vars, x);
    var cur, end, step := ToInt(regs1[r + 1]), ToInt(regs1[r + 2]), ToInt(regs1[r + 3]);
    RunsStep(P, at, m, q, regs1);
    regs' := Write(Write(Write(Write(regs1, r + 1, Int(cur)), r + 2, Int(end)), r + 3, Int(step)), r, Int(cur));
    PrepHeld(vars, x, s, regs1, cur, end, step);
    PrepWrites(regs1, r, Int(cur), Int(end), Int(step));
    PrepKeep(vars, x, w, xs, regs, regs1, regs');
  }

  lemma {:induction false} VarName(vars: seq<FCVar>, x: Name)
    requires ScopedNum(vars, x)
    ensures !IsHidden(x) && Find(vars, x) >= 0
  {
  }

  lemma {:induction false} PrepHeld(vars: seq<FCVar>, x: Name, s: Store, regs1: seq<Value>, cur: int, end: int,
                          step: int)
    requires Held(vars, s, regs1) && VarsOk(vars) && ScopedNum(vars, x)
    ensures var r := Find(vars, x);
            Held(vars, PutAll(Shared, s, x, cur, end, step)[x := Int(cur)],
                 Write(Write(Write(Write(regs1, r + 1, Int(cur)), r + 2, Int(end)), r + 3, Int(step)), r, Int(cur)))
  {
    hide Find, IsHidden, Held, Write, Hid, VarsOk;
    var r := Find(vars, x);
    var s1, a := s[Hid(x, 1) := Int(cur)], Write(regs1, r + 1, Int(cur));
    HeldHidden(vars, s, regs1, x, 1, Int(cur));
    var s2, b := s1[Hid(x, 2) := Int(end)], Write(a, r + 2, Int(end));
    HeldHidden(vars, s1, a, x, 2, Int(end));
    HeldHidden(vars, s2, b, x, 3, Int(step));
    HeldVar(vars, s2[Hid(x, 3) := Int(step)], Write(b, r + 3, Int(step)), x, Int(cur));
  }

  lemma PrepWrites(regs1: seq<Value>, r: int, cur: Value, end: Value, step: Value)
    requires 0 <= r && r + 3 < |regs1|
    ensures var regs' := Write(Write(Write(Write(regs1, r + 1, cur), r + 2, end), r + 3, step), r, cur);
            && |regs'| == |regs1| && forall i | 0 <= i < |regs1| && !(r <= i <= r + 3) :: regs'[i] == regs1[i]
  {
  }

  /** A loop may write its variable and its own three registers. */
  lemma PrepKeep(vars: seq<FCVar>, x: Name, w: int, xs: set<Name>, regs: seq<Value>, regs1: seq<Value>,
                 regs': seq<Value>)
    requires Keep(vars, w, xs, regs, regs1) && x in xs && !IsHidden(x) && Find(vars, x) >= 0
             && Find(vars, x) + 3 < |vars| && |regs'| == |regs1|
    requires forall i | 0 <= i < |regs1| && !(Find(vars, x) <= i <= Find(vars, x) + 3) :: regs'[i] == regs1[i]
    ensures Keep(vars, w, xs, regs, regs')
  {
    hide Find, IsHidden;
    var r := Find(vars, x);
    assert Owned(vars, r + 1, xs) && Owned(vars, r + 2, xs) && Owned(vars, r + 3, xs);
    assert vars[r].name == x;
  }

  /** One turn of a loop, from whatever its three registers hold now. */
  lemma {:induction false} NextNum(P: Prog, vars: seq<FCVar>, x: Name, off: int, w: int, xs: set<Name>, at: Config,
                          m: nat, q: int,
                s: Store, own: Numbers, regs: seq<Value>, regs1: seq<Value>)
    returns (regs': seq<Value>)
    requires VarsOk(vars) && ScopedNum(vars, x) && x in xs && |vars| <= w
    requires Went(P, vars, w, xs, at, m, q, s, regs, regs1) && 0 <= q < |P.code|
             && P.code[q] == NForJump(off, Find(vars, x))
    ensures var now := Now(Shared, s, x, own);
            var next := Wrap(now.cur + now.step);
            && Went(P, vars, w, xs, at, m + 1, if NumGoesOn(next, now.end, now.step) then q + 1 + off else q + 1,
                    Put(Shared, s, x, 1, Int(next))[x := Int(next)], regs, regs')
            && |regs'| == |regs1|
  {
    hide Find, IsHidden, Held, Keep, Write, Wrap, NumGoesOn, Hid, VarsOk;
    var r := Find(vars, x);
    var now := Now(Shared, s, x, own);
    var next := Wrap(now.cur + now.step);
    NowIs(vars, x, s, own, regs1);
    RunsStep(P, at, m, q, regs1);
    var a := Write(regs1, r + 1, Int(next));
    regs' := Write(a, r, Int(next));
    HeldHidden(vars, s, regs1, x, 1, Int(next));
    HeldVar(vars, s[Hid(x, 1) := Int(next)], a, x, Int(next));
    NextWrites(regs1, r, Int(next));
    PrepKeep(vars, x, w, xs, regs, regs1, regs');
  }

  lemma {:induction false} NowIs(vars: seq<FCVar>, x: Name, s: Store, own: Numbers, regs: seq<Value>)
    requires VarsOk(vars) && ScopedNum(vars, x) && Held(vars, s, regs)
    ensures var r := Find(vars, x);
            && 0 <= r && r + 3 < |vars| <= |regs|
            && Now(Shared, s, x, own)
               == Numbers(ToInt(Reg(regs, r + 1)), ToInt(Reg(regs, r + 2)), ToInt(Reg(regs, r + 3)))
  {
    hide Find, IsHidden, Hid;
    assert HasHidden(vars, Find(vars, x));
    assert TracksAt(s, regs, x, Find(vars, x));
  }

  lemma NextWrites(regs1: seq<Value>, r: int, next: Value)
    requires 0 <= r && r + 3 < |regs1|
    ensures var regs' := Write(Write(regs1, r + 1, next), r, next);
            |regs'| == |regs1| && forall i | 0 <= i < |regs1| && !(r <= i <= r + 3) :: regs'[i] == regs1[i]
  {
  }

  lemma NumPlacedSame(P: Prog, T: seq<Target>, lev: nat, env: Env, st: CState, x: Name, body: seq<Stmt>, st3: CState,
                      rb: SCode, pb: int, regs: seq<Value>, regs': seq<Value>)
    requires WfEnv(lev, env) && WfSeq(body, |env.loops| + 1, env.top) && DepthSeq(body) <= lev
    requires NumPlaced(P, T, lev, env, st, x, body, st3, rb, pb, regs) && |regs'| == |regs|
    ensures NumPlaced(P, T, lev, env, st, x, body, st3, rb, pb, regs')
  {
    hide Placed, CompSeq;
  }

  lemma {:induction false} NumLoop(P: Prog, T: seq<Target>, lev: nat, env: Env, st: CState, x: Name, body: seq<Stmt>,
                                   st3: CState, rb: SCode, pb: int,
                                   cur: int, end: int, step: int, fuel: nat, s: Store, regs: seq<Value>)
    returns (n: nat, q: int, regs': seq<Value>, cs: CState, opd: int)
    requires WfEnv(lev, env) && WfSeq(body, |env.loops| + 1, env.top) && DepthSeq(body) <= lev
    requires NumPlaced(P, T, lev, env, st, x, body, st3, rb, pb, regs)
    requires ScopedNum(env.vars, x) && ScopedSeq(env.vars, body)
    requires Held(env.vars, s[x := Int(cur)], regs)
    ensures Left(P, T, lev, env, |env.defers|, pb + |rb.code| + 1, fuel,
                 RunNum(Shared, P.ops, fuel, x, cur, end, step, body, s),
                 cs, opd, st.regs, {x} + NumVarsSeq(body), Running(pb, regs), n, q, regs, regs')
    decreases fuel, lev, 1, body, 1
  {
    hide CompSeq, RunSeq, RunNum, Held, Placed, Room, Went, Left, ScopedSeq, ScopedNum, Wrap, NumGoesOn, Find, Now, Put;
    var w, xs, at := st.regs, {x} + NumVarsSeq(body), Running(pb, regs);
    var pj := pb + |rb.code|;
    var tgt := Target(pj + 1, pj);
    var s0 := s[x := Int(cur)];
    NumMeans(P.ops, fuel, x, cur, end, step, body, s);
    var m, q2, regs2, cs2,
        opd2 := SeqRuns(P, T + [tgt], pb, lev, EnterLoop(env), |env.defers|, st3, body, fuel, s0, regs);
    var out := RunSeq(Shared, P.ops, fuel, body, s0);
    if !GoesRound(out) {
      LeftWeaken(P, T + [tgt], lev, EnterLoop(env), |env.defers|, pj, fuel, out, pj, cs2, opd2, st3.regs,
          NumVarsSeq(body), w, xs, at, m, q2, regs, regs2);
      var m', q3, cs3, opd3 := LoopLeave(P, T, lev, env, st, tgt, fuel, out, cs2, opd2, w, xs, at, m, q2, regs, regs2);
      n, q, regs', cs, opd := m', q3, regs2, cs3, opd3;
      return;
    }
    var m' := LoopAgain(P, T, lev, env, tgt, fuel, out, cs2, opd2, st3.regs, NumVarsSeq(body), at, m, q2, regs, regs2);
    RoomLen(P, env.vars, st, st, regs);
    WentWeaken(P, env.vars, st3.regs, NumVarsSeq(body), w, xs, at, m', pj, out.store, regs, regs2);
    var own := Numbers(cur, end, step);
    var regs3 := NextNum(P, env.vars, x, -|rb.code| - 1, w, xs, at, m', pj, out.store, own, regs, regs2);
    var now := Now(Shared, out.store, x, own);
    var next := Wrap(now.cur + now.step);
    var s1 := Put(Shared, out.store, x, 1, Int(next));
    var s3 := s1[x := Int(next)];
    RoomSame(P, env.vars, st, st, regs, regs3);
    if !NumGoesOn(next, now.end, now.step) {
      n, q, regs', cs, opd := m' + 1, pj + 1, regs3, st, 0;
      LeftAtEnd(P, T, lev, env, fuel, s3, st, w, xs, at, n, q, regs, regs3);
    } else if fuel == 0 {
      n, q, regs', cs, opd := m' + 1, pb, regs3, st, 0;
      LeftTimeout(P, T, lev, env, pj + 1, fuel, st, w, xs, at, n, pb, s3, regs, regs3);
    } else {
      WentLen(P, env.vars, w, xs, at, m' + 1, pb, s3, regs, regs3);
      NumPlacedSame(P, T, lev, env, st, x, body, st3, rb, pb, regs, regs3);
      var n4, q4, regs4, cs4,
          opd4 := NumLoop(P, T, lev, env, st, x, body, st3, rb, pb, next, now.end, now.step, fuel - 1, s1, regs3);
      var o4 := RunNum(Shared, P.ops, fuel - 1, x, next, now.end, now.step, body, s1);
      LeftRound(P, T, lev, env, pj + 1, fuel, o4, cs4, opd4, w, xs, at, m' + 1, pb, s3, n4, q4, regs, regs3, regs4);
      n, q, regs', cs, opd := m' + 1 + n4, q4, regs4, cs4, opd4;
    }
  }

  lemma NumMeans(ops: Ops, fuel: nat, x: Name, cur: int, end: int, step: int, body: seq<Stmt>, s: Store)
    ensures var out := RunSeq(Shared, ops, fuel, body, s[x := Int(cur)]);
            var run := RunNum(Shared, ops, fuel, x, cur, end, step, body, s);
            && (!GoesRound(out) ==> run == LeaveLoop(out))
            && (GoesRound(out) ==>
                  var now := Now(Shared, out.store, x, Numbers(cur, end, step));
                  var next := Wrap(now.cur + now.step);
                  var s1 := Put(Shared, out.store, x, 1, Int(next));
                  run == if !NumGoesOn(next, now.end, now.step) then Normal(s1[x := Int(next)])
                         else if fuel == 0 then Timeout
                         else RunNum(Shared, ops, fuel - 1, x, next, now.end, now.step, body, s1))
  {
    hide RunSeq, Wrap, Now, Put;
  }

  lemma NumLayout(P: Prog, T: seq<Target>, p: int, lev: nat, env: Env, st: CState, x: Name, start: Option<Expr>,
                  last: Expr, stride: Option<Expr>, body: seq<Stmt>,
                  s: Store, regs: seq<Value>)
    returns (r1: SCode, r2: SCode, r3: SCode, rb: SCode, pb: int)
    requires WfEnv(lev, env) && WfSeq(body, |env.loops| + 1, env.top) && DepthSeq(body) <= lev
    requires Ready(P, T, p, env, st, CompNum(lev, env, st, x, start, last, stride, body), s, regs)
    ensures var r := Find(env.vars, x);
            && r1 == CompBound(env.vars, st, start, 0, r + 1) && r2 == CompBound(env.vars, r1.st, Some(last), 0, r + 2)
            && r3 == CompBound(env.vars, r2.st, stride, 1, r + 3)
            && Placed(P.code, p, r1.code, T) && Placed(P.code, p + |r1.code|, r2.code, T)
               && Placed(P.code, p + |r1.code| + |r2.code|, r3.code, T)
            && Room(P, env.vars, st, r1.st, regs) && Room(P, env.vars, r1.st, r2.st, regs)
               && Room(P, env.vars, r2.st, r3.st, regs)
            && st.regs <= r1.st.regs <= r2.st.regs <= r3.st.regs
    ensures pb == p + |r1.code| + |r2.code| + |r3.code| + 1
    ensures NumPlaced(P, T, lev, env, st, x, body, r3.st, rb, pb, regs)
    ensures p + |CompNum(lev, env, st, x, start, last, stride, body).code| == pb + |rb.code| + 1
  {
    hide Held, Placed, CompE, CompSeq, CompBound, CompInto, Patch, Prefix, PatchInRange, VarsOk, Resolves, Find;
    var d, reg := |env.loops| + 1, Find(env.vars, x);
    EnterLoopWf(lev, env);
    r1 := CompBound(env.vars, st, start, 0, reg + 1);
    BoundIsInto(env.vars, r1.st, last, reg + 2);
    r2 := CompBound(env.vars, r1.st, Some(last), 0, reg + 2);
    r3 := CompBound(env.vars, r2.st, stride, 1, reg + 3);
    rb := CompSeq(lev, EnterLoop(env), |env.defers|, r3.st, body);
    GrowsBound(env.vars, st, start, 0, reg + 1);
    GrowsBound(env.vars, r1.st, Some(last), 0, reg + 2);
    GrowsBound(env.vars, r2.st, stride, 1, reg + 3);
    SettlesSeq(lev, EnterLoop(env), |env.defers|, r3.st, body);
    var b1 := Patch(rb.code, d, true, |rb.code|);
    var b2 := Patch(b1, d, false, |rb.code| + 1);
    var prep, jump := NForPrep(|rb.code| + 1, reg), NForJump(-|rb.code| - 1, reg);
    var p2 := p + |r1.code|;
    var p3 := p2 + |r2.code|;
    var pp := p3 + |r3.code|;
    pb := pp + 1;
    PlacedSplit(P.code, p, r1.code, r2.code + (r3.code + ([prep] + (b2 + [jump]))), T);
    PlacedSplit(P.code, p2, r2.code, r3.code + ([prep] + (b2 + [jump])), T);
    PlacedSplit(P.code, p3, r3.code, [prep] + (b2 + [jump]), T);
    PlacedSplit(P.code, pp, [prep], b2 + [jump], T);
    PlacedAre(P.code, pp, prep, T);
    PlacedSplit(P.code, pb, b2, [jump], T);
    PlacedAre(P.code, pb + |rb.code|, jump, T);
    PatchedBody(P.code, pb, rb.code, T, |rb.code|, |rb.code| + 1);
    NumRooms(P, env.vars, st, r1.st, r2.st, r3.st, rb.st, regs);
  }

  lemma NumRooms(P: Prog, vars: seq<FCVar>, a: CState, b: CState, c: CState, d: CState, e: CState, regs: seq<Value>)
    requires Room(P, vars, a, e, regs) && Grows(a, b) && Grows(b, c) && Grows(c, d) && Grows(d, e)
             && a.regs <= b.regs <= c.regs <= d.regs
    ensures Room(P, vars, a, a, regs) && Room(P, vars, a, b, regs) && Room(P, vars, b, c, regs)
            && Room(P, vars, c, d, regs) && Room(P, vars, d, e, regs)
  {
  }

  lemma {:induction false} NumRuns(P: Prog, T: seq<Target>, p: int, lev: nat, env: Env, st: CState, x: Name,
                                   start: Option<Expr>, last: Expr, stride: Option<Expr>,
                                   body: seq<Stmt>, fuel: nat, s: Store, regs: seq<Value>)
    returns (n: nat, q: int, regs': seq<Value>, cs: CState, opd: int)
    requires WfEnv(lev, env) && WfSeq(body, |env.loops| + 1, env.top) && DepthSeq(body) <= lev
    requires ScopedS(env.vars, NumFor(x, start, last, stride, body))
    requires Ready(P, T, p, env, st, CompNum(lev, env, st, x, start, last, stride, body), s, regs)
    ensures Left(P, T, lev, env, |env.defers|, p + |CompNum(lev, env, st, x, start, last, stride, body).code|, fuel,
                 Run(Shared, P.ops, fuel, NumFor(x, start, last, stride, body), s), cs, opd, st.regs,
                 {x} + NumVarsSeq(body), Running(p, regs), n, q, regs, regs')
    decreases fuel, lev, 1, body, 2
  {
    hide CompE, CompSeq, CompBound, CompNum, Eval, Bound, RunNum, Run, Held, Placed, Room, Went, Left, ScopedSeq,
        ScopedNum, NumPlaced, NumGoesOn, Find, Hid, PutAll;
    var vars, w, xs, at := env.vars, st.regs, {x} + NumVarsSeq(body), Running(p, regs);
    var r1, r2, r3, rb, pb := NumLayout(P, T, p, lev, env, st, x, start, last, stride, body, s, regs);
    NumForMeans(P.ops, fuel, x, start, last, stride, body, s);
    var b1 := Bound(P.ops, start, 0, s);
    var s1 := b1.store[Hid(x, 1) := b1.Value()];
    var b2 := Bound(P.ops, Some(last), 0, s1);
    var s2 := b2.store[Hid(x, 2) := b2.Value()];
    var b3 := Bound(P.ops, stride, 1, s2);
    var s3 := b3.store[Hid(x, 3) := b3.Value()];
    var k1, regs1 := BoundRuns(P, T, p, vars, st, start, 0, x, 1, s, regs);
    RoomSame(P, vars, r1.st, r2.st, regs, regs1);
    var p2 := p + |r1.code|;
    var k2, regs2 := BoundRuns(P, T, p2, vars, r1.st, Some(last), 0, x, 2, s1, regs1);
    RoomSame(P, vars, r2.st, r3.st, regs, regs2);
    var p3 := p2 + |r2.code|;
    var k3, regs3 := BoundRuns(P, T, p3, vars, r2.st, stride, 1, x, 3, s2, regs2);
    var pp := pb - 1;
    WentThen(P, vars, w, {x}, r1.st.regs, {x}, at, k1, p2, s1, k2, p3, s2, regs, regs1, regs2);
    WentThen(P, vars, w, {x}, r2.st.regs, {x}, at, k1 + k2, p3, s2, k3, pp, s3, regs, regs2, regs3);
    WentWeaken(P, vars, w, {x}, w, xs, at, k1 + k2 + k3, pp, s3, regs, regs3);
    NumPlacedPrep(P, T, lev, env, st, x, body, r3.st, rb, pb, regs);
    var regs4 := EnterNum(P, vars, x, |rb.code| + 1, w, xs, at, k1 + k2 + k3, pp, s3, regs, regs3);
    var cur, end, step := ToInt(b1.Value()), ToInt(b2.Value()), ToInt(b3.Value());
    var s4 := PutAll(Shared, s3, x, cur, end, step);
    var k, s5, fin := k1 + k2 + k3 + 1, s4[x := Int(cur)], pb + |rb.code| + 1;
    var q1 := if NumGoesOn(cur, end, step) then pb else fin;
    WentLen(P, vars, w, xs, at, k, q1, s5, regs, regs4);
    RoomSame(P, vars, st, st, regs, regs4);
    if NumGoesOn(cur, end, step) {
      NumPlacedSame(P, T, lev, env, st, x, body, r3.st, rb, pb, regs, regs4);
      var m;
      m, q, regs', cs, opd := NumLoop(P, T, lev, env, st, x, body, r3.st, rb, pb, cur, end, step, fuel, s4,
          regs4);
      LeftAfter(P, T, lev, env, |env.defers|, fin, fuel, RunNum(Shared, P.ops, fuel, x, cur, end, step, body, s4), cs,
          opd, w, xs, w, xs,
                at, k, pb, s5, m, q, regs, regs4, regs');
      n := k + m;
    } else {
      n, q, regs', cs, opd := k, fin, regs4, st, 0;
      LeftAtEnd(P, T, lev, env, fuel, s5, st, w, xs, at, n, q, regs, regs4);
    }
  }

  lemma NumPlacedPrep(P: Prog, T: seq<Target>, lev: nat, env: Env, st: CState, x: Name, body: seq<Stmt>, st3: CState,
                      rb: SCode, pb: int, regs: seq<Value>)
    requires WfEnv(lev, env) && WfSeq(body, |env.loops| + 1, env.top) && DepthSeq(body) <= lev
    requires NumPlaced(P, T, lev, env, st, x, body, st3, rb, pb, regs)
    ensures 0 < pb && pb + |rb.code| < |P.code| && P.code[pb - 1] == NForPrep(|rb.code| + 1, Find(env.vars, x))
            && VarsOk(env.vars)
    ensures Room(P, env.vars, st, st, regs) && |env.vars| <= st.regs && |T| == |env.loops|
  {
    hide Placed, CompSeq, Find, VarsOk;
  }

  lemma NumForMeans(ops: Ops, fuel: nat, x: Name, start: Option<Expr>, last: Expr, stride: Option<Expr>,
                    body: seq<Stmt>, s: Store)
    ensures var b1 := Bound(ops, start, 0, s);
            var b2 := Bound(ops, Some(last), 0, b1.store[Hid(x, 1) := b1.Value()]);
            var b3 := Bound(ops, stride, 1, b2.store[Hid(x, 2) := b2.Value()]);
            var s3 := b3.store[Hid(x, 3) := b3.Value()];
            var cur, end, step := ToInt(b1.Value()), ToInt(b2.Value()), ToInt(b3.Value());
            var run := Run(Shared, ops, fuel, NumFor(x, start, last, stride, body), s);
            var s4 := PutAll(Shared, s3, x, cur, end, step);
            && (NumGoesOn(cur, end, step) ==> run == RunNum(Shared, ops, fuel, x, cur, end, step, body, s4))
            && (!NumGoesOn(cur, end, step) ==> run == Normal(s4[x := Int(cur)]))
  {
    hide Eval, RunNum, PutAll, Hid;
  }
}
