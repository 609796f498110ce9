/** Statement code simulates the statement: loops, multi-level breaks and continues,
    returns, and the deferred statements run on every way out. */
module StmtProof {
  import opened Bytecode
  import opened Source
  import opened Compile
  import opened ExprProof
  import opened ExitProof

  /* ---- scoping ---- */

  /** The numeric loop variables of a statement. */
  function NumVars(s: Stmt): set<Name>
    decreases s, 1
  {
    match s
    case Block(ss) => NumVarsSeq(ss)
    case If(_, t, f) => NumVars(t) + (if f.Some? then NumVars(f.value) else {})
    case While(_, body) => NumVarsSeq(body)
    case DoWhile(body, _) => NumVarsSeq(body)
    case For(_, _, _, body) => NumVarsSeq(body)
    case NumFor(x, _, _, _, body) => {x} + NumVarsSeq(body)
    case Defer(d) => NumVars(d)
    case _ => {}
  }

  function NumVarsSeq(ss: seq<Stmt>): set<Name>
    decreases ss, 0
  {
    if ss == [] then {} else NumVars(ss[0]) + NumVarsSeq(ss[1..])
  }

  predicate ScopedEs(vars: seq<FCVar>, es: seq<Expr>) {
    forall i | 0 <= i < |es| :: ScopedE(vars, es[i])
  }

  predicate ScopedO(vars: seq<FCVar>, e: Option<Expr>) {
    e.Some? ==> ScopedE(vars, e.value)
  }

  /** Every name is a local. */
  predicate ScopedS(vars: seq<FCVar>, s: Stmt)
    decreases s, 1
  {
    match s
    case ExprS(e) => ScopedE(vars, e)
    case Block(ss) => ScopedSeq(vars, ss)
    case If(c, t, f) => ScopedE(vars, c) && ScopedS(vars, t) && (f.Some? ==> ScopedS(vars, f.value))
    case While(c, body) => ScopedE(vars, c) && ScopedSeq(vars, body)
    case DoWhile(body, c) => ScopedE(vars, c) && ScopedSeq(vars, body)
    case For(init, test, incr, body) => ScopedEs(vars, init) && ScopedO(vars, test) && ScopedEs(vars, incr)
        && ScopedSeq(vars, body)
    case NumFor(x, start, last, stride, body) =>
      && ScopedNum(vars, x) && ScopedO(vars, start) && ScopedE(vars, last) && ScopedO(vars, stride)
      && ScopedSeq(vars, body)
    case Return(e) => ScopedO(vars, e)
    case Defer(d) => ScopedS(vars, d)
    case _ => true
  }

  predicate ScopedSeq(vars: seq<FCVar>, ss: seq<Stmt>)
    decreases ss, 0
  {
    ss != [] ==> ScopedS(vars, ss[0]) && ScopedSeq(vars, ss[1..])
  }

  /** No numeric loop contains another one over its variable. */
  predicate NoReuse(s: Stmt)
    decreases s, 1
  {
    match s
    case Block(ss) => NoReuseSeq(ss)
    case If(_, t, f) => NoReuse(t) && (f.Some? ==> NoReuse(f.value))
    case While(_, body) => NoReuseSeq(body)
    case DoWhile(body, _) => NoReuseSeq(body)
    case For(_, _, _, body) => NoReuseSeq(body)
    case NumFor(x, _, _, _, body) => x !in NumVarsSeq(body) && NoReuseSeq(body)
    case Defer(d) => NoReuse(d)
    case _ => true
  }

  predicate NoReuseSeq(ss: seq<Stmt>)
    decreases ss, 0
  {
    ss != [] ==> NoReuse(ss[0]) && NoReuseSeq(ss[1..])
  }

  lemma {:induction false} NumVarsScoped(vars: seq<FCVar>, s: Stmt, x: Name)
    requires ScopedS(vars, s) && x in NumVars(s)
    ensures ScopedNum(vars, x)
    decreases s, 1
  {
    match s
    case Block(ss) => NumVarsSeqScoped(vars, ss, x);
    case If(_, t, f) => if x in NumVars(t) { NumVarsScoped(vars, t, x); } else { NumVarsScoped(vars, f.value, x); }
    case While(_, body) => NumVarsSeqScoped(vars, body, x);
    case DoWhile(body, _) => NumVarsSeqScoped(vars, body, x);
    case For(_, _, _, body) => NumVarsSeqScoped(vars, body, x);
    case NumFor(y, _, _, _, body) => if x != y { NumVarsSeqScoped(vars, body, x); }
    case Defer(d) => NumVarsScoped(vars, d, x);
  }

  lemma {:induction false} NumVarsSeqScoped(vars: seq<FCVar>, ss: seq<Stmt>, x: Name)
    requires ScopedSeq(vars, ss) && x in NumVarsSeq(ss)
    ensures ScopedNum(vars, x)
    decreases ss, 0
  {
    if x in NumVars(ss[0]) { NumVarsScoped(vars, ss[0], x); } else { NumVarsSeqScoped(vars, ss[1..], x); }
  }

  /** The hidden registers of different loop variables are different registers. */
  lemma HiddenApart(vars: seq<FCVar>, x: Name, xs: set<Name>, k: int)
    requires VarsOk(vars) && ScopedNum(vars, x) && x !in xs && 1 <= k <= 3
    requires forall y | y in xs :: ScopedNum(vars, y)
    ensures HasHidden(vars, Find(vars, x)) && Kept(vars, Find(vars, x) + k, xs)
  {
    hide Find, IsHidden;
    assert HasHidden(vars, Find(vars, x));
    forall y | y in xs ensures Find(vars, x) + k <= Find(vars, y) || Find(vars, y) + 3 < Find(vars, x) + k {
      OtherBlock(vars, x, y);
    }
  }

  lemma OtherBlock(vars: seq<FCVar>, x: Name, y: Name)
    requires VarsOk(vars) && ScopedNum(vars, x) && ScopedNum(vars, y) && x != y
    ensures Find(vars, x) + 3 < Find(vars, y) || Find(vars, y) + 3 < Find(vars, x)
  {
    hide Find, IsHidden;
    assert vars[Find(vars, x)].name == x && vars[Find(vars, y)].name == y;
    BlocksApart(vars, Find(vars, x), Find(vars, y));
  }

  lemma BlocksApart(vars: seq<FCVar>, r: int, f: int)
    requires HasHidden(vars, r) && HasHidden(vars, f) && !IsHidden(vars[r].name) && !IsHidden(vars[f].name)
    ensures r == f || f > r + 3 || r > f + 3
  {
    hide IsHidden;
  }

  /* ---- how a statement is left ---- */

  predicate InScope(out: Outcome, env: Env) {
    match out
    case Breaks(m, _) => 1 <= m <= |env.loops|
    case Continues(m, _) => 1 <= m <= |env.loops|
    case Returns(_, _) => env.top
    case _ => true
  }

  /** How many deferred statements stay when control leaves this way. */
  function EndOf(env: Env, start: int, out: Outcome): int
    requires InScope(out, env)
  {
    match out
    case Breaks(m, _) => env.loops[|env.loops| - m]
    case Continues(m, _) => env.loops[|env.loops| - m]
    case Returns(_, _) => 0
    case _ => start
  }

  function TailOf(T: seq<Target>, end: int, opd: int, out: Outcome): Tail {
    match out
    case Breaks(m, _) => if 1 <= m <= |T| then ToPc(T[|T| - m].brk) else RetNone
    case Continues(m, _) => if 1 <= m <= |T| then ToPc(T[|T| - m].cont) else RetNone
    case Returns(pl, _) => if pl.Some? then Ret(opd) else RetNone
    case _ => Fall(end)
  }

  predicate Keeps(P: Prog, vars: seq<FCVar>, regs: seq<Value>, opd: int, out: Outcome, hi: int) {
    out.Returns? && out.place.Some? ==> Yields(P, vars, regs, opd, out.place.value, |vars|, hi)
  }

  /** From `a`, `n` steps lead to `q`.  Either the fuel is used up and at least as many steps
      have been taken; or the store is the outcome's, and what is still to come before the
      place that the outcome names is the deferred statements of `env`. */
  ghost predicate Left(P: Prog, T: seq<Target>, lev: nat, env: Env, start: int, end: int, fuel: nat, out: Outcome,
                       cs: CState, opd: int, w: int, xs: set<Name>, a: Config, n: nat, q: int, regs: seq<Value>,
                           regs': seq<Value>)
    requires WfEnv(lev, env)
  {
    if out.Timeout? then Runs(P, a, n, Running(q, regs')) && n >= fuel
    else
      && Went(P, env.vars, w, xs, a, n, q, out.store, regs, regs') && |regs'| == |regs|
      && InScope(out, env) && |T| == |env.loops| && w <= cs.regs
      && AtExit(P, lev, env, EndOf(env, start, out), cs, TailOf(T, end, opd, out), q, regs')
      && Keeps(P, env.vars, regs', opd, out, cs.regs)
  }

  /** A run in front of it. */
  lemma LeftAfter(P: Prog, T: seq<Target>, lev: nat, env: Env, start: int, end: int, fuel: nat, out: Outcome,
                  cs: CState, opd: int, w: int, xs: set<Name>, v: int, ys: set<Name>, a: Config, m: nat, q: int,
                      s: Store,
                  n: nat, q': int, regs: seq<Value>, regs1: seq<Value>, regs2: seq<Value>)
    requires WfEnv(lev, env) && Went(P, env.vars, w, xs, a, m, q, s, regs, regs1) && |regs1| == |regs|
    requires Left(P, T, lev, env, start, end, fuel, out, cs, opd, v, ys, Running(q, regs1), n, q', regs1, regs2)
    requires w <= v && ys <= xs
    ensures Left(P, T, lev, env, start, end, fuel, out, cs, opd, w, xs, a, m + n, q', regs, regs2)
  {
    hide AtExit, Keeps, Yields, Steps, Held, Keep;
    if out.Timeout? {
      RunsThen(P, a, m, Running(q, regs1), n, Running(q', regs2));
    } else {
      WentThen(P, env.vars, w, xs, v, ys, a, m, q, s, n, q', out.store, regs, regs1, regs2);
    }
  }

  /** Less is said about fewer registers; the end matters only to what falls through. */
  lemma LeftWeaken(P: Prog, T: seq<Target>, lev: nat, env: Env, start: int, end: int, fuel: nat, out: Outcome,
                   end': int,
                   cs: CState, opd: int, w: int, xs: set<Name>, v: int, ys: set<Name>, a: Config, n: nat, q: int,
                       regs: seq<Value>, regs': seq<Value>)
    requires WfEnv(lev, env)
    requires Left(P, T, lev, env, start, end, fuel, out, cs, opd, w, xs, a, n, q, regs, regs')
    requires v <= w && xs <= ys && (out.Normal? ==> end' == end)
    ensures Left(P, T, lev, env, start, end', fuel, out, cs, opd, v, ys, a, n, q, regs, regs')
  {
    hide AtExit, Keeps, Yields, Steps, Runs;
  }

  /** Control has reached the end of a construct that pushes no deferred statement. */
  lemma LeftAtEnd(P: Prog, T: seq<Target>, lev: nat, env: Env, fuel: nat, s: Store, cs: CState, w: int, xs: set<Name>,
                  a: Config, n: nat, q: int, regs: seq<Value>, regs': seq<Value>)
    requires WfEnv(lev, env) && |T| == |env.loops| && Went(P, env.vars, w, xs, a, n, q, s, regs, regs')
             && |regs'| == |regs|
    requires Room(P, env.vars, cs, cs, regs') && w <= cs.regs && 0 <= q <= |P.code|
    ensures Left(P, T, lev, env, |env.defers|, q, fuel, Normal(s), cs, 0, w, xs, a, n, q, regs, regs')
  {
    hide Went, Runs, Held, Keep, Room, Steps;
    assert CompDefers(lev, env, |env.defers|, |env.defers|, cs) == SCode([], cs);
  }

  /** What falls through a construct that pushes no deferred statement is at its end. */
  lemma LeftNormal(P: Prog, T: seq<Target>, lev: nat, env: Env, end: int, fuel: nat, out: Outcome, cs: CState, opd: int,
                   w: int, xs: set<Name>, a: Config, n: nat, q: int, regs: seq<Value>, regs': seq<Value>)
    requires WfEnv(lev, env) && out.Normal?
    requires Left(P, T, lev, env, |env.defers|, end, fuel, out, cs, opd, w, xs, a, n, q, regs, regs')
    ensures q == end && Went(P, env.vars, w, xs, a, n, q, out.store, regs, regs') && |regs'| == |regs|
            && Held(env.vars, out.store, regs')
  {
    AtTail(P, lev, env, cs, Fall(end), q, regs');
    WentLen(P, env.vars, w, xs, a, n, q, out.store, regs, regs');
  }
}
