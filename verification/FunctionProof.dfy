/** Whole functions: what compile_fn_base and prefix_bytecode make of a function body, and
    the main theorems about the instruction words that the VM runs. */
module FunctionProof {
  import opened Bytecode
  import opened Source
  import opened Compile
  import opened CompileFacts
  import opened ExprProof
  import opened ExitProof
  import opened StmtProof
  import opened Simulation
  import opened Bounds
  import opened SharedLoops

  /** comp_reg_alloc_n, which stops at the first error. */
  function AllocN(st: CState, n: nat): CState
    decreases n
  {
    if n == 0 || !st.ok then st else AllocN(Alloc(st), n - 1)
  }

  const START: CState := CState(0, -1, [], true)

  function TopEnv(vars: seq<FCVar>): Env {
    Env(vars, [], [], true, 0)
  }

  /** compile_fn_base: the body's code, and the final register count in `lastreg`. */
  function CompFn(lev: nat, vars: seq<FCVar>, body: Stmt): SCode
    requires Wf(body, 0, true) && Depth(body) <= lev
  {
    var r := CompS(lev, TopEnv(vars), AllocN(START, |vars|), body);
    var st := Unwind(r.st, 0);
    SCode(r.code, Check(st, st.lastreg <= 0xff))
  }

  /** The closure prefix is a run of SETCLSR instructions, one per captured argument. */
  predicate IsPrefix(pre: seq<Instr>) {
    forall i | 0 <= i < |pre| :: pre[i].SetClsr? && Fits(pre[i])
  }

  /** prefix_bytecode: closure prefix, code, one last RETN 0. */
  function Assemble(pre: seq<Instr>, code: seq<Instr>): seq<Instr> {
    pre + code + [RetN(0)]
  }

  const MAX_CODE: int := 32767

  lemma {:induction false} AllocNRegs(st: CState, n: nat)
    requires st.regs >= 0
    ensures var r := AllocN(st, n);
            && (r.ok ==> st.ok && r.regs == st.regs + n) && r.lastreg == st.lastreg && r.consts == st.consts
               && r.regs >= st.regs
    decreases n
  {
    if n > 0 && st.ok { AllocNRegs(Alloc(st), n - 1); }
  }

  /** What a successful compilation guarantees about registers, constants and jumps. */
  lemma FnFacts(lev: nat, vars: seq<FCVar>, body: Stmt)
    requires Wf(body, 0, true) && Depth(body) <= lev && CompFn(lev, vars, body).st.ok
    ensures var st := AllocN(START, |vars|);
            var r := CompS(lev, TopEnv(vars), st, body);
            && st.ok && st.regs == |vars| && r.st.ok && Peak(r.st) == CompFn(lev, vars, body).st.lastreg <= 255
            && Grows(st, r.st) && |vars| <= Peak(r.st)
  {
    hide CompS, Grows;
    var st := AllocN(START, |vars|);
    AllocNRegs(START, |vars|);
    SettlesS(lev, TopEnv(vars), st, body);
    GrowsPeak(st, CompS(lev, TopEnv(vars), st, body).st);
  }

  lemma GrowsPeak(a: CState, b: CState)
    requires Grows(a, b)
    ensures Peak(a) <= Peak(b) && (b.ok ==> a.ok)
  {
  }

  /** Every operand of the compiled body is a register of the window or a constant, every
      jump stays inside, and no placeholder is left: neither unpatched nor pending. */
  lemma FnShape(lev: nat, vars: seq<FCVar>, body: Stmt)
    requires Wf(body, 0, true) && Depth(body) <= lev && ScopedS(vars, body) && VarsOk(vars)
    requires CompFn(lev, vars, body).st.ok
    ensures var r := CompFn(lev, vars, body);
            Shape(r.code, 0, |r.code|, Limits(r.st.lastreg, |r.st.consts|, 0))
  {
    hide CompS, Shape, Prefix, VarsOk, ScopedS;
    FnFacts(lev, vars, body);
    var st := AllocN(START, |vars|);
    var r := CompS(lev, TopEnv(vars), st, body);
    ShapeS(lev, TopEnv(vars), st, body, Limits(Peak(r.st), |r.st.consts|, 0));
  }

  /** Instructions of that shape fit the instruction word, and so decode to themselves. */
  lemma ShapeFits(code: seq<Instr>, L: Limits)
    requires Shape(code, 0, |code|, L) && L.w <= 255 && L.loops == 0 && |code| <= MAX_CODE
    ensures forall i | 0 <= i < |code| :: Fits(code[i])
  {
    forall i | 0 <= i < |code| ensures Fits(code[i]) {
      assert InstrOk(code[i], i, 0, |code|, L);
    }
  }

  lemma AssembleFits(pre: seq<Instr>, code: seq<Instr>, L: Limits)
    requires IsPrefix(pre) && Shape(code, 0, |code|, L) && L.w <= 255 && L.loops == 0
             && |Assemble(pre, code)| <= MAX_CODE
    ensures DecodeAll(EncodeAll(Assemble(pre, code))) == Assemble(pre, code)
  {
    hide Encode, Decode;
    ShapeFits(code, L);
    var all := Assemble(pre, code);
    forall i | 0 <= i < |all| ensures Fits(all[i]) {
      if |pre| <= i < |pre| + |code| { assert all[i] == code[i - |pre|]; }
    }
    EncodeDecodeAll(all);
  }

  /** Back-patching is complete and in bounds: read back from the instruction words, every
      jump of the function, whatever prefix stands in front, lands on an instruction of it,
      and no placeholder is left. */
  lemma JumpsLand(lev: nat, vars: seq<FCVar>, body: Stmt, pre: seq<Instr>, i: nat)
    requires Wf(body, 0, true) && Depth(body) <= lev && ScopedS(vars, body) && VarsOk(vars)
    requires CompFn(lev, vars, body).st.ok && IsPrefix(pre)
    requires var all := Assemble(pre, CompFn(lev, vars, body).code); |all| <= MAX_CODE && i < |all|
    ensures var all := Assemble(pre, CompFn(lev, vars, body).code);
            var instr := Decode(EncodeAll(all)[i]);
            && instr == all[i] && !instr.Placeholder? && !instr.Pend?
            && (instr.Jump? || instr.CondJump? || instr.NForPrep? || instr.NForJump? ==> 0 <= i + 1 + instr.off < |all|)
  {
    hide Encode, Decode, CompFn;
    var r := CompFn(lev, vars, body);
    FnShape(lev, vars, body);
    FnLast(lev, vars, body);
    var L := Limits(r.st.lastreg, |r.st.consts|, 0);
    AssembleFits(pre, r.code, L);
    var all := Assemble(pre, r.code);
    assert DecodeAll(EncodeAll(all))[i] == all[i];
    if |pre| <= i < |pre| + |r.code| {
      assert all[i] == r.code[i - |pre|];
      assert InstrOk(r.code[i - |pre|], i - |pre|, 0, |r.code|, L);
    }
  }

  lemma FnLast(lev: nat, vars: seq<FCVar>, body: Stmt)
    requires Wf(body, 0, true) && Depth(body) <= lev && CompFn(lev, vars, body).st.ok
    ensures |vars| <= CompFn(lev, vars, body).st.lastreg <= 255
  {
    FnFacts(lev, vars, body);
  }

  /* ---- the main theorem ---- */

  /** The program that the VM executes: constants and instruction words. */
  function Loaded(ops: Ops, pre: seq<Instr>, r: SCode): Prog {
    Prog(ops, r.st.consts, DecodeAll(EncodeAll(Assemble(pre, r.code))))
  }

  /** How the run of a function relates to what its body does. */
  ghost predicate Agrees(P: Prog, vars: seq<FCVar>, fuel: nat, out: Outcome, regs: seq<Value>, n: nat, c: Config) {
    && Runs(P, Running(0, regs), n, c)
    && match out
       case Timeout => c.Running? && n >= fuel
       case Normal(s) => c.Done? && c.results == [] && Rel(vars, s, c.regs)
       case Returns(pl, s) => c.Done? && c.results == (if pl.Some? then [Read(s, pl.value)] else [])
           && Rel(vars, s, c.regs)
       case _ => false
  }

  lemma {:induction false} PrefixRuns(P: Prog, pre: seq<Instr>, k: nat, regs: seq<Value>)
    requires IsPrefix(pre) && k <= |pre| <= |P.code| && P.code[..|pre|] == pre
    ensures Runs(P, Running(0, regs), k, Running(k, regs))
    decreases k
  {
    hide Steps;
    if k == 0 { RunsZero(P, Running(0, regs)); } else {
      PrefixRuns(P, pre, k - 1, regs);
      assert P.code[k - 1] == P.code[..|pre|][k - 1] == pre[k - 1];
      RunsStep(P, Running(0, regs), k - 1, k - 1, regs);
    }
  }

  lemma PlacedPlain(code: seq<Instr>, p: nat, c: seq<Instr>)
    requires p + |c| <= |code| && code[p..p + |c|] == c && PendUpTo(c, 0)
    ensures Placed(code, p, c, [])
  {
    forall i | 0 <= i < |c| ensures Resolves(code[p + i], c[i], p + i, []) {
      assert code[p + i] == code[p..p + |c|][i];
    }
  }

  /** What is left when a function body has been left: at most the final return. */
  lemma LeftTop(P: Prog, lev: nat, vars: seq<FCVar>, end: int, fuel: nat, out: Outcome, cs: CState, opd: int, w: int,
                xs: set<Name>,
                k: nat, n: nat, q: int, regs: seq<Value>, regs': seq<Value>, p: int)
    returns (m: nat, c: Config)
    requires WfEnv(lev, TopEnv(vars)) && Runs(P, Running(0, regs), k, Running(p, regs))
    requires Left(P, [], lev, TopEnv(vars), 0, end, fuel, out, cs, opd, w, xs, Running(p, regs), n, q, regs, regs')
    requires 0 <= end < |P.code| && P.code[end] == RetN(0) && |vars| <= w && |regs| <= 256
    ensures Agrees(P, vars, fuel, out, regs, m, c)
  {
    hide Steps, Runs, Rel, Tracks, Keep, Placed;
    RunsPart(P, TopEnv(vars), lev, end, fuel, out, cs, opd, w, xs, Running(p, regs), n, q, regs, regs');
    RunsThen(P, Running(0, regs), k, Running(p, regs), n, Running(q, regs'));
    m, c := k + n, Running(q, regs');
    if !out.Timeout? {
      RunsStep(P, Running(0, regs), k + n, q, regs');
      m, c := k + n + 1, Exec(P, P.code[q], q, regs');
      if out.Returns? && out.place.Some? {
        WentReads(P, vars, w, xs, Running(p, regs), n, q, out.store, regs, regs', opd, out.place.value, |vars|,
            cs.regs);
      }
    }
  }

  lemma RunsPart(P: Prog, env: Env, lev: nat, end: int, fuel: nat, out: Outcome, cs: CState, opd: int, w: int,
                 xs: set<Name>,
                 a: Config, n: nat, q: int, regs: seq<Value>, regs': seq<Value>)
    requires WfEnv(lev, env) && env.defers == [] && env.loops == []
    requires Left(P, [], lev, env, 0, end, fuel, out, cs, opd, w, xs, a, n, q, regs, regs')
    ensures Runs(P, a, n, Running(q, regs'))
    ensures !out.Timeout? ==>
            Rel(env.vars, out.store, regs') && TailAt(P, q, TailOf([], end, opd, out)) && !out.Breaks?
            && !out.Continues?
  {
    hide Steps, Rel, Tracks, Keep, Placed, TailAt;
    if !out.Timeout? {
      AtTail(P, lev, env, cs, TailOf([], end, opd, out), q, regs');
    }
  }

  /** Compiler correctness.  For every function body of the fragment that compiles, every
      meaning of the pure operators, every store and registers that hold it: if the body
      finishes (or returns) within some fuel, then the words that the generator emitted run
      to a return with the same result and the same values in the variables' registers; if
      the fuel does not suffice, they are still running after at least that many steps.
      This is so for all bodies if loops over one variable share its hidden registers, and
      for all bodies that do not nest such loops if each loop keeps its own numbers. */
  lemma CompileCorrect(m: LoopMode, ops: Ops, lev: nat, vars: seq<FCVar>, body: Stmt, pre: seq<Instr>, fuel: nat,
                       s: Store, regs: seq<Value>)
    returns (n: nat, c: Config)
    requires Wf(body, 0, true) && Depth(body) <= lev && ScopedS(vars, body) && VarsOk(vars)
    requires CompFn(lev, vars, body).st.ok && IsPrefix(pre) && |Assemble(pre, CompFn(lev, vars, body).code)| <= MAX_CODE
    requires Rel(vars, s, regs) && CompFn(lev, vars, body).st.lastreg <= |regs| <= 256
    requires if m == Own then NoReuse(body) else Tracks(vars, s, regs)
    ensures Agrees(Loaded(ops, pre, CompFn(lev, vars, body)), vars, fuel, Run(m, ops, fuel, body, s), regs, n, c)
  {
    hide CompFn, Loaded, Rel, Tracks, VarsOk, ScopedS, Agrees, Run, Assemble, NoReuse, Same, Fill;
    if m == Shared {
      n, c := CompileShared(ops, lev, vars, body, pre, fuel, s, regs);
    } else {
      FnLast(lev, vars, body);
      var t := Fill(vars, s, regs, 0);
      Filled(vars, s, regs);
      n, c := CompileShared(ops, lev, vars, body, pre, fuel, t, regs);
      OwnIsShared(vars, ops, fuel, body, s, t);
      SameAgrees(Loaded(ops, pre, CompFn(lev, vars, body)), vars, fuel, Run(Own, ops, fuel, body, s),
          Run(Shared, ops, fuel, body, t), regs, n, c);
    }
  }

  lemma {:induction false} SameAgrees(P: Prog, vars: seq<FCVar>, fuel: nat, a: Outcome, b: Outcome, regs: seq<Value>,
                                      n: nat, c: Config)
    requires SameOut(a, b) && Agrees(P, vars, fuel, b, regs, n, c)
    ensures Agrees(P, vars, fuel, a, regs, n, c)
  {
    hide Runs, IsHidden, Find;
  }

  lemma CompileShared(ops: Ops, lev: nat, vars: seq<FCVar>, body: Stmt, pre: seq<Instr>, fuel: nat, s: Store,
                      regs: seq<Value>)
    returns (n: nat, c: Config)
    requires Wf(body, 0, true) && Depth(body) <= lev && ScopedS(vars, body) && VarsOk(vars)
    requires CompFn(lev, vars, body).st.ok && IsPrefix(pre) && |Assemble(pre, CompFn(lev, vars, body).code)| <= MAX_CODE
    requires Held(vars, s, regs) && CompFn(lev, vars, body).st.lastreg <= |regs| <= 256
    ensures Agrees(Loaded(ops, pre, CompFn(lev, vars, body)), vars, fuel, Run(Shared, ops, fuel, body, s), regs, n, c)
  {
    hide Encode, Decode, EncodeAll, DecodeAll, CompS, Shape, Held, VarsOk, ScopedS, Left, Agrees, Run, Placed, Runs;
    var env, st := TopEnv(vars), AllocN(START, |vars|);
    var fn := CompFn(lev, vars, body);
    var r := CompS(lev, env, st, body);
    var P := Loaded(ops, pre, fn);
    FnFacts(lev, vars, body);
    FnShape(lev, vars, body);
    AssembleFits(pre, r.code, Limits(fn.st.lastreg, |fn.st.consts|, 0));
    var p := |pre|;
    assert P.code[..p] == pre && P.code[p..p + |r.code|] == r.code && P.code[p + |r.code|] == RetN(0);
    PrefixRuns(P, pre, p, regs);
    PendS(lev, env, st, body);
    PlacedPlain(P.code, p, r.code);
    var k, q, regs', cs, opd := StmtRuns(P, [], p, lev, env, st, body, fuel, s, regs);
    n, c := LeftTop(P, lev, vars, p + |r.code|, fuel, Run(Shared, ops, fuel, body, s), cs, opd, st.regs,
        NumVars(body), p, k,
        q, regs, regs', p);
  }

  /** And conversely: if the emitted words return after some number of steps, then the body
      finishes, and the results are its results. */
  lemma CompileComplete(m: LoopMode, ops: Ops, lev: nat, vars: seq<FCVar>, body: Stmt, pre: seq<Instr>, s: Store,
                        regs: seq<Value>, n: nat)
    requires Wf(body, 0, true) && Depth(body) <= lev && ScopedS(vars, body) && VarsOk(vars)
    requires CompFn(lev, vars, body).st.ok && IsPrefix(pre) && |Assemble(pre, CompFn(lev, vars, body).code)| <= MAX_CODE
    requires Rel(vars, s, regs) && CompFn(lev, vars, body).st.lastreg <= |regs| <= 256
    requires if m == Own then NoReuse(body) else Tracks(vars, s, regs)
    requires Steps(Loaded(ops, pre, CompFn(lev, vars, body)), Running(0, regs), n).Done?
    ensures var c := Steps(Loaded(ops, pre, CompFn(lev, vars, body)), Running(0, regs), n);
            var out := Run(m, ops, n + 1, body, s);
            && (out.Normal? || out.Returns?) && Rel(vars, out.store, c.regs)
            && c.results == (if out.Returns? && out.place.Some? then [Read(out.store, out.place.value)] else [])
  {
    hide Encode, Decode, EncodeAll, DecodeAll, CompFn, Rel, Tracks, VarsOk, ScopedS, NoReuse, Run, Loaded, Steps;
    var P := Loaded(ops, pre, CompFn(lev, vars, body));
    var k, c' := CompileCorrect(m, ops, lev, vars, body, pre, n + 1, s, regs);
    var c := Steps(P, Running(0, regs), n);
    if k >= n {
      StepsAdd(P, Running(0, regs), n, k - n);
      DoneForever(P, c, k - n);
    } else {
      StepsAdd(P, Running(0, regs), k, n - k);
      if c'.Done? { DoneForever(P, c', n - k); }
    }
  }
}
