/** How the generator's code and its pending list relate to specified code: every pending
    break or continue is a placeholder in the code and an entry of the list. */
module Pending {
  import opened Bytecode
  import opened Compile
  import opened ExitProof

  /** A break or continue that waits for loop number `numlp` to know its target. */
  datatype BreakInfo = BreakInfo(jdoff: int, numlp: int, iscont: bool)

  function Erase(c: seq<Instr>): (r: seq<Instr>)
    ensures |r| == |c|
    ensures forall i | 0 <= i < |c| :: r[i] == if c[i].Pend? then Placeholder else c[i]
  {
    seq(|c|, i requires 0 <= i < |c| => if c[i].Pend? then Placeholder else c[i])
  }

  /** The entries for code that stands at `off`, newest first.  Loops are counted from the
      `shift` loops that the code cannot see. */
  function Entries(c: seq<Instr>, off: int, shift: int): seq<BreakInfo> {
    if c == [] then []
    else Entries(c[1..], off + 1, shift) + (if c[0].Pend? then [BreakInfo(off, c[0].depth + shift, c[0].iscont)]
        else [])
  }

  lemma {:induction false} EntriesConcat(a: seq<Instr>, b: seq<Instr>, off: int, shift: int)
    ensures Entries(a + b, off, shift) == Entries(b, off + |a|, shift) + Entries(a, off, shift)
    decreases |a|
  {
    if a == [] { assert a + b == b; }
    else {
      assert (a + b)[1..] == a[1..] + b;
      EntriesConcat(a[1..], b, off + 1, shift);
    }
  }

  /** An entry is in the list exactly if its placeholder is in the code. */
  lemma {:induction false} EntriesHold(c: seq<Instr>, off: int, shift: int, e: BreakInfo)
    ensures e in Entries(c, off, shift) <==>
            off <= e.jdoff < off + |c| && c[e.jdoff - off] == Pend(e.numlp - shift, e.iscont)
    decreases |c|
  {
    if c != [] {
      EntriesHold(c[1..], off + 1, shift, e);
      if off < e.jdoff < off + |c| { assert c[e.jdoff - off] == c[1..][e.jdoff - off - 1]; }
    }
  }

  /** `code1`, `list1` are `code0`, `list0` after code `c` has been written. */
  ghost predicate Emitted(code0: seq<Instr>, list0: seq<BreakInfo>, c: seq<Instr>, shift: int, code1: seq<Instr>,
                          list1: seq<BreakInfo>) {
    code1 == code0 + Erase(c) && list1 == Entries(c, |code0|, shift) + list0
  }

  lemma EmittedThen(k0: seq<Instr>, b0: seq<BreakInfo>, c1: seq<Instr>, shift: int, k1: seq<Instr>, b1: seq<BreakInfo>,
                    c2: seq<Instr>, k2: seq<Instr>, b2: seq<BreakInfo>)
    requires Emitted(k0, b0, c1, shift, k1, b1) && Emitted(k1, b1, c2, shift, k2, b2)
    ensures Emitted(k0, b0, c1 + c2, shift, k2, b2)
  {
    EntriesConcat(c1, c2, |k0|, shift);
    assert Erase(c1 + c2) == Erase(c1) + Erase(c2);
  }

  lemma {:induction false} EntriesNone(c: seq<Instr>, off: int, shift: int)
    requires PendUpTo(c, 0)
    ensures Entries(c, off, shift) == [] && Erase(c) == c
    decreases |c|
  {
    if c != [] {
      assert forall i | 0 <= i < |c| - 1 :: c[1..][i] == c[i + 1];
      EntriesNone(c[1..], off + 1, shift);
    }
  }

  /** Code without pending jumps is just appended. */
  lemma EmittedPlain(k0: seq<Instr>, b0: seq<BreakInfo>, c: seq<Instr>, shift: int)
    requires PendUpTo(c, 0)
    ensures Emitted(k0, b0, c, shift, k0 + c, b0)
  {
    EntriesNone(c, |k0|, shift);
  }

  lemma EmittedNone(k0: seq<Instr>, b0: seq<BreakInfo>, shift: int)
    ensures Emitted(k0, b0, [], shift, k0, b0)
  {
    assert k0 + Erase([]) == k0;
  }

  lemma EmittedShift(k0: seq<Instr>, b0: seq<BreakInfo>, c: seq<Instr>, shift: int, shift': int, k1: seq<Instr>,
                     b1: seq<BreakInfo>)
    requires PendUpTo(c, 0) && Emitted(k0, b0, c, shift, k1, b1)
    ensures Emitted(k0, b0, c, shift', k1, b1)
  {
    EntriesNone(c, |k0|, shift);
    EntriesNone(c, |k0|, shift');
  }

  /** The entries depend on nothing but the pending jumps. */
  lemma {:induction false} EntriesSame(c: seq<Instr>, c': seq<Instr>, off: int, shift: int)
    requires |c| == |c'| && forall i | 0 <= i < |c| :: c[i] == c'[i] || (!c[i].Pend? && !c'[i].Pend?)
    ensures Entries(c, off, shift) == Entries(c', off, shift)
    decreases |c|
  {
    if c != [] { EntriesSame(c[1..], c'[1..], off + 1, shift); }
  }

  /** Overwriting a placeholder that is not on the list. */
  lemma EmittedFix(k0: seq<Instr>, b0: seq<BreakInfo>, x: seq<Instr>, y: seq<Instr>, shift: int, k1: seq<Instr>,
                   b1: seq<BreakInfo>, instr: Instr)
    requires Emitted(k0, b0, x + ([Placeholder] + y), shift, k1, b1) && !instr.Pend?
    ensures var at := |k0| + |x|;
            at < |k1| && k1[at] == Placeholder && Emitted(k0, b0, x + ([instr] + y), shift, k1[at := instr], b1)
  {
    var c, c' := x + ([Placeholder] + y), x + ([instr] + y);
    EntriesSame(c, c', |k0|, shift);
    var at := |k0| + |x|;
    assert c[|x|] == Placeholder;
    assert k1[at := instr] == k0 + Erase(c') by {
      forall i | 0 <= i < |k1| ensures k1[at := instr][i] == (k0 + Erase(c'))[i] {
        if i >= |k0| && i != at { assert c[i - |k0|] == c'[i - |k0|]; }
      }
    }
  }

  /* ---- the list is consistent ---- */

  /** Strictly falling positions inside a range. */
  ghost predicate Falling(l: seq<BreakInfo>, lo: int, hi: int) {
    && (forall k | 0 <= k < |l| :: lo <= l[k].jdoff < hi)
    && (forall j, k | 0 <= j < k < |l| :: l[k].jdoff < l[j].jdoff)
  }

  /** Every entry marks a placeholder, each its own, and none waits for a loop deeper than `loops`. */
  ghost predicate Listed(code: seq<Instr>, list: seq<BreakInfo>, loops: int) {
    && Falling(list, 0, |code|)
    && (forall k | 0 <= k < |list| :: code[list[k].jdoff] == Placeholder && list[k].numlp <= loops)
  }

  lemma FallingConcat(a: seq<BreakInfo>, b: seq<BreakInfo>, lo: int, mid: int, hi: int)
    requires Falling(a, mid, hi) && Falling(b, lo, mid) && lo <= mid <= hi
    ensures Falling(a + b, lo, hi)
  {
    var l := a + b;
    forall j, k | 0 <= j < k < |l| ensures l[k].jdoff < l[j].jdoff {
      assert l[j] == if j < |a| then a[j] else b[j - |a|];
      assert l[k] == if k < |a| then a[k] else b[k - |a|];
    }
  }

  lemma {:induction false} EntriesFalling(c: seq<Instr>, off: int, shift: int)
    ensures Falling(Entries(c, off, shift), off, off + |c|)
    decreases |c|
  {
    if c != [] {
      EntriesFalling(c[1..], off + 1, shift);
      var last := if c[0].Pend? then [BreakInfo(off, c[0].depth + shift, c[0].iscont)] else [];
      FallingConcat(Entries(c[1..], off + 1, shift), last, off, off + 1, off + |c|);
    }
  }

  lemma EmittedListed(k0: seq<Instr>, b0: seq<BreakInfo>, c: seq<Instr>, shift: int, k1: seq<Instr>,
                      b1: seq<BreakInfo>, loops0: int, loops: int)
    requires Emitted(k0, b0, c, shift, k1, b1) && Listed(k0, b0, loops0) && loops0 <= loops
             && PendUpTo(c, loops - shift)
    ensures Listed(k1, b1, loops)
  {
    var l := Entries(c, |k0|, shift);
    EntriesFalling(c, |k0|, shift);
    FallingConcat(l, b0, 0, |k0|, |k1|);
    forall k | 0 <= k < |b1| ensures 0 <= b1[k].jdoff < |k1| && k1[b1[k].jdoff] == Placeholder && b1[k].numlp <= loops {
      if k < |l| {
        EntriesHold(c, |k0|, shift, l[k]);
        assert c[l[k].jdoff - |k0|].Pend?;
      } else {
        assert b1[k] == b0[k - |l|];
      }
    }
  }

  /* ---- patching ---- */

  /** The list without the entries of one loop. */
  function Rest(list: seq<BreakInfo>, numlp: int, iscont: bool): seq<BreakInfo> {
    if list == [] then []
    else
      var r := Rest(list[..|list| - 1], numlp, iscont);
      var e := list[|list| - 1];
      if e.numlp == numlp && e.iscont == iscont then r else r + [e]
  }

  lemma {:induction false} RestConcat(a: seq<BreakInfo>, b: seq<BreakInfo>, numlp: int, iscont: bool)
    ensures Rest(a + b, numlp, iscont) == Rest(a, numlp, iscont) + Rest(b, numlp, iscont)
    decreases |b|
  {
    if b == [] { assert a + b == a; }
    else {
      assert (a + b)[..|a + b| - 1] == a + b[..|b| - 1];
      RestConcat(a, b[..|b| - 1], numlp, iscont);
    }
  }

  lemma {:induction false} RestNone(list: seq<BreakInfo>, numlp: int, iscont: bool)
    requires forall k | 0 <= k < |list| :: list[k].numlp < numlp
    ensures Rest(list, numlp, iscont) == list
    decreases |list|
  {
    if list != [] { RestNone(list[..|list| - 1], numlp, iscont); }
  }

  lemma {:induction false} RestEntries(c: seq<Instr>, c': seq<Instr>, off: int, shift: int, d: int, iscont: bool)
    requires |c| == |c'| && forall i | 0 <= i < |c| :: if c[i] == Pend(d, iscont) then !c'[i].Pend? else c'[i] == c[i]
    ensures Rest(Entries(c, off, shift), d + shift, iscont) == Entries(c', off, shift)
    decreases |c|
  {
    if c != [] {
      RestEntries(c[1..], c'[1..], off + 1, shift, d, iscont);
      var a, b := Entries(c[1..], off + 1, shift),
          if c[0].Pend? then [BreakInfo(off, c[0].depth + shift, c[0].iscont)] else [];
      RestConcat(a, b, d + shift, iscont);
      if c[0].Pend? { assert b[..0] == []; }
    }
  }

  /** What compile_breaks makes of the code. */
  ghost predicate Patched(code0: seq<Instr>, list0: seq<BreakInfo>, numlp: int, iscont: bool, code1: seq<Instr>) {
    && |code1| == |code0|
    && forall p | 0 <= p < |code0| ::
         code1[p] == if BreakInfo(p, numlp, iscont) in list0 then Jump(|code0| - p - 1) else code0[p]
  }

  ghost predicate AllInRange(list: seq<BreakInfo>, numlp: int, iscont: bool, size: int) {
    forall k | 0 <= k < |list| && list[k].numlp == numlp && list[k].iscont == iscont ::
        InJumpRange(size - list[k].jdoff - 1)
  }

  /** One entry further along the list, be it one to patch or not. */
  lemma PatchStep(code0: seq<Instr>, list0: seq<BreakInfo>, k: nat, numlp: int, iscont: bool, loops: int,
                  code: seq<Instr>)
    requires k < |list0| && Listed(code0, list0, loops) && Patched(code0, list0[..k], numlp, iscont, code)
    requires AllInRange(list0[..k], numlp, iscont, |code0|)
    ensures var e := list0[k];
            && list0[..k + 1] == list0[..k] + [e]
            && if e.numlp == numlp && e.iscont == iscont then
                 && Rest(list0[..k + 1], numlp, iscont) == Rest(list0[..k], numlp, iscont)
                 && 0 <= e.jdoff < |code| && code[e.jdoff] == Placeholder
                 && Patched(code0, list0[..k + 1], numlp, iscont, code[e.jdoff := Jump(|code0| - e.jdoff - 1)])
                 && (AllInRange(list0[..k + 1], numlp, iscont, |code0|) <==> InJumpRange(|code0| - e.jdoff - 1))
               else
                 && Rest(list0[..k + 1], numlp, iscont) == Rest(list0[..k], numlp, iscont) + [e]
                 && Patched(code0, list0[..k + 1], numlp, iscont, code)
                 && AllInRange(list0[..k + 1], numlp, iscont, |code0|)
  {
    hide Rest;
    var e, a, b := list0[k], list0[..k], list0[..k + 1];
    assert b == a + [e];
    RestLast(a, e, numlp, iscont);
    assert forall x | x != e :: x in b <==> x in a;
    if e.numlp == numlp && e.iscont == iscont {
      assert e !in a;
      assert b[k] == e;
      var i := Jump(|code0| - e.jdoff - 1);
      assert e == BreakInfo(e.jdoff, numlp, iscont);
    }
  }

  lemma PatchNone(code: seq<Instr>, list: seq<BreakInfo>, numlp: int, iscont: bool)
    ensures Rest(list[..0], numlp, iscont) == [] && AllInRange(list[..0], numlp, iscont, |code|)
            && Patched(code, list[..0], numlp, iscont, code)
  {
  }

  lemma RangePrefix(list: seq<BreakInfo>, k: nat, numlp: int, iscont: bool, size: int)
    requires k <= |list| && AllInRange(list, numlp, iscont, size)
    ensures AllInRange(list[..k], numlp, iscont, size)
  {
  }

  lemma Unlink(done: seq<BreakInfo>, e: BreakInfo, rest: seq<BreakInfo>, list: seq<BreakInfo>)
    requires list == done + ([e] + rest)
    ensures |list| > |done| && list[|done|] == e && list[..|done|] + list[|done| + 1..] == done + rest
            && list == (done + [e]) + rest
  {
  }

  lemma RestLast(a: seq<BreakInfo>, e: BreakInfo, numlp: int, iscont: bool)
    ensures Rest(a + [e], numlp, iscont) == Rest(a, numlp, iscont) + (if e.numlp == numlp
            && e.iscont == iscont then [] else [e])
  {
    assert (a + [e])[..|a|] == a;
  }

  /** Patching the pending list of a loop is what `Patch` specifies. */
  lemma PatchLoop(k0: seq<Instr>, b0: seq<BreakInfo>, c: seq<Instr>, shift: int, k1: seq<Instr>, b1: seq<BreakInfo>,
                  d: int, iscont: bool, k2: seq<Instr>)
    requires Emitted(k0, b0, c, shift, k1, b1) && Listed(k0, b0, d + shift - 1)
             && Patched(k1, b1, d + shift, iscont, k2)
    ensures Emitted(k0, b0, Patch(c, d, iscont, |c|), shift, k2, Rest(b1, d + shift, iscont))
  {
    hide Rest, Entries, PatchInRange;
    var l, lp, c' := Entries(c, |k0|, shift), d + shift, Patch(c, d, iscont, |c|);
    RestEntries(c, c', |k0|, shift, d, iscont);
    RestConcat(l, b0, lp, iscont);
    RestNone(b0, lp, iscont);
    var e' := Erase(c');
    forall p | 0 <= p < |k1| ensures k2[p] == (k0 + e')[p] {
      PatchAt(k0, b0, c, shift, k1, b1, d, iscont, p);
    }
    assert k2 == k0 + e';
  }

  lemma PatchAt(k0: seq<Instr>, b0: seq<BreakInfo>, c: seq<Instr>, shift: int, k1: seq<Instr>, b1: seq<BreakInfo>,
                d: int, iscont: bool, p: int)
    requires Emitted(k0, b0, c, shift, k1, b1) && Listed(k0, b0, d + shift - 1) && 0 <= p < |k1|
    ensures (if BreakInfo(p, d + shift, iscont) in b1 then Jump(|k1| - p - 1)
            else k1[p]) == (k0 + Erase(Patch(c, d, iscont, |c|)))[p]
  {
    hide Rest, Entries, PatchInRange, Falling;
    var e := BreakInfo(p, d + shift, iscont);
    EntriesHold(c, |k0|, shift, e);
    assert e !in b0;
  }

  lemma PatchLoopRange(k0: seq<Instr>, b0: seq<BreakInfo>, c: seq<Instr>, shift: int, k1: seq<Instr>,
                       b1: seq<BreakInfo>, d: int, iscont: bool)
    requires Emitted(k0, b0, c, shift, k1, b1) && Listed(k0, b0, d + shift - 1)
    ensures AllInRange(b1, d + shift, iscont, |k1|) <==> PatchInRange(c, d, iscont, |c|)
  {
    var l, lp := Entries(c, |k0|, shift), d + shift;
    if PatchInRange(c, d, iscont, |c|) {
      forall k | 0 <= k < |b1| && b1[k].numlp == lp && b1[k].iscont == iscont
          ensures InJumpRange(|k1| - b1[k].jdoff - 1) {
        if k < |l| { EntriesHold(c, |k0|, shift, l[k]); }
      }
    }
    if AllInRange(b1, lp, iscont, |k1|) {
      forall i | 0 <= i < |c| && c[i] == Pend(d, iscont) ensures InJumpRange(|c| - i - 1) {
        var e := BreakInfo(|k0| + i, lp, iscont);
        EntriesHold(c, |k0|, shift, e);
        assert e in b1;
      }
    }
  }

  /** Only the loop's body holds jumps that wait for the loop. */
  lemma PatchMiddle(x: seq<Instr>, b: seq<Instr>, y: seq<Instr>, d: int, iscont: bool)
    requires PendUpTo(x, 0) && PendUpTo(y, 0)
    ensures var c, t := x + (b + y), |b| + |y|;
            && Patch(c, d, iscont, |c|) == x + (Patch(b, d, iscont, t) + y)
            && (PatchInRange(c, d, iscont, |c|) <==> PatchInRange(b, d, iscont, t))
  {
    var c, t := x + (b + y), |b| + |y|;
    if PatchInRange(c, d, iscont, |c|) {
      forall i | 0 <= i < |b| && b[i] == Pend(d, iscont) ensures InJumpRange(t - i - 1) { assert c[|x| + i] == b[i]; }
    }
  }

  /* ---- the same, for a loop: `x` before its body `b`, `y` behind it ---- */

  /** Before compile_breaks: what it will find in range. */
  lemma BreaksBefore(k0: seq<Instr>, b0: seq<BreakInfo>, x: seq<Instr>, b: seq<Instr>, y: seq<Instr>, shift: int,
                     k1: seq<Instr>, b1: seq<BreakInfo>, d: int, iscont: bool)
    requires Emitted(k0, b0, x + (b + y), shift, k1, b1) && Listed(k0, b0, d + shift - 1)
    requires PendUpTo(x, 0) && PendUpTo(b, d) && PendUpTo(y, 0)
    ensures Listed(k1, b1, d + shift)
    ensures AllInRange(b1, d + shift, iscont, |k1|) <==> PatchInRange(b, d, iscont, |b| + |y|)
  {
    hide Emitted, Listed, AllInRange, PatchInRange;
    assert PendUpTo(x + (b + y), d);
    EmittedListed(k0, b0, x + (b + y), shift, k1, b1, d + shift - 1, d + shift);
    PatchLoopRange(k0, b0, x + (b + y), shift, k1, b1, d, iscont);
    PatchMiddle(x, b, y, d, iscont);
  }

  /** After it: what it has made of the body. */
  lemma BreaksAfter(k0: seq<Instr>, b0: seq<BreakInfo>, x: seq<Instr>, b: seq<Instr>, y: seq<Instr>, shift: int,
                    k1: seq<Instr>, b1: seq<BreakInfo>, d: int, iscont: bool, k2: seq<Instr>)
    requires Emitted(k0, b0, x + (b + y), shift, k1, b1) && Listed(k0, b0, d + shift - 1)
    requires PendUpTo(x, 0) && PendUpTo(y, 0) && Patched(k1, b1, d + shift, iscont, k2)
    ensures Emitted(k0, b0, x + (Patch(b, d, iscont, |b| + |y|) + y), shift, k2, Rest(b1, d + shift, iscont))
  {
    hide Emitted, Listed, AllInRange, PatchInRange, Patch, Patched, Rest;
    PatchLoop(k0, b0, x + (b + y), shift, k1, b1, d, iscont, k2);
    PatchMiddle(x, b, y, d, iscont);
  }

  lemma EmittedLength(k0: seq<Instr>, b0: seq<BreakInfo>, c: seq<Instr>, shift: int, k1: seq<Instr>, b1: seq<BreakInfo>)
    requires Emitted(k0, b0, c, shift, k1, b1)
    ensures |k1| == |k0| + |c|
  {
  }

  lemma EmittedMore(k0: seq<Instr>, b0: seq<BreakInfo>, c: seq<Instr>, shift: int, k1: seq<Instr>, b1: seq<BreakInfo>,
                    z: seq<Instr>)
    requires Emitted(k0, b0, c, shift, k1, b1) && PendUpTo(z, 0)
    ensures Emitted(k0, b0, c + z, shift, k1 + z, b1)
  {
    hide Emitted;
    EmittedPlain(k1, b1, z, shift);
    EmittedThen(k0, b0, c, shift, k1, b1, z, k1 + z, b1);
  }

  /** A break or continue joins the list as its placeholder is written. */
  lemma EmittedPend(k0: seq<Instr>, b0: seq<BreakInfo>, c: seq<Instr>, shift: int, k1: seq<Instr>, b1: seq<BreakInfo>,
                    d: int, iscont: bool)
    requires Emitted(k0, b0, c, shift, k1, b1)
    ensures Emitted(k0, b0, c + [Pend(d, iscont)], shift, k1 + [Placeholder], [BreakInfo(|k1|, d + shift, iscont)] + b1)
  {
    var p := [Pend(d, iscont)];
    assert p[1..] == [];
    assert Entries(p, |k1|, shift) == [BreakInfo(|k1|, d + shift, iscont)];
    assert Erase(p) == [Placeholder];
    EmittedThen(k0, b0, c, shift, k1, b1, p, k1 + [Placeholder], [BreakInfo(|k1|, d + shift, iscont)] + b1);
  }
}
