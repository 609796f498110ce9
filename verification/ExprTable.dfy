/** The precedence of operators as a table, and that the parser's weights mean just that. */
module ExprTable {
  import opened ExprParser

  /** From the tightest to the loosest, by token code: `* / %`; `+ -`; `& | ^ << >>`; `<=>`; the
      other comparisons and `??`; `&& ||`; the assignments.  In front of them stand `@ ~ ++ --`,
      which the parser takes between operands too. */
  const TABLE: seq<set<int>> :=
    [{224, 241, 242, 243}, {230, 231, 232}, {228, 229}, {233, 234, 235, 236, 237}, {208},
     {200, 201, 202, 203, 204, 205, 206, 207, 227}, {225, 226},
     {209, 210, 211, 212, 213, 214, 215, 216, 217, 218, 219, 220, 221, 223}]

  const ASSIGNMENTS: int := 7

  /** `@ + - ! ~ ++ --` in front of an operand, `++ --` behind one. */
  const PREFIX: set<int> := {224, 228, 229, 240, 241, 242, 243}
  const POSTFIX: set<int> := {242, 243}

  /** The row of an operator between operands, -1 if it is none. */
  function Level(c: int): (r: int)
    ensures -1 <= r < |TABLE| && (r >= 0 ==> c in TABLE[r])
  {
    if c in TABLE[0] then 0 else if c in TABLE[1] then 1 else if c in TABLE[2] then 2 else if c in TABLE[3] then 3
    else if c in TABLE[4] then 4 else if c in TABLE[5] then 5 else if c in TABLE[6] then 6
    else if c in TABLE[7] then 7 else -1
  }

  /** Does the tree's text begin with an operand? */
  predicate Starts(t: Tree) {
    match t
    case Leaf(tok) => tok.Atom?
    case Un(_, _) => false
    case Post(_, a) => Starts(a)
    case Bin(_, l, _) => Starts(l)
  }

  /** Operators of the table at the nodes; behind `++` and `--` an operand begins. */
  predicate Made(t: Tree) {
    match t
    case Leaf(tok) => tok.Atom?
    case Un(op, a) => op.Op? && op.code in PREFIX && Made(a) && (op.code in POSTFIX ==> Starts(a))
    case Post(op, a) => op.Op? && op.code in POSTFIX && a.Leaf? && Made(a)
    case Bin(op, l, r) => op.Op? && Level(op.code) >= 0 && Made(l) && Made(r) && (op.code in POSTFIX ==> Starts(r))
  }

  /** Operators with one operand bind tightest; of two others the tighter one is the lower node,
      and in one row the left one is, among assignments the right one. */
  predicate Grouped(t: Tree)
    requires Made(t)
  {
    match t
    case Leaf(_) => true
    case Un(_, a) => Grouped(a) && !a.Bin?
    case Post(_, _) => true
    case Bin(op, l, r) =>
      var n := Level(op.code);
      && Grouped(l) && Grouped(r)
      && (l.Bin? ==> Level(l.op.code) < n || (Level(l.op.code) == n && n != ASSIGNMENTS))
      && (r.Bin? ==> Level(r.op.code) < n || (Level(r.op.code) == n && n == ASSIGNMENTS))
  }

  /** Lists of these operators and operands; `!`, which is only a prefix, not behind an operand. */
  predicate Known(ts: seq<Tok>) {
    forall j | 0 <= j < |ts| && ts[j].Op? ::
      && (Level(ts[j].code) >= 0 || ts[j].code in PREFIX)
      && (j > 0 && j + 1 < |ts| && (ts[j - 1].Atom? || ts[j - 1].code in POSTFIX) ==> Level(ts[j].code) >= 0)
  }

  /* ---- the table and the weights ---- */

  lemma Kinds(c: int)
    ensures (Infix(c) <==> Level(c) >= 0) && (IsUnary(c) <==> c in PREFIX) && (IsBump(c) <==> c in POSTFIX)
  {
  }

  /** Looser operators weigh more. */
  lemma LevelWeight(c: int, d: int)
    requires Level(c) >= 0 && Level(d) >= 0
    ensures Level(c) < Level(d) <==> PartWeight(c, true) < PartWeight(d, true)
    ensures PartWeight(c, true) > 10 && (Level(c) == ASSIGNMENTS <==> IsAssign(c))
    ensures IsAssign(c) <==> PartWeight(c, true) == 40
  {
    hide Level;
    var k, l := Level(c), Level(d);
    WeightOf(c);
    WeightOf(d);
  }

  lemma WeightOf(c: int)
    requires Level(c) >= 0
    ensures PartWeight(c, true) == [11, 24, 25, 26, 28, 29, 30, 40][Level(c)]
    ensures Level(c) == ASSIGNMENTS <==> IsAssign(c)
  {
  }

  lemma {:induction false} StartsIs(t: Tree)
    requires Made(t) || WellMade(t)
    ensures Starts(t) <==> Flatten(t)[0].Atom?
  {
    match t
    case Leaf(_) =>
    case Un(op, a) =>
    case Post(_, a) => StartsIs(a);
    case Bin(_, l, _) => StartsIs(l);
  }

  lemma {:induction false} MadeIs(t: Tree)
    ensures Made(t) <==> WellMade(t)
  {
    hide Level, Infix, IsUnary, IsBump;
    match t
    case Leaf(_) =>
    case Un(op, a) =>
      MadeIs(a);
      if op.Op? { Kinds(op.code); }
      if Made(a) { StartsIs(a); }
    case Post(op, a) =>
      MadeIs(a);
      if op.Op? { Kinds(op.code); }
    case Bin(op, l, r) =>
      MadeIs(l);
      MadeIs(r);
      if op.Op? { Kinds(op.code); }
      if Made(r) { StartsIs(r); }
  }

  lemma BinWeight(t: Tree)
    requires Made(t)
    ensures t.Bin? <==> RootWeight(t) > 10
    ensures t.Bin? ==> t.op.Op? && RootWeight(t) == PartWeight(t.op.code, true) && Level(t.op.code) >= 0
    ensures t.Leaf? <==> RootWeight(t) < 10
  {
    hide Level;
    if t.Bin? { LevelWeight(t.op.code, t.op.code); }
  }

  lemma {:induction false} GroupedIs(t: Tree)
    requires Made(t)
    ensures Grouped(t) <==> Ordered(t)
  {
    hide Level, PartWeight, RootWeight, IsAssign;
    match t
    case Leaf(_) =>
    case Un(op, a) =>
      GroupedIs(a);
      BinWeight(a);
    case Post(op, a) =>
      GroupedIs(a);
      BinWeight(a);
    case Bin(op, l, r) =>
      GroupedIs(l);
      GroupedIs(r);
      BinWeight(l);
      BinWeight(r);
      BinWeight(t);
      if l.Bin? {
        LevelWeight(l.op.code, op.code);
        LevelWeight(op.code, l.op.code);
      }
      if r.Bin? {
        LevelWeight(r.op.code, op.code);
        LevelWeight(op.code, r.op.code);
      }
      LevelWeight(op.code, op.code);
  }

  lemma KnownFragment(ts: seq<Tok>)
    requires Known(ts)
    ensures Fragment(ts)
  {
    hide Level, Infix, IsUnary, IsBump;
    forall j | 0 <= j < |ts| && ts[j].Op? ensures AllowedAt(ts, j) {
      Kinds(ts[j].code);
      if j > 0 && ts[j - 1].Op? { Kinds(ts[j - 1].code); }
    }
  }

  /** The parser does what the table says: of every list of these operators it makes the tree over
      the list that the table groups, if there is one, and nothing else; there is one at most. */
  lemma ParseByTable(ts: seq<Tok>, t: Tree)
    requires Known(ts)
    ensures Parse(ts) == Some(t) <==> Made(t) && Grouped(t) && Flatten(t) == ts
  {
    hide Parse, Made, Grouped, Ordered, WellMade, Fragment, Level;
    KnownFragment(ts);
    MadeIs(t);
    if Parse(ts).Some? {
      ParseSound(ts);
      MadeIs(Parse(ts).value);
      GroupedIs(Parse(ts).value);
    }
    if Made(t) && Flatten(t) == ts {
      GroupedIs(t);
      if Grouped(t) { ParseFlatten(t); }
    }
  }

  /* ---- two operators ---- */

  /** `a p b q c`: b goes to the tighter operator; in one row to the left one, and among
      assignments to the right one. */
  lemma TwoOperators(a: Tok, p: int, b: Tok, q: int, c: Tok)
    requires a.Atom? && b.Atom? && c.Atom? && Level(p) >= 0 && Level(q) >= 0
    ensures Parse([a, Op(p), b, Op(q), c])
            == Some(if Level(p) < Level(q) || (Level(p) == Level(q) && Level(p) != ASSIGNMENTS)
                    then Bin(Op(q), Bin(Op(p), Leaf(a), Leaf(b)), Leaf(c))
                    else Bin(Op(p), Leaf(a), Bin(Op(q), Leaf(b), Leaf(c))))
  {
    hide Parse, Level;
    var ts := [a, Op(p), b, Op(q), c];
    if Level(p) < Level(q) || (Level(p) == Level(q) && Level(p) != ASSIGNMENTS) {
      var t := Bin(Op(q), Bin(Op(p), Leaf(a), Leaf(b)), Leaf(c));
      Pair(a, p, b);
      assert Flatten(t) == ts && Made(t) && Grouped(t);
      ParseByTable(ts, t);
    } else {
      var t := Bin(Op(p), Leaf(a), Bin(Op(q), Leaf(b), Leaf(c)));
      Pair(b, q, c);
      assert Flatten(t) == ts && Made(t) && Grouped(t);
      ParseByTable(ts, t);
    }
  }

  lemma Pair(a: Tok, p: int, b: Tok)
    requires a.Atom? && b.Atom? && Level(p) >= 0
    ensures var t := Bin(Op(p), Leaf(a), Leaf(b)); Made(t) && Grouped(t) && Starts(t) && Flatten(t) == [a, Op(p), b]
  {
    hide Level;
  }

  /** `u a p b`, `a p u b` and `a v p b`: an operator with one operand is tighter than any other. */
  lemma OneOperand(u: int, v: int, a: Tok, p: int, b: Tok)
    requires a.Atom? && b.Atom? && Level(p) >= 0 && u in PREFIX && v in POSTFIX
    ensures Parse([Op(u), a, Op(p), b]) == Some(Bin(Op(p), Un(Op(u), Leaf(a)), Leaf(b)))
    ensures p !in POSTFIX ==> Parse([a, Op(p), Op(u), b]) == Some(Bin(Op(p), Leaf(a), Un(Op(u), Leaf(b))))
    ensures p !in POSTFIX ==> Parse([a, Op(v), Op(p), b]) == Some(Bin(Op(p), Post(Op(v), Leaf(a)), Leaf(b)))
  {
    hide Parse, Level;
    Prefixed(u, a, p, b);
    if p !in POSTFIX {
      PrefixBehind(u, a, p, b);
      Postfixed(v, a, p, b);
    }
  }

  lemma Prefixed(u: int, a: Tok, p: int, b: Tok)
    requires a.Atom? && b.Atom? && Level(p) >= 0 && u in PREFIX
    ensures Parse([Op(u), a, Op(p), b]) == Some(Bin(Op(p), Un(Op(u), Leaf(a)), Leaf(b)))
  {
    hide Parse, Level, PREFIX, POSTFIX;
    var ts, t := [Op(u), a, Op(p), b], Bin(Op(p), Un(Op(u), Leaf(a)), Leaf(b));
    PrefixMade(u, a);
    LeafMade(b);
    assert Flatten(t) == ts && Made(t) && Grouped(t);
    ParseByTable(ts, t);
  }

  lemma PrefixBehind(u: int, a: Tok, p: int, b: Tok)
    requires a.Atom? && b.Atom? && Level(p) >= 0 && u in PREFIX && p !in POSTFIX
    ensures Parse([a, Op(p), Op(u), b]) == Some(Bin(Op(p), Leaf(a), Un(Op(u), Leaf(b))))
  {
    hide Parse, Level, PREFIX, POSTFIX;
    var ts, t := [a, Op(p), Op(u), b], Bin(Op(p), Leaf(a), Un(Op(u), Leaf(b)));
    PrefixMade(u, b);
    LeafMade(a);
    assert Flatten(t) == ts && Made(t) && Grouped(t);
    ParseByTable(ts, t);
  }

  lemma Postfixed(v: int, a: Tok, p: int, b: Tok)
    requires a.Atom? && b.Atom? && Level(p) >= 0 && v in POSTFIX && p !in POSTFIX
    ensures Parse([a, Op(v), Op(p), b]) == Some(Bin(Op(p), Post(Op(v), Leaf(a)), Leaf(b)))
  {
    hide Parse, Level, PREFIX, POSTFIX;
    var ts, t := [a, Op(v), Op(p), b], Bin(Op(p), Post(Op(v), Leaf(a)), Leaf(b));
    PostfixLevel(v);
    PostfixMade(v, a);
    LeafMade(b);
    assert Flatten(t) == ts && Made(t) && Grouped(t);
    ParseByTable(ts, t);
  }

  lemma LeafMade(a: Tok)
    requires a.Atom?
    ensures Made(Leaf(a)) && Grouped(Leaf(a)) && Flatten(Leaf(a)) == [a] && Starts(Leaf(a))
  {
  }

  lemma PrefixMade(u: int, a: Tok)
    requires a.Atom? && u in PREFIX
    ensures var t := Un(Op(u), Leaf(a)); Made(t) && Grouped(t) && Flatten(t) == [Op(u), a]
  {
    LeafMade(a);
  }

  lemma PostfixMade(v: int, a: Tok)
    requires a.Atom? && v in POSTFIX
    ensures var t := Post(Op(v), Leaf(a)); Made(t) && Grouped(t) && Flatten(t) == [a, Op(v)]
  {
    LeafMade(a);
  }

  lemma PostfixLevel(v: int)
    requires v in POSTFIX
    ensures Level(v) == 0 && v in PREFIX
  {
  }
}
