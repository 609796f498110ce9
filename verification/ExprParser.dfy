/** The expression parser's precedence split: which operator of a token list becomes the
    root, and which tree comes out. */
module ExprParser {

  /** An operand, or an operator by its token code. */
  datatype Tok = Atom(id: int) | Op(code: int)

  /** `Post` is a postfix `++` or `--`. */
  datatype Tree = Leaf(tok: Tok) | Un(op: Tok, a: Tree) | Post(op: Tok, a: Tree) | Bin(op: Tok, l: Tree, r: Tree)

  datatype Option<T> = None | Some(value: T)

  /* Operator classes, by token code. */

  predicate IsAssign(c: int) { 209 <= c <= 223 }
  predicate IsBinary(c: int) { 200 <= c <= 239 && c != 224 }
  predicate IsUnary(c: int) { c == 224 || c == 228 || c == 229 || 240 <= c <= 243 }

  /** part_weight of an operator. */
  function PartWeight(c: int, binary: bool): (w: int)
    ensures w > 0
  {
    if IsAssign(c) then 40
    else if !binary then 10
    else if c == 219 || c == 220 || c == 225 || c == 226 then 30
    else if c == 227 then 29
    else if c == 208 then 28
    else if 200 <= c <= 208 then 29
    else if c == 239 then 27
    else if 233 <= c <= 237 then 26
    else if c == 228 || c == 229 then 25
    else if 230 <= c <= 232 then 24
    else if c == 240 then 8
    else if c == 238 then 7
    else 11
  }

  predicate IsBump(c: int) { c == 242 || c == 243 }

  predicate Bump(t: Tok) { t.Op? && IsBump(t.code) }

  /** The operators modelled between operands: all but `.`, `!`, `$` and `$=`.  The parser takes
      the other one-operand operators there as well; the code generator refuses them. */
  predicate Infix(c: int) {
    (IsBinary(c) && c != 238 && c != 239 && c != 222) || c == 224 || c == 241 || IsBump(c)
  }

  /** An operator counts as binary if it is not last and stands behind an operand, or behind
      `++` or `--`, which is then taken to be postfix. */
  predicate BinaryAt(ts: seq<Tok>, j: int)
    requires 0 <= j < |ts|
  {
    ts[j].Op? && j > 0 && j + 1 < |ts| && (!ts[j - 1].Op? || Bump(ts[j - 1]))
  }

  function WeightAt(ts: seq<Tok>, j: int): int
    requires 0 <= j < |ts|
  {
    if ts[j].Op? then PartWeight(ts[j].code, BinaryAt(ts, j)) else 0
  }

  /** Assignments and prefix operators split at the leftmost of equals, others at the rightmost. */
  predicate LeftmostSplit(ts: seq<Tok>, j: int)
    requires 0 <= j < |ts|
  {
    ts[j].Op? && (IsAssign(ts[j].code) || !BinaryAt(ts, j))
  }

  predicate Better(ts: seq<Tok>, j: int, weight: int)
    requires 0 <= j < |ts|
  {
    ts[j].Op? && if LeftmostSplit(ts, j) then WeightAt(ts, j) > weight else WeightAt(ts, j) >= weight
  }

  /** The operator that the scan settles on among the first `n` tokens; -1 if there is none. */
  function Heaviest(ts: seq<Tok>, n: nat): (m: int)
    requires n <= |ts|
    ensures -1 <= m < n && (m >= 0 ==> ts[m].Op?)
    decreases n
  {
    if n == 0 then -1
    else
      var m := Heaviest(ts, n - 1);
      if Better(ts, n - 1, if m < 0 then 0 else WeightAt(ts, m)) then n - 1 else m
  }

  /** level_exp on values. */
  function Parse(ts: seq<Tok>): Option<Tree>
    decreases |ts|
  {
    if ts == [] then None
    else
      var m := Heaviest(ts, |ts|);
      if m < 0 then (if |ts| == 1 then Some(Leaf(ts[0])) else None)
      else if BinaryAt(ts, m) then
        var l := Parse(ts[..m]);
        if l.None? then None
        else
          var r := Parse(ts[m + 1..]);
          if r.None? then None else Some(Bin(ts[m], l.value, r.value))
      else if IsUnary(ts[m].code) && m == 0 && |ts| > 1 then
        var a := Parse(ts[1..]);
        if a.None? then None else Some(Un(ts[0], a.value))
      else if Bump(ts[m]) && m > 0 && m + 1 == |ts| then
        var a := Parse(ts[..m]);
        if a.None? then None else Some(Post(ts[m], a.value))
      else None
  }

  /** The three ways to split, in terms of the parts. */
  lemma JoinBinary(ts: seq<Tok>, m: nat)
    requires m < |ts| && m == Heaviest(ts, |ts|) && BinaryAt(ts, m)
    ensures Parse(ts).Some? <==> Parse(ts[..m]).Some? && Parse(ts[m + 1..]).Some?
    ensures Parse(ts).Some? ==> Parse(ts).value == Bin(ts[m], Parse(ts[..m]).value, Parse(ts[m + 1..]).value)
  {
  }

  lemma JoinUnary(ts: seq<Tok>)
    requires |ts| > 1 && Heaviest(ts, |ts|) == 0 && IsUnary(ts[0].code)
    ensures Parse(ts).Some? <==> Parse(ts[1..]).Some?
    ensures Parse(ts).Some? ==> Parse(ts).value == Un(ts[0], Parse(ts[1..]).value)
  {
  }

  lemma JoinPost(ts: seq<Tok>)
    requires |ts| > 1 && Heaviest(ts, |ts|) == |ts| - 1 && Bump(ts[|ts| - 1])
    ensures Parse(ts).Some? <==> Parse(ts[..|ts| - 1]).Some?
    ensures Parse(ts).Some? ==> Parse(ts).value == Post(ts[|ts| - 1], Parse(ts[..|ts| - 1]).value)
  {
  }

  /** Nothing else parses but a single operand. */
  lemma JoinNone(ts: seq<Tok>)
    requires Parse(ts).Some?
    ensures ts != []
    ensures var m := Heaviest(ts, |ts|);
            if m < 0 then |ts| == 1 && Parse(ts) == Some(Leaf(ts[0]))
            else
              || BinaryAt(ts, m)
              || (m == 0 && |ts| > 1 && IsUnary(ts[0].code))
              || (m > 0 && m + 1 == |ts| && Bump(ts[m]))
  {
  }

  /* ---- what the tree must be ---- */

  function Flatten(t: Tree): (ts: seq<Tok>)
    ensures |ts| > 0
  {
    match t
    case Leaf(tok) => [tok]
    case Un(op, a) => [op] + Flatten(a)
    case Post(op, a) => Flatten(a) + [op]
    case Bin(op, l, r) => Flatten(l) + [op] + Flatten(r)
  }

  /** Behind `++` or `--` comes an operand: an operator there would be a binary one. */
  predicate Opens(op: Tok, ts: seq<Tok>) {
    Bump(op) ==> ts != [] && ts[0].Atom?
  }

  /** Operands at the leaves, operators of the right kind inside; postfix operators stand right
      behind an operand. */
  predicate WellMade(t: Tree) {
    match t
    case Leaf(tok) => tok.Atom?
    case Un(op, a) => op.Op? && IsUnary(op.code) && WellMade(a) && Opens(op, Flatten(a))
    case Post(op, a) => Bump(op) && a.Leaf? && WellMade(a)
    case Bin(op, l, r) => op.Op? && Infix(op.code) && WellMade(l) && WellMade(r) && Opens(op, Flatten(r))
  }

  function RootWeight(t: Tree): int {
    match t
    case Leaf(_) => 0
    case Un(_, _) => 10
    case Post(_, _) => 10
    case Bin(op, _, _) => if op.Op? then PartWeight(op.code, true) else 0
  }

  /** Heavier operators sit above lighter ones; equals group to the left, assignments to the right. */
  predicate Ordered(t: Tree) {
    match t
    case Leaf(_) => true
    case Un(op, a) => Ordered(a) && RootWeight(a) <= 10
    case Post(op, a) => Ordered(a) && RootWeight(a) < 10
    case Bin(op, l, r) =>
      && Ordered(l) && Ordered(r)
      && if op.Op? && IsAssign(op.code) then RootWeight(l) < 40 && RootWeight(r) <= 40
         else RootWeight(l) <= RootWeight(t) && RootWeight(r) < RootWeight(t)
  }

  /** Lists of the grammar: prefix operators, an operand, `++` or `--` behind it or not, and
      again after every infix operator. */
  predicate WellFormed(ts: seq<Tok>)
    decreases |ts|, 0
  {
    && ts != []
    && if ts[0].Op? then IsUnary(ts[0].code) && WellFormed(ts[1..]) && Opens(ts[0], ts[1..])
       else ts[1..] == [] || Continues(ts[1..]) || (Bump(ts[1]) && (ts[2..] == [] || Continues(ts[2..])))
  }

  /** An infix operator and what it needs behind it. */
  predicate Continues(ts: seq<Tok>)
    decreases |ts|, 1
  {
    ts != [] && ts[0].Op? && Infix(ts[0].code) && WellFormed(ts[1..]) && Opens(ts[0], ts[1..])
  }

  /* ---- the scan finds the root ---- */

  /** What the scan guarantees about its choice among the first `n` tokens. */
  ghost predicate Chosen(ts: seq<Tok>, n: nat, m: int)
    requires n <= |ts|
  {
    if m < 0 then forall j | 0 <= j < n :: !ts[j].Op?
    else
      && m < n && ts[m].Op?
      && (forall j | 0 <= j < n && ts[j].Op? :: WeightAt(ts, j) <= WeightAt(ts, m))
      && (forall j | m < j < n && ts[j].Op? && !LeftmostSplit(ts, j) :: WeightAt(ts, j) < WeightAt(ts, m))
      && (LeftmostSplit(ts, m) ==> forall j | 0 <= j < m && ts[j].Op? :: WeightAt(ts, j) < WeightAt(ts, m))
  }

  lemma {:induction false} HeaviestChosen(ts: seq<Tok>, n: nat)
    requires n <= |ts|
    ensures Chosen(ts, n, Heaviest(ts, n))
    decreases n
  {
    if n > 0 { HeaviestChosen(ts, n - 1); }
  }

  /** The weight tells the two kinds of operators apart. */
  lemma Classes(ts: seq<Tok>, j: int)
    requires 0 <= j < |ts| && ts[j].Op?
    ensures LeftmostSplit(ts, j) <==> WeightAt(ts, j) in {10, 40}
    ensures IsAssign(ts[j].code) <==> WeightAt(ts, j) == 40
  {
  }

  /** So the choice is unique. */
  lemma ChosenUnique(ts: seq<Tok>, m: int, k: int)
    requires Chosen(ts, |ts|, m) && Chosen(ts, |ts|, k)
    ensures m == k || (m < 0 && k < 0)
  {
    hide LeftmostSplit, WeightAt;
    if m >= 0 && k >= 0 {
      Classes(ts, m);
      Classes(ts, k);
    }
  }

  /* ---- flattening and weights ---- */

  /** What can stand in front of a binary operator. */
  predicate EndsOperand(ts: seq<Tok>) {
    ts != [] && (ts[|ts| - 1].Atom? || Bump(ts[|ts| - 1]))
  }

  lemma FlattenEnds(t: Tree)
    requires WellMade(t)
    ensures EndsOperand(Flatten(t))
  {
  }

  /** The classes of positions in the parts of a list that is split at an infix operator: only
      a `++` that ends the left part was binary in the list and is not in the part. */
  lemma SplitPositions(a: seq<Tok>, op: Tok, b: seq<Tok>)
    requires EndsOperand(a) && b != [] && op.Op? && (Opens(op, b) || |b| == 1)
    ensures var ts := a + [op] + b;
            && BinaryAt(ts, |a|)
            && (forall j | 0 <= j < |a| ::
               ts[j] == a[j] && (j < |a| - 1 || a[j].Atom? ==> BinaryAt(ts, j) == BinaryAt(a, j)))
            && (forall j | 0 <= j < |b| :: ts[|a| + 1 + j] == b[j] && BinaryAt(ts, |a| + 1 + j) == BinaryAt(b, j))
  {
  }

  lemma LeftOf(a: seq<Tok>, op: Tok, b: seq<Tok>, j: nat)
    requires EndsOperand(a) && b != [] && op.Op? && (Opens(op, b) || |b| == 1) && j < |a| && (j < |a| - 1 || a[j].Atom?)
    ensures var ts := a + [op] + b;
            ts[j] == a[j] && WeightAt(ts, j) == WeightAt(a, j) && LeftmostSplit(ts, j) == LeftmostSplit(a, j)
  {
    SplitPositions(a, op, b);
  }

  lemma RightOf(a: seq<Tok>, op: Tok, b: seq<Tok>, j: nat)
    requires EndsOperand(a) && b != [] && op.Op? && (Opens(op, b) || |b| == 1) && j < |b|
    ensures var ts, k := a + [op] + b, |a| + 1 + j;
            ts[k] == b[j] && WeightAt(ts, k) == WeightAt(b, j) && LeftmostSplit(ts, k) == LeftmostSplit(b, j)
  {
    SplitPositions(a, op, b);
  }

  lemma Middle(a: seq<Tok>, op: Tok, b: seq<Tok>)
    requires EndsOperand(a) && b != [] && op.Op?
    ensures var ts := a + [op] + b; ts[|a|] == op && BinaryAt(ts, |a|) && WeightAt(ts, |a|) == PartWeight(op.code, true)
  {
  }

  lemma Behind(op: Tok, b: seq<Tok>, j: nat)
    requires op.Op? && b != [] && (Opens(op, b) || |b| == 1) && j < |b|
    ensures var ts := [op] + b; ts[1 + j] == b[j] && WeightAt(ts, 1 + j) == WeightAt(b, j) && !BinaryAt(ts, 0)
  {
  }

  /** Where the root's operator is in the flattened list. */
  function RootAt(t: Tree): int {
    match t
    case Leaf(_) => -1
    case Un(_, _) => 0
    case Post(_, a) => |Flatten(a)|
    case Bin(_, l, _) => |Flatten(l)|
  }

  /** Lists of modelled operators, with `!` not between operands. */
  predicate Fragment(ts: seq<Tok>) {
    forall j | 0 <= j < |ts| && ts[j].Op? :: AllowedAt(ts, j)
  }

  predicate AllowedAt(ts: seq<Tok>, j: int)
    requires 0 <= j < |ts|
  {
    ts[j].Op? ==> (Infix(ts[j].code) || IsUnary(ts[j].code)) && (BinaryAt(ts, j) ==> Infix(ts[j].code))
  }

  lemma InfixWeight(c: int)
    requires Infix(c)
    ensures if IsAssign(c) then PartWeight(c, true) == 40 else 11 <= PartWeight(c, true) <= 30
    ensures IsBump(c) ==> PartWeight(c, true) == 11 && !IsAssign(c)
  {
  }

  /** No operator of a tree outweighs its root. */
  lemma {:induction false} FlattenWeights(t: Tree, j: nat)
    requires WellMade(t) && Ordered(t) && j < |Flatten(t)| && Flatten(t)[j].Op?
    ensures WeightAt(Flatten(t), j) <= RootWeight(t)
  {
    hide PartWeight, Infix, Bump, Opens, WeightAt, BinaryAt, EndsOperand;
    match t
    case Un(op, a) =>
      Behind(op, Flatten(a), 0);
      if j > 0 {
        Behind(op, Flatten(a), j - 1);
        FlattenWeights(a, j - 1);
      } else {
        UnaryWeight(Flatten(t), 0);
      }
    case Post(op, a) =>
      BumpInfix(op);
      LastUnary(Flatten(t));
      UnaryWeight(Flatten(t), 1);
    case Bin(op, l, r) =>
      var a, b := Flatten(l), Flatten(r);
      FlattenEnds(l);
      Middle(a, op, b);
      InfixWeight(op.code);
      if j == |a| - 1 && a[j].Op? {
        EndWeight(l, [op] + b);
        assert Flatten(t) == a + ([op] + b);
      } else if j < |a| {
        LeftOf(a, op, b, j);
        FlattenWeights(l, j);
      } else if j > |a| {
        RightOf(a, op, b, j - |a| - 1);
        FlattenWeights(r, j - |a| - 1);
      }
  }

  lemma LastUnary(ts: seq<Tok>)
    requires ts != []
    ensures !BinaryAt(ts, |ts| - 1)
  {
  }

  /** An operator that is unary where it stands. */
  lemma UnaryWeight(ts: seq<Tok>, j: nat)
    requires j < |ts| && ts[j].Op? && !BinaryAt(ts, j) && IsUnary(ts[j].code)
    ensures WeightAt(ts, j) == 10 && LeftmostSplit(ts, j)
  {
  }

  /** A `++` at the end of a tree, with more behind it, is as light as a binary operator can be. */
  lemma EndWeight(t: Tree, rest: seq<Tok>)
    requires WellMade(t) && rest != [] && Flatten(t)[|Flatten(t)| - 1].Op?
    ensures WeightAt(Flatten(t) + rest, |Flatten(t)| - 1) <= 11
  {
    FlattenEnds(t);
    InfixWeight(Flatten(t)[|Flatten(t)| - 1].code);
  }

  /** The root of an ordered tree is what the scan chooses in its list. */
  lemma RootChosen(t: Tree)
    requires WellMade(t) && Ordered(t)
    ensures Chosen(Flatten(t), |Flatten(t)|, RootAt(t))
  {
    hide PartWeight, Infix, WeightAt, LeftmostSplit, BinaryAt, Bump, Opens;
    var ts, m := Flatten(t), RootAt(t);
    match t
    case Leaf(_) =>
    case Un(op, a) =>
      Behind(op, Flatten(a), 0);
      UnaryWeight(ts, 0);
      forall j | 0 <= j < |ts| && ts[j].Op? ensures WeightAt(ts, j) <= WeightAt(ts, m)
          && (j > m && !LeftmostSplit(ts, j) ==> WeightAt(ts, j) < WeightAt(ts, m)) {
        FlattenWeights(t, j);
        Classes(ts, j);
      }
    case Post(op, a) => PostChosen(a.tok, op);
    case Bin(op, l, r) =>
      FlattenEnds(l);
      SplitPositions(Flatten(l), op, Flatten(r));
      forall j | 0 <= j < |ts| && ts[j].Op? ensures WeightAt(ts, j) <= WeightAt(ts, m)
        ensures j > m && !LeftmostSplit(ts, j) ==> WeightAt(ts, j) < WeightAt(ts, m)
        ensures j < m && LeftmostSplit(ts, m) ==> WeightAt(ts, j) < WeightAt(ts, m)
      {
        BinOver(op, l, r, j);
      }
  }

  lemma PostChosen(x: Tok, op: Tok)
    requires x.Atom? && Bump(op)
    ensures Chosen([x, op], 2, 1)
  {
  }

  /** How the root of an ordered binary tree compares with another operator. */
  lemma BinOver(op: Tok, l: Tree, r: Tree, j: nat)
    requires WellMade(Bin(op, l, r)) && Ordered(Bin(op, l, r))
    requires var ts := Flatten(Bin(op, l, r)); j < |ts| && ts[j].Op?
    ensures var ts, m := Flatten(Bin(op, l, r)), |Flatten(l)|;
            && ts[m] == op && WeightAt(ts, j) <= WeightAt(ts, m)
            && (j > m && !LeftmostSplit(ts, j) ==> WeightAt(ts, j) < WeightAt(ts, m))
            && (j < m && LeftmostSplit(ts, m) ==> WeightAt(ts, j) < WeightAt(ts, m))
  {
    hide PartWeight, Infix, LeftmostSplit, Bump, Opens, WeightAt, BinaryAt, EndsOperand;
    var a, b := Flatten(l), Flatten(r);
    var t, ts, m := Bin(op, l, r), Flatten(Bin(op, l, r)), |Flatten(l)|;
    FlattenEnds(l);
    Middle(a, op, b);
    InfixWeight(op.code);
    Classes(ts, m);
    Classes(ts, j);
    FlattenWeights(t, j);
    if j == m - 1 && a[j].Op? {
      EndWeight(l, [op] + b);
      assert ts == a + ([op] + b);
    } else if j < m {
      LeftOf(a, op, b, j);
      FlattenWeights(l, j);
    } else if j > m {
      RightOf(a, op, b, j - m - 1);
      FlattenWeights(r, j - m - 1);
    }
  }

  /** A tree is parsed back from its own list. */
  lemma {:induction false} ParseFlatten(t: Tree)
    requires WellMade(t) && Ordered(t)
    ensures Parse(Flatten(t)) == Some(t)
  {
    hide Parse, Heaviest, PartWeight, Chosen, Infix, IsUnary, Bump, Opens, Ordered, BinaryAt, EndsOperand;
    var ts := Flatten(t);
    var m := Heaviest(ts, |ts|);
    HeaviestChosen(ts, |ts|);
    RootChosen(t);
    ChosenUnique(ts, m, RootAt(t));
    Sides(t);
    match t
    case Leaf(x) =>
      NoneChosen(ts, m);
      LoneOperand(ts);
    case Un(op, a) =>
      ParseFlatten(a);
      JoinUnary(ts);
      assert ts[1..] == Flatten(a);
    case Post(op, a) =>
      ParseFlatten(a);
      JoinPost(ts);
      assert ts[..m] == Flatten(a);
    case Bin(op, l, r) =>
      ParseFlatten(l);
      ParseFlatten(r);
      FlattenEnds(l);
      Middle(Flatten(l), op, Flatten(r));
      JoinBinary(ts, m);
      assert ts[..m] == Flatten(l) && ts[m + 1..] == Flatten(r);
  }

  lemma Sides(t: Tree)
    requires Ordered(t)
    ensures match t
            case Leaf(_) => true
            case Un(_, a) => Ordered(a)
            case Post(_, a) => Ordered(a)
            case Bin(_, l, r) => Ordered(l) && Ordered(r)
  {
  }

  lemma NoneChosen(ts: seq<Tok>, m: int)
    requires Chosen(ts, |ts|, m) && forall j | 0 <= j < |ts| :: ts[j].Atom?
    ensures m < 0
  {
  }

  /* ---- what parses ---- */

  /** Behind a chosen `++` stands an operand, or nothing that parses. */
  lemma BehindBump(ts: seq<Tok>, m: nat)
    requires Fragment(ts) && m + 1 < |ts| && Chosen(ts, |ts|, m) && Parse(ts[m + 1..]).Some?
    ensures Opens(ts[m], ts[m + 1..])
  {
    hide PartWeight, LeftmostSplit, Parse, Infix, IsUnary;
    if Bump(ts[m]) && ts[m + 1].Op? {
      if m + 2 < |ts| {
        assert AllowedAt(ts, m + 1) && BinaryAt(ts, m + 1);
        Heavier(ts, m);
      } else {
        LoneOperator(ts[m + 1..]);
      }
    }
  }

  lemma Heavier(ts: seq<Tok>, m: nat)
    requires m + 2 < |ts| && Bump(ts[m]) && BinaryAt(ts, m + 1) && Infix(ts[m + 1].code)
    ensures !Chosen(ts, |ts|, m)
  {
    InfixWeight(ts[m + 1].code);
    Classes(ts, m + 1);
  }

  lemma LoneOperator(ts: seq<Tok>)
    requires |ts| == 1 && ts[0].Op?
    ensures Parse(ts).None?
  {
    HeaviestChosen(ts, 1);
  }

  lemma PartFragment(ts: seq<Tok>, part: seq<Tok>, k: nat)
    requires Fragment(ts) && k + |part| <= |ts| && forall j | 0 <= j < |part| :: part[j] == ts[k + j]
    ensures Fragment(part)
  {
    hide Infix, IsUnary, Bump;
    forall j | 0 <= j < |part| && part[j].Op? ensures AllowedAt(part, j) {
      assert AllowedAt(ts, k + j);
    }
  }

  /** What comes out of the parser is an ordered tree over exactly the input. */
  lemma {:induction false} ParseSound(ts: seq<Tok>)
    requires Fragment(ts) && Parse(ts).Some?
    ensures var t := Parse(ts).value;
            && Flatten(t) == ts && WellMade(t) && Ordered(t)
            && (RootAt(t) >= 0 ==> ts[RootAt(t)].Op? && RootWeight(t) == WeightAt(ts, RootAt(t)))
    decreases |ts|
  {
    hide Parse, Heaviest, Chosen, PartWeight, Infix, IsUnary, Bump, Fragment, LeftmostSplit, Opens, WeightAt, Ordered,
        BinaryAt;
    JoinNone(ts);
    var m := Heaviest(ts, |ts|);
    HeaviestChosen(ts, |ts|);
    if m < 0 {
      OperandOnly(ts, m);
    } else if BinaryAt(ts, m) {
      var a, op, b := ts[..m], ts[m], ts[m + 1..];
      assert ts == a + [op] + b;
      JoinBinary(ts, m);
      PartFragment(ts, a, 0);
      PartFragment(ts, b, m + 1);
      ParseSound(a);
      ParseSound(b);
      BehindBump(ts, m);
      SplitOrdered(ts, m, Parse(a).value, Parse(b).value);
    } else if m == 0 {
      assert ts == [ts[0]] + ts[1..];
      JoinUnary(ts);
      PartFragment(ts, ts[1..], 1);
      ParseSound(ts[1..]);
      BehindBump(ts, 0);
      PrefixOrdered(ts, Parse(ts[1..]).value);
    } else {
      assert ts == ts[..m] + [ts[m]];
      JoinPost(ts);
      PartFragment(ts, ts[..m], 0);
      ParseSound(ts[..m]);
      PostOrdered(ts, Parse(ts[..m]).value);
    }
  }

  lemma OperandOnly(ts: seq<Tok>, m: int)
    requires |ts| == 1 && m < 0 && Chosen(ts, 1, m)
    ensures WellMade(Leaf(ts[0])) && Ordered(Leaf(ts[0]))
  {
  }

  /** The parts of a split are lighter than the operator, in the way grouping asks for. */
  lemma SplitOrdered(ts: seq<Tok>, m: nat, l: Tree, r: Tree)
    requires m < |ts| && Chosen(ts, |ts|, m) && BinaryAt(ts, m) && Fragment(ts) && Opens(ts[m], ts[m + 1..])
    requires Flatten(l) == ts[..m] && Flatten(r) == ts[m + 1..] && WellMade(l) && WellMade(r) && Ordered(l)
             && Ordered(r)
    requires RootAt(l) >= 0 ==> ts[..m][RootAt(l)].Op? && RootWeight(l) == WeightAt(ts[..m], RootAt(l))
    requires RootAt(r) >= 0 ==> ts[m + 1..][RootAt(r)].Op? && RootWeight(r) == WeightAt(ts[m + 1..], RootAt(r))
    ensures Ordered(Bin(ts[m], l, r)) && WellMade(Bin(ts[m], l, r))
    ensures RootWeight(Bin(ts[m], l, r)) == WeightAt(ts, m)
  {
    hide Flatten, Chosen, PartWeight, Infix, IsAssign, Fragment, LeftmostSplit, BinaryAt, RootAt, WeightAt, Opens;
    OperatorWeight(ts, m);
    RootIn(l);
    RootIn(r);
    if RootAt(l) >= 0 && !l.Post? {
      LeftWeight(ts, m, RootAt(l));
      ChosenOver(ts, m, RootAt(l));
    }
    if RootAt(r) >= 0 {
      RightWeight(ts, m, RootAt(r));
      ChosenOver(ts, m, m + 1 + RootAt(r));
    }
  }

  /** Operators weigh the same in the halves of a split, but for a `++` that ends the left one. */
  lemma LeftWeight(ts: seq<Tok>, m: nat, j: nat)
    requires m < |ts| && BinaryAt(ts, m) && j + 1 < m
    ensures ts[j] == ts[..m][j] && WeightAt(ts, j) == WeightAt(ts[..m], j)
  {
  }

  lemma RightWeight(ts: seq<Tok>, m: nat, j: nat)
    requires m + 1 < |ts| && BinaryAt(ts, m) && Opens(ts[m], ts[m + 1..]) && j < |ts[m + 1..]|
    ensures ts[m + 1 + j] == ts[m + 1..][j] && WeightAt(ts, m + 1 + j) == WeightAt(ts[m + 1..], j)
  {
  }

  lemma RootIn(t: Tree)
    ensures RootAt(t) < |Flatten(t)| && (RootAt(t) < 0 ==> RootWeight(t) == 0)
    ensures RootAt(t) + 1 == |Flatten(t)| && RootAt(t) >= 0 ==> t.Post?
    ensures t.Post? ==> RootWeight(t) == 10
  {
  }

  lemma OperatorWeight(ts: seq<Tok>, m: nat)
    requires m < |ts| && BinaryAt(ts, m) && Fragment(ts)
    ensures ts[m].Op? && Infix(ts[m].code) && WeightAt(ts, m) == PartWeight(ts[m].code, true) > 10
    ensures IsAssign(ts[m].code) ==> WeightAt(ts, m) == 40
  {
    assert AllowedAt(ts, m);
    InfixWeight(ts[m].code);
  }

  /** How the chosen operator compares with one before or behind it. */
  lemma ChosenOver(ts: seq<Tok>, m: nat, k: nat)
    requires m < |ts| && Chosen(ts, |ts|, m) && ts[m].Op? && k < |ts| && k != m && ts[k].Op?
    ensures WeightAt(ts, k) <= WeightAt(ts, m)
    ensures k < m && IsAssign(ts[m].code) ==> WeightAt(ts, k) < WeightAt(ts, m)
    ensures k > m && BinaryAt(ts, m) && !IsAssign(ts[m].code) ==> WeightAt(ts, k) < WeightAt(ts, m)
  {
    Classes(ts, m);
    Classes(ts, k);
  }

  lemma PrefixOrdered(ts: seq<Tok>, a: Tree)
    requires |ts| > 1 && Chosen(ts, |ts|, 0) && ts[0].Op? && IsUnary(ts[0].code) && Opens(ts[0], ts[1..])
    requires Flatten(a) == ts[1..] && WellMade(a) && Ordered(a)
    requires RootAt(a) >= 0 ==> ts[1..][RootAt(a)].Op? && RootWeight(a) == WeightAt(ts[1..], RootAt(a))
    ensures Ordered(Un(ts[0], a)) && WellMade(Un(ts[0], a)) && WeightAt(ts, 0) == 10
  {
    hide Flatten, Chosen, PartWeight, RootAt, WeightAt, Opens, WellFormed;
    assert ts == [ts[0]] + ts[1..];
    UnaryWeight(ts, 0);
    RootIn(a);
    if RootAt(a) >= 0 {
      FirstWeight(ts, RootAt(a));
      ChosenOver(ts, 0, 1 + RootAt(a));
    }
  }

  lemma FirstWeight(ts: seq<Tok>, j: nat)
    requires |ts| > 1 && ts[0].Op? && Opens(ts[0], ts[1..]) && j < |ts[1..]|
    ensures ts[1 + j] == ts[1..][j] && WeightAt(ts, 1 + j) == WeightAt(ts[1..], j)
  {
  }

  /** A postfix operator is only chosen if there is no other operator. */
  lemma PostOrdered(ts: seq<Tok>, a: Tree)
    requires |ts| > 1 && Fragment(ts) && Bump(ts[|ts| - 1]) && Chosen(ts, |ts|, |ts| - 1)
    requires Flatten(a) == ts[..|ts| - 1] && WellMade(a) && Ordered(a)
             && (RootAt(a) >= 0 ==> ts[..|ts| - 1][RootAt(a)].Op?)
    ensures var t := Post(ts[|ts| - 1], a);
            Ordered(t) && WellMade(t) && Flatten(t) == ts && WeightAt(ts, RootAt(t)) == 10
  {
    hide PartWeight, Infix, Fragment;
    var m := |ts| - 1;
    UnaryWeight(ts, m);
    RootIn(a);
    if RootAt(a) >= 0 {
      var k := RootAt(a);
      assert ts[k] == ts[..m][k];
      AtLeastTen(ts, k);
    }
  }

  lemma AtLeastTen(ts: seq<Tok>, k: nat)
    requires Fragment(ts) && k < |ts| && ts[k].Op?
    ensures WeightAt(ts, k) >= 10
  {
    assert AllowedAt(ts, k);
    if BinaryAt(ts, k) { InfixWeight(ts[k].code); }
  }

  /* ---- exactly the well-formed lists parse ---- */

  lemma {:induction false} FlattenWellFormed(t: Tree, rest: seq<Tok>)
    requires WellMade(t) && (rest == [] || Continues(rest))
    ensures WellFormed(Flatten(t) + rest)
  {
    hide WellFormed, Continues, Infix, IsUnary, Bump, Opens;
    var ts := Flatten(t) + rest;
    match t
    case Leaf(tok) =>
      WellFormedOperand(tok, rest);
    case Un(op, a) =>
      FlattenWellFormed(a, rest);
      OpensMore(op, Flatten(a), rest);
      WellFormedPrefix(op, Flatten(a) + rest);
      assert ts == [op] + (Flatten(a) + rest);
    case Post(op, a) =>
      WellFormedPostfix(a.tok, op, rest);
      assert Flatten(a) == [a.tok] && Flatten(t) == [a.tok, op];
    case Bin(op, l, r) =>
      FlattenWellFormed(r, rest);
      OpensMore(op, Flatten(r), rest);
      var mid := [op] + (Flatten(r) + rest);
      InfixContinues(op, Flatten(r) + rest);
      FlattenWellFormed(l, mid);
      assert ts == Flatten(l) + mid;
  }

  lemma OpensMore(op: Tok, ts: seq<Tok>, rest: seq<Tok>)
    requires Opens(op, ts)
    ensures Opens(op, ts + rest)
  {
  }

  lemma WellFormedOperand(x: Tok, rest: seq<Tok>)
    requires x.Atom? && (rest == [] || Continues(rest))
    ensures WellFormed([x] + rest)
  {
    hide Continues;
    assert ([x] + rest)[1..] == rest;
  }

  lemma WellFormedPrefix(op: Tok, ts: seq<Tok>)
    requires op.Op? && IsUnary(op.code) && WellFormed(ts) && Opens(op, ts)
    ensures WellFormed([op] + ts)
  {
    hide IsUnary, Opens;
    assert ([op] + ts)[1..] == ts;
  }

  lemma WellFormedPostfix(x: Tok, op: Tok, rest: seq<Tok>)
    requires x.Atom? && Bump(op) && (rest == [] || Continues(rest))
    ensures WellFormed([x, op] + rest)
  {
    hide Continues;
    var ts := [x, op] + rest;
    assert ts[1] == op && ts[2..] == rest && ts[1..] != [];
  }

  lemma InfixContinues(op: Tok, ts: seq<Tok>)
    requires op.Op? && Infix(op.code) && WellFormed(ts) && Opens(op, ts)
    ensures Continues([op] + ts)
  {
    hide Infix, Opens, WellFormed;
    assert ([op] + ts)[1..] == ts;
  }

  lemma {:induction false} WellFormedAllowed(ts: seq<Tok>, j: nat)
    requires WellFormed(ts) && j < |ts|
    ensures AllowedAt(ts, j) && (ts[j].Op? && !BinaryAt(ts, j) ==> IsUnary(ts[j].code))
    decreases |ts|
  {
    hide Infix, IsUnary;
    if j > 0 {
      if ts[0].Op? {
        Inside(ts, 1, j);
        WellFormedAllowed(ts[1..], j - 1);
      } else if Continues(ts[1..]) {
        assert ts[1..][1..] == ts[2..];
        NotEmpty(ts[2..]);
        if j > 1 {
          Inside(ts, 2, j);
          WellFormedAllowed(ts[2..], j - 2);
        }
      } else if j > 1 {
        assert ts[2..][1..] == ts[3..];
        NotEmpty(ts[3..]);
        if j > 2 {
          Inside(ts, 3, j);
          WellFormedAllowed(ts[3..], j - 3);
        }
      } else {
        BumpInfix(ts[1]);
      }
    }
  }

  lemma BumpInfix(op: Tok)
    requires Bump(op)
    ensures Infix(op.code) && IsUnary(op.code)
  {
  }

  /** Cutting off what ends in an operator, with an operand behind it if that is `++`. */
  lemma Inside(ts: seq<Tok>, k: nat, j: nat)
    requires 0 < k <= j < |ts| && ts[k - 1].Op? && Opens(ts[k - 1], ts[k..])
    ensures ts[k..][j - k] == ts[j] && BinaryAt(ts[k..], j - k) == BinaryAt(ts, j)
  {
  }

  /** Both sides of an infix operator are well-formed, if it is not a postfix one. */
  lemma {:induction false} WellFormedSplit(ts: seq<Tok>, m: nat)
    requires WellFormed(ts) && m + 1 < |ts| && BinaryAt(ts, m) && !BinaryAt(ts, m + 1)
             && !(m + 2 == |ts| && ts[m + 1].Op?)
    ensures WellFormed(ts[..m]) && WellFormed(ts[m + 1..])
    decreases |ts|
  {
    hide Infix, IsUnary;
    if ts[0].Op? {
      SplitBehind(ts, 1, m);
    } else if Continues(ts[1..]) {
      assert ts[1..][1..] == ts[2..];
      if m == 1 {
        assert ts[..1][1..] == [];
      } else {
        SplitBehind(ts, 2, m);
        assert ts[..m][1..][1..] == ts[..m][2..];
      }
    } else {
      assert ts[2..][1..] == ts[3..];
      if m == 2 {
        assert ts[..2][1..] != [] && ts[..2][2..] == [];
      } else {
        SplitBehind(ts, 3, m);
        assert ts[..m][2..][1..] == ts[..m][3..];
      }
    }
  }

  /** The same behind the operator number `k - 1`. */
  lemma {:induction false} SplitBehind(ts: seq<Tok>, k: nat, m: nat)
    requires 0 < k <= m && m + 1 < |ts| && ts[k - 1].Op? && Opens(ts[k - 1], ts[k..]) && WellFormed(ts[k..])
    requires BinaryAt(ts, m) && !BinaryAt(ts, m + 1) && !(m + 2 == |ts| && ts[m + 1].Op?)
    ensures k < m && WellFormed(ts[..m][k..]) && Opens(ts[k - 1], ts[..m][k..]) && WellFormed(ts[m + 1..])
    decreases |ts|, 0
  {
    hide WellFormed;
    Inside(ts, k, m);
    Inside(ts, k, m + 1);
    WellFormedSplit(ts[k..], m - k);
    assert ts[k..][..m - k] == ts[..m][k..] && ts[k..][m - k + 1..] == ts[m + 1..];
  }

  lemma {:induction false} WellFormedParses(ts: seq<Tok>)
    requires WellFormed(ts)
    ensures Parse(ts).Some?
    decreases |ts|
  {
    hide Parse, Heaviest, WellFormed, Chosen, Infix, IsUnary, Bump, BinaryAt, AllowedAt;
    NotEmpty(ts);
    var m := Heaviest(ts, |ts|);
    HeaviestChosen(ts, |ts|);
    forall j | 0 <= j < |ts| ensures AllowedAt(ts, j) { WellFormedAllowed(ts, j); }
    if m < 0 {
      OneOperand(ts, m);
      LoneOperand(ts);
    } else {
      WellFormedAllowed(ts, m);
      if BinaryAt(ts, m) {
        NotPostfix(ts, m);
        WellFormedSplit(ts, m);
        WellFormedParses(ts[..m]);
        WellFormedParses(ts[m + 1..]);
        JoinBinary(ts, m);
      } else if ts[0].Op? {
        PrefixRoot(ts, m);
        WellFormedParses(ts[1..]);
        JoinUnary(ts);
      } else {
        PostfixRoot(ts, m);
        WellFormedParses(ts[..m]);
        JoinPost(ts);
      }
    }
  }

  lemma LoneOperand(ts: seq<Tok>)
    requires |ts| == 1 && Heaviest(ts, 1) < 0
    ensures Parse(ts) == Some(Leaf(ts[0]))
  {
  }

  /** A chosen binary operator is not a `++` with an operator behind it. */
  lemma {:induction false} NotPostfix(ts: seq<Tok>, m: nat)
    requires WellFormed(ts) && Fragment(ts) && m < |ts| && Chosen(ts, |ts|, m) && BinaryAt(ts, m)
    ensures m + 1 < |ts| && !BinaryAt(ts, m + 1) && !(m + 2 == |ts| && ts[m + 1].Op?)
  {
    hide Infix, IsUnary, PartWeight, LeftmostSplit, WeightAt;
    if BinaryAt(ts, m + 1) {
      assert AllowedAt(ts, m + 1);
      Heavier(ts, m);
    }
    if m + 2 == |ts| && ts[m + 1].Op? { TwoAtEnd(ts); }
  }

  /** A well-formed list does not end in two operators. */
  lemma {:induction false} TwoAtEnd(ts: seq<Tok>)
    requires |ts| > 1 && ts[|ts| - 2].Op? && ts[|ts| - 1].Op?
    ensures !WellFormed(ts)
    decreases |ts|
  {
    hide Infix, IsUnary, Bump, Opens;
    NotAlone(ts[|ts| - 1..]);
    if |ts| > 2 {
      TwoAtEnd(ts[1..]);
      assert ts[1..][1..] == ts[2..] && ts[2..][1..] == ts[3..];
      if |ts| > 3 { TwoAtEnd(ts[2..]); }
      if |ts| > 4 { TwoAtEnd(ts[3..]); }
    }
  }

  lemma NotAlone(ts: seq<Tok>)
    requires |ts| == 1 && ts[0].Op?
    ensures !WellFormed(ts) && !Continues(ts)
  {
  }

  /** If no infix operator is chosen in a list that begins with a prefix operator, that is chosen. */
  lemma PrefixRoot(ts: seq<Tok>, m: nat)
    requires WellFormed(ts) && m < |ts| && Chosen(ts, |ts|, m) && !BinaryAt(ts, m) && ts[0].Op? && ts[m].Op?
             && IsUnary(ts[m].code)
    ensures m == 0 && IsUnary(ts[0].code) && |ts| > 1 && WellFormed(ts[1..])
  {
    hide Chosen, PartWeight, Infix, IsUnary, Bump, Opens, WeightAt;
    UnaryWeight(ts, 0);
    UnaryWeight(ts, m);
    LeftmostChosen(ts, m);
  }

  lemma LeftmostChosen(ts: seq<Tok>, m: nat)
    requires m < |ts| && Chosen(ts, |ts|, m) && LeftmostSplit(ts, m)
    ensures forall j | 0 <= j < m && ts[j].Op? :: WeightAt(ts, j) < WeightAt(ts, m)
  {
  }

  lemma MostChosen(ts: seq<Tok>, m: nat, j: nat)
    requires m < |ts| && Chosen(ts, |ts|, m) && j < |ts| && ts[j].Op?
    ensures WeightAt(ts, j) <= WeightAt(ts, m)
  {
  }

  /** If no infix operator is chosen in a list that begins with an operand, there is a `++` or
      `--` behind it and nothing else. */
  lemma PostfixRoot(ts: seq<Tok>, m: nat)
    requires WellFormed(ts) && m < |ts| && Chosen(ts, |ts|, m) && !BinaryAt(ts, m) && !ts[0].Op? && ts[m].Op?
             && IsUnary(ts[m].code)
    ensures m == 1 && |ts| == 2 && Bump(ts[1]) && IsUnary(ts[1].code) && WellFormed(ts[..1])
  {
    hide Chosen, PartWeight, Infix, IsUnary, WeightAt;
    assert ts[..1][1..] == [];
    UnaryWeight(ts, m);
    assert ts[1..] != [];
    if Continues(ts[1..]) {
      NotEmpty(ts[1..][1..]);
      InfixWeightAt(ts, 1);
      MostChosen(ts, m, 1);
    } else if |ts| > 2 {
      NotEmpty(ts[2..][1..]);
      InfixWeightAt(ts, 2);
      MostChosen(ts, m, 2);
    }
  }

  lemma InfixWeightAt(ts: seq<Tok>, j: nat)
    requires j < |ts| && BinaryAt(ts, j) && Infix(ts[j].code)
    ensures WeightAt(ts, j) > 10
  {
    InfixWeight(ts[j].code);
  }

  lemma OneOperand(ts: seq<Tok>, m: int)
    requires WellFormed(ts) && m < 0 && Chosen(ts, |ts|, m)
    ensures |ts| == 1
  {
    if |ts| > 1 { HasOperator(ts); }
  }

  lemma HasOperator(ts: seq<Tok>)
    requires WellFormed(ts) && |ts| > 1
    ensures ts[0].Op? || ts[1].Op?
  {
    hide Infix, IsUnary;
    assert ts[1..] != [];
  }

  lemma NotEmpty(ts: seq<Tok>)
    requires WellFormed(ts)
    ensures ts != []
  {
  }

  /** The precedence parse is right and unique.  For every list of the modelled operators,
      parsing succeeds exactly on the well-formed ones; the tree has the list as its in-order
      flattening, heavier operators above lighter ones, and it is the only such tree. */
  lemma ParseRight(ts: seq<Tok>)
    requires Fragment(ts)
    ensures Parse(ts).Some? <==> WellFormed(ts)
    ensures Parse(ts).Some? ==>
              var t := Parse(ts).value;
              && Flatten(t) == ts && WellMade(t) && Ordered(t)
              && forall u :: WellMade(u) && Ordered(u) && Flatten(u) == ts ==> u == t
  {
    hide Parse, WellFormed, Fragment;
    if Parse(ts).Some? {
      ParseSound(ts);
      var t := Parse(ts).value;
      FlattenWellFormed(t, []);
      assert Flatten(t) + [] == ts;
      forall u | WellMade(u) && Ordered(u) && Flatten(u) == ts ensures u == t { ParseFlatten(u); }
    }
    if WellFormed(ts) { WellFormedParses(ts); }
  }

  /** An operator behind a prefix `++` or `--` is taken as binary, and then nothing that parses
      stands in front of it. */
  lemma {:induction false} BumpThenOperator(bump: Tok, op: Tok, ts: seq<Tok>)
    requires Bump(bump) && op.Op? && Fragment([bump, op] + ts)
    ensures Parse([bump, op] + ts).None?
  {
    hide Parse, Fragment, Infix;
    ParseRight([bump, op] + ts);
    assert ([bump, op] + ts)[1..][0] == op;
  }

  /** So `++ - a` is refused, though `- ++ a` is not. */
  lemma BumpMinus(a: Tok)
    requires a.Atom?
    ensures Parse([Op(242), Op(229), a]) == None
    ensures Parse([Op(229), Op(242), a]) == Some(Un(Op(229), Un(Op(242), Leaf(a))))
  {
    hide Parse;
    BumpThenOperator(Op(242), Op(229), [a]);
    assert [Op(242), Op(229)] + [a] == [Op(242), Op(229), a];
    var t := Un(Op(229), Un(Op(242), Leaf(a)));
    assert Flatten(t.a) == [Op(242), a] && WellMade(t.a) && Ordered(t.a);
    assert Flatten(t) == [Op(229), Op(242), a];
    ParseFlatten(t);
  }
}
