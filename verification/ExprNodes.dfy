/** level_exp on the linked node list that it cuts apart and relinks in place, proved against
    ExprParser.Parse. */
module ExprNodes {
  import opened ExprParser

  /** sgs_FTNode */
  class Node {
    var tok: Tok
    /** SGS_SFT_OPER_P: a postfix operator. */
    var post: bool
    var next: Node?
    var child: Node?

    constructor (tok: Tok, next: Node?, child: Node?)
      ensures this.tok == tok && !this.post && this.next == next && this.child == child
    {
      this.tok, this.post, this.next, this.child := tok, false, next, child;
    }
  }

  /** `list` are the nodes from `first` on, to the end. */
  ghost predicate Chain(first: Node?, list: seq<Node>)
    reads set n | n in list :: n`next
    decreases |list|
  {
    if list == [] then first == null
    else
      assert list[0] in list && forall n | n in list[1..] :: n in list;
      first == list[0] && Chain(list[0].next, list[1..])
  }

  ghost predicate Apart(list: seq<Node>) {
    forall i, j | 0 <= i < j < |list| :: list[i] != list[j]
  }

  /** A list of tokens that the tokenizer made: no children yet. */
  ghost predicate Fresh(list: seq<Node>, ts: seq<Tok>)
    reads set n | n in list :: n`tok, set n | n in list :: n`post, set n | n in list :: n`child
  {
    |ts| == |list| && forall i | 0 <= i < |list| ::
        list[i] in list && list[i].tok == ts[i] && !list[i].post && list[i].child == null
  }

  /** The nodes under `n`, all from `S`, are the tree `t`; the right operand hangs behind the left one. */
  ghost predicate IsTree(n: Node?, t: Tree, S: set<Node>)
    reads S
    decreases t
  {
    && n != null && n in S && n.post == t.Post?
    && match t
       case Leaf(tok) => n.tok == tok && n.child == null
       case Un(op, a) => n.tok == op && n.child in S - {n} && IsTree(n.child, a, S - {n}) && n.child.next == null
       case Post(op, a) => n.tok == op && n.child in S - {n} && IsTree(n.child, a, S - {n}) && n.child.next == null
       case Bin(op, l, r) =>
         && n.tok == op && n.child in S - {n} && IsTree(n.child, l, S - {n})
         && n.child.next in S - {n} && IsTree(n.child.next, r, S - {n}) && n.child.next.next == null
  }

  lemma {:induction false} MoreNodes(n: Node?, t: Tree, S: set<Node>, U: set<Node>)
    requires IsTree(n, t, S) && S <= U
    ensures IsTree(n, t, U)
    decreases t
  {
    match t
    case Leaf(_) =>
    case Un(op, a) => MoreNodes(n.child, a, S - {n}, U - {n});
    case Post(op, a) => MoreNodes(n.child, a, S - {n}, U - {n});
    case Bin(op, l, r) =>
      MoreNodes(n.child, l, S - {n}, U - {n});
      MoreNodes(n.child.next, r, S - {n}, U - {n});
  }

  lemma {:induction false} ChainAt(first: Node?, list: seq<Node>, i: nat)
    requires Chain(first, list) && i < |list|
    ensures first == list[0] && list[i].next == (if i + 1 < |list| then list[i + 1] else null)
            && Chain(list[i].next, list[i + 1..])
    decreases i
  {
    if i > 0 {
      ChainAt(list[0].next, list[1..], i - 1);
      assert list[1..][i - 1] == list[i] && list[1..][i..] == list[i + 1..];
    }
  }

  /** The scan for the most powerful part. */
  method FindMpp(tree: Node?, ghost list: seq<Node>, ghost ts: seq<Tok>) returns (mpp: Node?, count: nat, ghost m: int)
    requires Chain(tree, list) && Apart(list) && Fresh(list, ts)
    ensures m == Heaviest(ts, |ts|) && count == |ts| && mpp == (if m < 0 then null else list[m])
  {
    var node: Node?, prev: Node?, weight := tree, null, 0;
    mpp, count, m := null, 0, -1;
    while node != null
      invariant count <= |list| && Chain(node, list[count..])
      invariant prev == (if count == 0 then null else list[count - 1])
      invariant m == Heaviest(ts, count) && mpp == (if m < 0 then null else list[m])
                && weight == (if m < 0 then 0 else WeightAt(ts, m))
      decreases |list| - count
    {
      assert node == list[count] && list[count..][1..] == list[count + 1..];
      assert node.next == null <==> count + 1 == |list|;
      if node.tok.Op? {
        var binary := prev != null && node.next != null;
        if binary { binary := !prev.tok.Op? || IsBump(prev.tok.code); }
        assert binary == BinaryAt(ts, count);
        var curwt := PartWeight(node.tok.code, binary);
        var leftmostsplit := IsAssign(node.tok.code) || !binary;
        if (leftmostsplit && curwt > weight) || (!leftmostsplit && curwt >= weight) {
          weight, mpp, m := curwt, node, count;
        }
      }
      count := count + 1;
      prev := node;
      node := node.next;
    }
  }

  /** Cuts the list in front of `mpp`. */
  method CutBefore(tree: Node, mpp: Node, ghost list: seq<Node>, ghost m: nat, ghost prev: Node)
    requires Chain(tree, list) && Apart(list) && 0 < m < |list| && mpp == list[m] && prev == list[m - 1]
    modifies prev`next
    ensures Chain(tree, list[..m]) && Chain(mpp, list[m..]) && list[m - 1].next == null
  {
    ghost var i := 0;
    var n := tree;
    ChainAll(tree, list);
    ChainAt(tree, list, m - 1);
    while n.next != mpp
      invariant i < m && n == list[i] && n.next == list[i + 1]
      decreases m - i
      modifies {}
    {
      i := i + 1;
      n := n.next;
    }
    assert list[i + 1] == list[m];
    assert forall k | m <= k < |list| :: list[k] != prev;
    n.next := null;
    ChainFront(tree, list, m);
  }

  lemma {:induction false} ChainAll(first: Node?, list: seq<Node>)
    requires Chain(first, list) && list != []
    ensures first == list[0] && forall i | 0 <= i < |list| ::
            list[i].next == if i + 1 < |list| then list[i + 1] else null
  {
    forall i | 0 <= i < |list|
      ensures list[i].next == if i + 1 < |list| then list[i + 1] else null
    {
      ChainAt(first, list, i);
    }
    ChainAt(first, list, 0);
  }

  lemma {:induction false} ChainFront(first: Node?, list: seq<Node>, m: nat)
    requires 0 < m < |list| && list[m - 1].next == null && list[0] == first
    requires forall i | 0 <= i < m - 1 :: list[i].next == list[i + 1]
    ensures Chain(first, list[..m])
    decreases m
  {
    var front := list[..m];
    if m == 1 {
      assert front[1..] == [];
    } else {
      ChainFront(list[1], list[1..], m - 1);
      assert front[1..] == list[1..][..m - 1];
    }
  }

  /** A root gets a right neighbour: its own tree does not notice. */
  method SetNext(n: Node, m: Node?, ghost t: Tree, ghost S: set<Node>)
    requires IsTree(n, t, S)
    modifies n`next
    ensures IsTree(n, t, S) && n.next == m
  {
    n.next := m;
    match t
    case Leaf(_) =>
    case Un(_, _) =>
    case Post(_, _) =>
    case Bin(_, _, _) =>
  }

  /** level_exp: splits at the most powerful part, parses both sides, and joins them under it. */
  method LevelExp(tree: Node?, ghost list: seq<Node>, ghost ts: seq<Tok>) returns (ok: bool, root: Node?,
                  ghost S: set<Node>)
    requires Chain(tree, list) && Apart(list) && Fresh(list, ts)
    modifies list
    ensures ok == Parse(ts).Some?
    ensures ok ==> IsTree(root, Parse(ts).value, S) && root.next == null
    ensures forall n | n in S :: n in list || fresh(n)
    decreases |list|, 1
  {
    ok, root, S := false, null, {};
    if tree == null { return; }
    var mpp, count;
    ghost var m;
    mpp, count, m := FindMpp(tree, list, ts);
    ChainAll(tree, list);
    if mpp != null {
      ChainAt(tree, list, m);
      assert (mpp.next == null <==> m + 1 == |list|) && (mpp == tree <==> m == 0) && mpp.tok == ts[m];
      var prev := null;
      if mpp != tree { prev := FindPrev(tree, mpp, list, m); }
      if mpp != tree && mpp.next != null && (!prev.tok.Op? || IsBump(prev.tok.code)) {
        ok, root, S := SplitBinary(tree, mpp, list, ts, m);
      } else if IsUnary(mpp.tok.code)
          && (mpp == tree || (IsBump(mpp.tok.code) && (mpp != tree) != (mpp.next != null))) {
        if mpp.next != null {
          ok, root, S := SplitUnary(mpp, list, ts);
        } else if mpp != tree {
          ok, root, S := SplitPostfix(tree, mpp, list, ts);
        }
      }
    } else if count <= 1 {
      ok, root, S := true, tree, {tree};
    }
  }

  method FindPrev(tree: Node, mpp: Node, ghost list: seq<Node>, ghost m: nat) returns (prev: Node)
    requires Chain(tree, list) && Apart(list) && 0 < m < |list| && mpp == list[m]
    ensures prev == list[m - 1]
  {
    ChainAll(tree, list);
    prev := tree;
    ghost var i := 0;
    while prev.next != mpp
      invariant i < m && prev == list[i] && prev.next == list[i + 1]
      decreases m - i
    {
      prev := prev.next;
      i := i + 1;
    }
    assert list[i + 1] == list[m];
  }

  /** Both sides of a binary operator, then a new node above them. */
  method SplitBinary(tree: Node, mpp: Node, ghost list: seq<Node>, ghost ts: seq<Tok>,
                     ghost m: nat) returns (ok: bool, root: Node?, ghost S: set<Node>)
    requires Chain(tree, list) && Apart(list) && Fresh(list, ts)
    requires 0 < m < |list| && mpp == list[m] && m == Heaviest(ts, |ts|) && BinaryAt(ts, m)
    modifies list
    ensures ok == Parse(ts).Some?
    ensures ok ==> IsTree(root, Parse(ts).value, S) && root.next == null
    ensures forall n | n in S :: n in list || fresh(n)
    decreases |list|, 0
  {
    hide Parse, Heaviest, BinaryAt, IsTree, IsUnary, Apart, Fresh, Chain;
    ok, root, S := false, null, {};
    Parts(list, ts, m);
    ghost var left, right := list[..m], list[m + 1..];
    var mpptoken := mpp.tok;
    assert forall n | n in left || n in right :: n in list;
    var se2 := Detach(tree, mpp, list, m);
    assert forall n | n in list :: n.tok == old(n.tok) && n.post == old(n.post) && n.child == old(n.child);
    assert Fresh(left, ts[..m]) && Fresh(right, ts[m + 1..]);
    JoinBinary(ts, m);
    var se1;
    ghost var S1, S2;
    ok, se1, se2, S1, S2 := ExpandSides(tree, se2, left, right, ts[..m], ts[m + 1..]);
    if !ok { return; }
    assert forall n | n in S1 + S2 :: n in list || fresh(n);
    assert se1 in S1 + S2;
    root, S := Join(mpptoken, se1, se2, Parse(ts[..m]).value, S1, Parse(ts[m + 1..]).value, S2);
  }

  lemma Parts(list: seq<Node>, ts: seq<Tok>, m: nat)
    requires Apart(list) && Fresh(list, ts) && m < |list|
    ensures |ts| == |list| && list[m].tok == ts[m]
    ensures list[m].post == false && forall n | n in list[..m] :: n != list[m]
    ensures Apart(list[..m]) && Fresh(list[..m], ts[..m])
    ensures Apart(list[m + 1..]) && Fresh(list[m + 1..], ts[m + 1..])
    ensures forall n | n in list[..m] :: n in list
    ensures forall n | n in list[m + 1..] :: n in list && n !in list[..m] && n != list[m]
  {
  }

  /** Both sides of the cut, the left one first. */
  method ExpandSides(tree: Node?, right: Node?, ghost before: seq<Node>, ghost after: seq<Node>, ghost ts: seq<Tok>,
                     ghost us: seq<Tok>)
    returns (ok: bool, se1: Node?, se2: Node?, ghost S1: set<Node>, ghost S2: set<Node>)
    requires Chain(tree, before) && Apart(before) && Fresh(before, ts)
    requires Chain(right, after) && Apart(after) && Fresh(after, us)
    requires forall n | n in after :: n !in before
    modifies before, after
    ensures ok == (Parse(ts).Some? && Parse(us).Some?)
    ensures ok ==> IsTree(se1, Parse(ts).value, S1) && IsTree(se2, Parse(us).value, S2) && se2.next == null && S1 !! S2
    ensures ok ==> se1 != null && se2 != null && se1 in S1
    ensures ok ==> forall n | n in S1 + S2 :: n in before || n in after || fresh(n)
    decreases |before| + |after|, 2
  {
    hide Parse;
    se2, S2 := null, {};
    ok, se1, S1 := LevelExp(tree, before, ts);
    if !ok { return; }
    assert forall n | n in S1 :: n !in after;
    assert forall n | n in after ::
           n.next == old(n.next) && n.tok == old(n.tok) && n.post == old(n.post) && n.child == old(n.child);
    assert Chain(right, after) && Fresh(after, us);
    ok, se2, S2 := LevelExp(right, after, us);
  }

  /** Takes `mpp` out of the list, leaving a list before it and one behind. */
  method Detach(tree: Node, mpp: Node, ghost list: seq<Node>, ghost m: nat) returns (se2: Node?)
    requires Chain(tree, list) && Apart(list) && 0 < m < |list| && mpp == list[m]
    modifies set n | n in list :: n`next
    ensures Chain(tree, list[..m]) && Chain(se2, list[m + 1..])
  {
    ChainAt(tree, list, m);
    se2 := mpp.next;
    assert list[m - 1] in list;
    CutBefore(tree, mpp, list, m, list[m - 1]);
    ChainAt(mpp, list[m..], 0);
    assert list[m..][1..] == list[m + 1..];
    assert mpp in list && mpp !in list[..m] && mpp !in list[m + 1..];
    mpp.next := null;
  }

  /** A new operator node above two trees. */
  method Join(op: Tok, se1: Node, se2: Node, ghost l: Tree, ghost S1: set<Node>, ghost r: Tree, ghost S2: set<Node>)
    returns (root: Node, ghost S: set<Node>)
    requires IsTree(se1, l, S1) && IsTree(se2, r, S2) && S1 !! S2 && se2.next == null
    modifies se1`next
    ensures fresh(root) && S == S1 + S2 + {root} && IsTree(root, Bin(op, l, r), S) && root.next == null
  {
    SetNext(se1, se2, l, S1);
    root := new Node(op, null, se1);
    S := S1 + S2 + {root};
    MoreNodes(se1, l, S1, S - {root});
    MoreNodes(se2, r, S2, S - {root});
  }

  /** The operand of a prefix operator becomes its child. */
  method SplitUnary(mpp: Node, ghost list: seq<Node>, ghost ts: seq<Tok>) returns (ok: bool, root: Node?,
                    ghost S: set<Node>)
    requires Chain(mpp, list) && Apart(list) && Fresh(list, ts)
    requires |list| > 1 && mpp == list[0] && Heaviest(ts, |ts|) == 0 && IsUnary(ts[0].code)
    modifies list
    ensures ok == Parse(ts).Some?
    ensures ok ==> IsTree(root, Parse(ts).value, S) && root.next == null
    ensures forall n | n in S :: n in list || fresh(n)
    decreases |list|, 0
  {
    hide Parse, Heaviest, IsUnary, Apart, Fresh, Chain, IsTree;
    root, S := null, {};
    ghost var rest := list[1..];
    Parts(list, ts, 0);
    ChainAt(mpp, list, 0);
    JoinUnary(ts);
    assert rest == list[0 + 1..];
    assert forall n | n in rest :: n in list;
    assert forall n | n in rest :: n != mpp;
    assert Chain(mpp.next, rest) && Fresh(rest, ts[1..]);
    mpp.child := mpp.next;
    mpp.next := null;
    assert forall n | n in rest ::
           n.next == old(n.next) && n.tok == old(n.tok) && n.post == old(n.post) && n.child == old(n.child);
    assert Chain(mpp.child, rest) && Fresh(rest, ts[1..]);
    var a;
    ok, a, S := LevelExp(mpp.child, rest, ts[1..]);
    if !ok { return; }
    S := TakeOperand(mpp, a, Parse(ts[1..]).value, S);
    root := mpp;
  }

  /** A prefix or postfix operator above a tree. */
  method TakeOperand(op: Node, a: Node?, ghost t: Tree, ghost S1: set<Node>) returns (ghost S: set<Node>)
    requires IsTree(a, t, S1) && a.next == null && op !in S1
    modifies op`child
    ensures S == S1 + {op} && IsTree(op, if op.post then Post(op.tok, t) else Un(op.tok, t), S)
  {
    op.child := a;
    S := S1 + {op};
    assert S - {op} == S1;
  }

  /** What stands in front of a postfix operator becomes its child. */
  method SplitPostfix(tree: Node, mpp: Node, ghost list: seq<Node>, ghost ts: seq<Tok>)
    returns (ok: bool, root: Node?, ghost S: set<Node>)
    requires Chain(tree, list) && Apart(list) && Fresh(list, ts)
    requires |list| > 1 && mpp == list[|list| - 1] && Heaviest(ts, |ts|) == |ts| - 1 && Bump(ts[|ts| - 1])
    modifies list
    ensures ok == Parse(ts).Some?
    ensures ok ==> IsTree(root, Parse(ts).value, S) && root.next == null
    ensures forall n | n in S :: n in list || fresh(n)
    decreases |list|, 0
  {
    hide Parse, Heaviest, Bump, Apart, Fresh, Chain, IsTree;
    root, S := null, {};
    ghost var m := |list| - 1;
    Parts(list, ts, m);
    JoinPost(ts);
    PostfixOver(tree, mpp, list, ts);
    assert forall n | n in list[..m] :: n in list && n != mpp;
    var a;
    ok, a, S := LevelExp(mpp.child, list[..m], ts[..m]);
    if !ok { return; }
    S := TakeOperand(mpp, a, Parse(ts[..m]).value, S);
    root := mpp;
  }

  /** Cuts the list in front of its last node, which takes what is left as its child. */
  method PostfixOver(tree: Node, mpp: Node, ghost list: seq<Node>, ghost ts: seq<Tok>)
    requires Chain(tree, list) && Apart(list) && Fresh(list, ts) && |list| > 1 && mpp == list[|list| - 1]
    modifies list
    ensures |ts| == |list| && mpp.tok == ts[|list| - 1] && mpp.child == tree && mpp.post && mpp.next == null
            && mpp !in list[..|list| - 1]
    ensures var m := |list| - 1; Chain(mpp.child, list[..m]) && Apart(list[..m]) && Fresh(list[..m], ts[..m])
    ensures forall n | n in list[..|list| - 1] :: n in list
  {
    hide Apart, Fresh, Chain;
    ghost var m := |list| - 1;
    ghost var front := list[..m];
    Parts(list, ts, m);
    ChainAt(tree, list, m);
    assert list[m - 1] in list && mpp in list && list[m - 1] in front && mpp !in front;
    CutBefore(tree, mpp, list, m, list[m - 1]);
    label L:
    mpp.child := tree;
    mpp.post := true;
    assert forall n | n in front ::
           n.next == old@L(n.next) && n.tok == old(n.tok) && n.post == old(n.post) && n.child == old(n.child);
    assert Chain(tree, front) && Fresh(front, ts[..m]);
  }
}
