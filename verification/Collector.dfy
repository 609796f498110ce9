/** Objects, reference counts and the cycle collector.  An object's type-specific `gcmark`
    and `destruct` are modelled as visiting and releasing each of its outgoing references
    once, the meta-object last; the variables that the collector starts from (stacks, frames,
    globals, registry) are one list of roots. */
module Collector {

  /** sgs_VarObj */
  class VarObj {
    var refcount: int
    var redblue: bool
    var refs: seq<VarObj>

    constructor (color: bool)
      ensures refcount == 1 && redblue == color && refs == []
    {
      refcount, redblue, refs := 1, color, [];
    }
  }

  /* ---- heaps as values ---- */

  datatype Data = Data(refcount: int, color: bool, refs: seq<VarObj>)

  type Heap = map<VarObj, Data>

  predicate Distinct(os: seq<VarObj>) {
    forall i, j | 0 <= i < j < |os| :: os[i] != os[j]
  }

  predicate Within(os: seq<VarObj>, H: Heap) {
    forall o | o in os :: o in H
  }

  /** All references out of some objects. */
  function RefsOf(H: Heap, os: seq<VarObj>): multiset<VarObj>
    requires Within(os, H)
  {
    if os == [] then multiset{} else multiset(H[os[0]].refs) + RefsOf(H, os[1..])
  }

  /** References to `o` from roots and objects. */
  function Incoming(H: Heap, os: seq<VarObj>, roots: seq<VarObj>, o: VarObj): nat
    requires Within(os, H)
  {
    multiset(roots)[o] + RefsOf(H, os)[o]
  }

  /** References only lead to listed objects. */
  ghost predicate ClosedHeap(H: Heap, os: seq<VarObj>, roots: seq<VarObj>) {
    && (forall o | o in H :: o in os) && Within(os, H) && Distinct(os)
    && (forall r | r in roots :: r in os)
    && forall o, r | o in os && r in H[o].refs :: r in os
  }

  /** Reference counts equal incoming references; `extra` has that many more. */
  ghost predicate Counts(H: Heap, os: seq<VarObj>, roots: seq<VarObj>, extra: multiset<VarObj>)
    requires Within(os, H)
  {
    forall o | o in os :: H[o].refcount == Incoming(H, os, roots, o) + extra[o]
  }

  /* ---- reachability ---- */

  function ReachN(H: Heap, roots: seq<VarObj>, n: nat): set<VarObj> {
    if n == 0 then set r | r in roots
    else
      var s := ReachN(H, roots, n - 1);
      s + Next(H, s)
  }

  function Next(H: Heap, s: set<VarObj>): set<VarObj> {
    set o, r | o in s && o in H && r in H[o].refs :: r
  }

  /** Some chain of references leads from a root to `o`. */
  ghost predicate Reachable(H: Heap, roots: seq<VarObj>, o: VarObj) {
    exists n: nat :: o in ReachN(H, roots, n)
  }

  lemma ReachRoot(H: Heap, roots: seq<VarObj>, r: VarObj)
    requires r in roots
    ensures Reachable(H, roots, r)
  {
    assert r in ReachN(H, roots, 0);
  }

  lemma ReachStep(H: Heap, roots: seq<VarObj>, o: VarObj, r: VarObj)
    requires Reachable(H, roots, o) && o in H && r in H[o].refs
    ensures Reachable(H, roots, r)
  {
    var n: nat :| o in ReachN(H, roots, n);
    assert r in ReachN(H, roots, n + 1);
  }

  /** A set that contains the roots and is closed contains everything reachable. */
  lemma {:induction false} ReachInside(H: Heap, roots: seq<VarObj>, M: set<VarObj>, n: nat)
    requires forall r | r in roots :: r in M
    requires forall o, r | o in M && o in H && r in H[o].refs :: r in M
    ensures ReachN(H, roots, n) <= M
    decreases n
  {
    if n > 0 { ReachInside(H, roots, M, n - 1); }
  }

  /** Only references matter. */
  predicate SameRefs(H: Heap, K: Heap) {
    H.Keys == K.Keys && forall o | o in H :: H[o].refs == K[o].refs
  }

  lemma {:induction false} ReachSame(H: Heap, K: Heap, roots: seq<VarObj>, n: nat)
    requires SameRefs(H, K)
    ensures ReachN(H, roots, n) == ReachN(K, roots, n)
    decreases n
  {
    hide Next;
    if n > 0 {
      ReachSame(H, K, roots, n - 1);
      NextSame(H, K, ReachN(H, roots, n - 1));
    }
  }

  lemma NextSame(H: Heap, K: Heap, s: set<VarObj>)
    requires SameRefs(H, K)
    ensures Next(H, s) == Next(K, s)
  {
    forall r ensures r in Next(H, s) <==> r in Next(K, s) {
      if r in Next(H, s) {
        var o :| o in s && o in H && r in H[o].refs;
        assert o in K && r in K[o].refs;
      }
      if r in Next(K, s) {
        var o :| o in s && o in K && r in K[o].refs;
        assert o in H && r in H[o].refs;
      }
    }
  }

  /* ---- counting references ---- */

  lemma {:induction false} RefsUnchanged(H: Heap, K: Heap, os: seq<VarObj>)
    requires Within(os, H) && Within(os, K) && forall o | o in os :: H[o].refs == K[o].refs
    ensures RefsOf(H, os) == RefsOf(K, os)
    decreases |os|
  {
    if os != [] { RefsUnchanged(H, K, os[1..]); }
  }

  /** Changing one object's references changes the total by just that. */
  lemma {:induction false} RefsChanged(H: Heap, os: seq<VarObj>, o: VarObj, d: Data)
    requires Within(os, H) && Distinct(os) && o in os
    ensures RefsOf(H[o := d], os) + multiset(H[o].refs) == RefsOf(H, os) + multiset(d.refs)
    decreases |os|
  {
    if os[0] == o {
      assert o !in os[1..];
      RefsUnchanged(H, H[o := d], os[1..]);
    } else {
      RefsChanged(H, os[1..], o, d);
      var K, rest, first, was, now := H[o := d], os[1..], multiset(H[os[0]].refs), multiset(H[o].refs),
          multiset(d.refs);
      assert RefsOf(K, os) == first + RefsOf(K, rest) && RefsOf(H, os) == first + RefsOf(H, rest);
      assert (first + RefsOf(K, rest)) + was == first + (RefsOf(K, rest) + was);
      assert first + (RefsOf(H, rest) + now) == (first + RefsOf(H, rest)) + now;
    }
  }

  /** An object without references contributes none. */
  lemma {:induction false} RefsRemoved(H: Heap, K: Heap, os: seq<VarObj>, i: nat)
    requires Within(os, H) && i < |os| && H[os[i]].refs == []
    requires Within(os[..i] + os[i + 1..], K) && forall o | o in os[..i] + os[i + 1..] :: H[o].refs == K[o].refs
    ensures RefsOf(H, os) == RefsOf(K, os[..i] + os[i + 1..])
    decreases i
  {
    var rest := os[..i] + os[i + 1..];
    if i == 0 {
      assert rest == os[1..];
      RefsUnchanged(H, K, os[1..]);
    } else {
      assert rest[1..] == os[1..][..i - 1] + os[1..][i..] && rest[0] == os[0];
      RefsRemoved(H, K, os[1..], i - 1);
    }
  }

  lemma {:induction false} RefsMember(H: Heap, os: seq<VarObj>, o: VarObj, r: VarObj)
    requires Within(os, H) && o in os && r in H[o].refs
    ensures r in RefsOf(H, os)
    decreases |os|
  {
    if os[0] != o { RefsMember(H, os[1..], o, r); }
  }

  /** How many references there are in all: what a cascade uses up. */
  function Total(H: Heap, os: seq<VarObj>): nat
    requires Within(os, H)
  {
    |RefsOf(H, os)|
  }

  /** The objects of a list that belong to a set, in their order. */
  function Filter(os: seq<VarObj>, M: set<VarObj>): (r: seq<VarObj>)
    ensures forall o | o in r :: o in os && o in M
    ensures forall o | o in os && o in M :: o in r
  {
    if os == [] then [] else (if os[0] in M then [os[0]] else []) + Filter(os[1..], M)
  }

  /* ---- single steps on counts ---- */

  lemma RefsDelta(H: Heap, os: seq<VarObj>, o: VarObj, d: Data, x: VarObj)
    requires Within(os, H) && Distinct(os) && o in os
    ensures RefsOf(H[o := d], os)[x] + multiset(H[o].refs)[x] == RefsOf(H, os)[x] + multiset(d.refs)[x]
    ensures Total(H[o := d], os) + |H[o].refs| == Total(H, os) + |d.refs|
  {
    RefsChanged(H, os, o, d);
    var was, now := multiset(H[o].refs), multiset(d.refs);
    var a, b := RefsOf(H, os), RefsOf(H[o := d], os);
    assert (b + was)[x] == (a + now)[x];
    assert |b + was| == |a + now|;
  }

  /** A reference goes; until its target is counted down, that has one count too many. */
  lemma DropStep(H: Heap, os: seq<VarObj>, roots: seq<VarObj>, extra: multiset<VarObj>, o: VarObj, refs: seq<VarObj>,
                 r: VarObj)
    requires ClosedHeap(H, os, roots) && Counts(H, os, roots, extra) && o in os
             && multiset(H[o].refs) == multiset(refs) + multiset{r}
    ensures var K := H[o := H[o].(refs := refs)];
            ClosedHeap(K, os, roots) && Counts(K, os, roots, extra + multiset{r}) && Total(K, os) == Total(H, os) - 1
  {
    hide RefsOf;
    var d, was := H[o].(refs := refs), multiset(H[o].refs);
    var K := H[o := d];
    assert |was| == |multiset(refs)| + 1;
    forall x | x in os ensures K[x].refcount == Incoming(K, os, roots, x) + (extra + multiset{r})[x] {
      RefsDelta(H, os, o, d, x);
      assert was[x] == multiset(refs)[x] + multiset{r}[x];
    }
    RefsDelta(H, os, o, d, o);
    forall x | x in refs ensures x in H[o].refs { assert x in multiset(refs) && x in was; }
  }

  lemma AddStep(H: Heap, os: seq<VarObj>, roots: seq<VarObj>, o: VarObj, r: VarObj)
    requires ClosedHeap(H, os, roots) && Counts(H, os, roots, multiset{r}) && o in os && r in os
    ensures var K := H[o := H[o].(refs := H[o].refs + [r])];
            ClosedHeap(K, os, roots) && Counts(K, os, roots, multiset{})
  {
    hide RefsOf;
    var d := H[o].(refs := H[o].refs + [r]);
    var K := H[o := d];
    forall x | x in os ensures K[x].refcount == Incoming(K, os, roots, x) {
      RefsDelta(H, os, o, d, x);
      assert multiset(d.refs)[x] == multiset(H[o].refs)[x] + multiset{r}[x];
    }
  }

  lemma CountStep(H: Heap, os: seq<VarObj>, roots: seq<VarObj>, extra: multiset<VarObj>, extra': multiset<VarObj>,
                  r: VarObj, n: int)
    requires ClosedHeap(H, os, roots) && Counts(H, os, roots, extra) && r in os
    requires forall x | x in os :: extra'[x] == extra[x] + if x == r then n else 0
    ensures var K := H[r := H[r].(refcount := H[r].refcount + n)];
            ClosedHeap(K, os, roots) && Counts(K, os, roots, extra') && Total(K, os) == Total(H, os)
  {
    RefsUnchanged(H, H[r := H[r].(refcount := H[r].refcount + n)], os);
  }

  /** An object without references, to which nothing leads, leaves the list. */
  lemma FreeStep(H: Heap, os: seq<VarObj>, roots: seq<VarObj>, i: nat, K: Heap)
    requires ClosedHeap(H, os, roots) && Counts(H, os, roots, multiset{}) && i < |os| && H[os[i]].refs == []
    requires os[i] !in roots && forall o | o in os :: os[i] !in H[o].refs
    requires K == map o | o in os[..i] + os[i + 1..] :: H[o]
    ensures var rest := os[..i] + os[i + 1..];
            ClosedHeap(K, rest, roots) && Counts(K, rest, roots, multiset{}) && Total(K, rest) == Total(H, os)
  {
    hide RefsOf;
    RestOf(os, i);
    RefsRemoved(H, K, os, i);
  }

  lemma RestOf(os: seq<VarObj>, i: nat)
    requires i < |os| && Distinct(os)
    ensures var rest := os[..i] + os[i + 1..]; Distinct(rest) && forall o :: o in rest <==> o in os && o != os[i]
  {
    var rest := os[..i] + os[i + 1..];
    assert forall j | 0 <= j < |rest| :: rest[j] == if j < i then os[j] else os[j + 1];
    forall o | o in os && o != os[i] ensures o in rest {
      var j :| 0 <= j < |os| && os[j] == o;
      assert rest[if j < i then j else j - 1] == o;
    }
  }

  /** Nothing leads to an object whose count is zero. */
  lemma Unreferenced(H: Heap, os: seq<VarObj>, roots: seq<VarObj>, o: VarObj)
    requires ClosedHeap(H, os, roots) && Counts(H, os, roots, multiset{}) && o in os && H[o].refcount <= 0
    ensures o !in roots && forall x | x in os :: o !in H[x].refs
  {
    assert o in roots ==> o in multiset(roots);
    forall x | x in os ensures o !in H[x].refs {
      if o in H[x].refs { RefsMember(H, os, x, o); }
    }
  }

  /* ---- what releasing never touches ---- */

  /** A set that holds the roots, is closed under references, and in which every member is a
      root or referenced from the set: the reachable objects, also with unreachable cycles. */
  ghost predicate Kept(H: Heap, roots: seq<VarObj>, L: set<VarObj>) {
    && (forall r | r in roots :: r in L)
    && (forall o | o in L :: o in H && forall r | r in H[o].refs :: r in L)
    && (forall o | o in L :: o in roots || exists m | m in L :: m in H && o in H[m].refs)
  }

  lemma ReachableKept(H: Heap, os: seq<VarObj>, roots: seq<VarObj>, L: set<VarObj>)
    requires ClosedHeap(H, os, roots) && L == set o | o in os && Reachable(H, roots, o)
    ensures Kept(H, roots, L)
  {
    forall r | r in roots ensures r in L { ReachRoot(H, roots, r); }
    forall o, r | o in L && r in H[o].refs ensures r in L { ReachStep(H, roots, o, r); }
    forall o | o in L ensures o in roots || exists m | m in L :: m in H && o in H[m].refs {
      var n: nat :| o in ReachN(H, roots, n);
      ReachSupport(H, os, roots, L, o, n);
    }
  }

  lemma {:induction false} ReachSupport(H: Heap, os: seq<VarObj>, roots: seq<VarObj>, L: set<VarObj>, o: VarObj, n: nat)
    requires ClosedHeap(H, os, roots) && L == set x | x in os && Reachable(H, roots, x)
    requires o in ReachN(H, roots, n)
    ensures o in roots || exists m | m in L :: m in H && o in H[m].refs
    decreases n
  {
    if n > 0 {
      var s := ReachN(H, roots, n - 1);
      if o in s { ReachSupport(H, os, roots, L, o, n - 1); }
      else {
        var m :| m in s && m in H && o in H[m].refs;
        assert Reachable(H, roots, m);
      }
    }
  }

  /** A member of a kept set has a count. */
  lemma KeptCounted(H: Heap, os: seq<VarObj>, roots: seq<VarObj>, L: set<VarObj>, o: VarObj)
    requires ClosedHeap(H, os, roots) && Counts(H, os, roots, multiset{}) && Kept(H, roots, L) && o in L
    ensures H[o].refcount > 0
  {
    if H[o].refcount <= 0 {
      Unreferenced(H, os, roots, o);
    }
  }

  lemma KeptSame(H: Heap, K: Heap, roots: seq<VarObj>, L: set<VarObj>)
    requires Kept(H, roots, L) && forall o | o in L :: o in K && H[o].refs == K[o].refs
    ensures Kept(K, roots, L)
  {
    forall o | o in L ensures o in roots || exists m | m in L :: m in K && o in K[m].refs {
      if o !in roots { var m :| m in L && m in H && o in H[m].refs; assert o in K[m].refs; }
    }
  }

  /** What a release of `x` leaves alone: the colours, a kept set, the references of every other
      object that stays, and every other object whose destruction is already under way; and no
      other object is left without a count. */
  ghost predicate Spared(H: Heap, K: Heap, L: set<VarObj>, x: VarObj) {
    && (forall o | o in K :: o in H && K[o].color == H[o].color && (o != x ==> K[o].refs == H[o].refs))
    && (forall o | o in L :: o in H && o in K && K[o].refs == H[o].refs)
    && (forall d | d in H && d != x && H[d].refcount <= 0 :: d in K && K[d].refcount == H[d].refcount)
    && (forall d | d in K && d != x && K[d].refcount <= 0 :: H[d].refcount <= 0)
  }

  lemma SparedNone(H: Heap, roots: seq<VarObj>, L: set<VarObj>, x: VarObj)
    requires Kept(H, roots, L)
    ensures Spared(H, H, L, x)
  {
  }

  lemma SparedThen(H: Heap, K: Heap, J: Heap, L: set<VarObj>, x: VarObj)
    requires Spared(H, K, L, x) && Spared(K, J, L, x)
    ensures Spared(H, J, L, x)
  {
  }

  lemma SparedCount(H: Heap, roots: seq<VarObj>, L: set<VarObj>, x: VarObj)
    requires Kept(H, roots, L) && x in H
    ensures Spared(H, H[x := H[x].(refcount := H[x].refcount - 1)], L, x)
  {
  }

  lemma SparedRefs(H: Heap, roots: seq<VarObj>, L: set<VarObj>, o: VarObj, refs: seq<VarObj>)
    requires Kept(H, roots, L) && o in H && o !in L
    ensures Spared(H, H[o := H[o].(refs := refs)], L, o)
  {
  }

  /** Taking an unreferenced object off the list. */
  lemma FreedSound(H: Heap, os: seq<VarObj>, K: Heap, rest: seq<VarObj>, roots: seq<VarObj>, L: set<VarObj>, o: VarObj)
    requires ClosedHeap(H, os, roots) && Counts(H, os, roots, multiset{}) && o in os && H[o].refs == []
    requires o !in roots && forall x | x in os :: o !in H[x].refs
    requires exists i :: 0 <= i < |os| && os[i] == o && rest == os[..i] + os[i + 1..]
    requires K == map x | x in rest :: H[x]
    ensures ClosedHeap(K, rest, roots) && Counts(K, rest, roots, multiset{}) && Total(K, rest) == Total(H, os)
    ensures |rest| == |os| - 1 && o !in rest && forall x | x in os && x != o :: x in K && K[x] == H[x]
  {
    hide ClosedHeap, Counts, Total;
    var i :| 0 <= i < |os| && os[i] == o && rest == os[..i] + os[i + 1..];
    DistinctList(H, os, roots);
    RestOf(os, i);
    FreeStep(H, os, roots, i, K);
  }

  lemma RestKeys(H: Heap, os: seq<VarObj>, roots: seq<VarObj>, rest: seq<VarObj>, o: VarObj)
    requires ClosedHeap(H, os, roots) && exists i :: 0 <= i < |os| && os[i] == o && rest == os[..i] + os[i + 1..]
    ensures forall x :: x in rest <==> x in os && x != o
  {
    var i :| 0 <= i < |os| && os[i] == o && rest == os[..i] + os[i + 1..];
    RestOf(os, i);
  }

  lemma SparedFreed(H: Heap, K: Heap, os: seq<VarObj>, J: Heap, roots: seq<VarObj>, L: set<VarObj>, o: VarObj)
    requires Spared(H, K, L, o) && Kept(K, roots, L) && o !in L && ClosedHeap(K, os, roots)
    requires (forall x | x in os && x != o :: x in J && J[x] == K[x]) && forall x | x in J :: x in os && x != o
    ensures Spared(H, J, L, o) && Kept(J, roots, L)
  {
    KeptSame(K, J, roots, L);
  }

  lemma DistinctList(H: Heap, os: seq<VarObj>, roots: seq<VarObj>)
    requires ClosedHeap(H, os, roots)
    ensures Distinct(os) && Within(os, H)
  {
  }

  lemma SparedKeys(H: Heap, K: Heap, L: set<VarObj>, x: VarObj)
    requires Spared(H, K, L, x)
    ensures K.Keys <= H.Keys
  {
  }

  /** After one reference of `o` is gone and its target released. */
  lemma SparedLast(H: Heap, K: Heap, J: Heap, L: set<VarObj>, o: VarObj, r: VarObj)
    requires Spared(H, K, L, o) && Spared(K, J, L, r) && (r in J ==> J[r].refcount > 0 && J[r].refs == K[r].refs)
    requires o in H && H[o].refcount <= 0 && o in K && K[o].refcount == H[o].refcount && r in H && H[r].refcount > 0
    ensures Spared(H, J, L, o) && o in J && J[o].refcount == H[o].refcount
  {
  }

  lemma ListedKeys(H: Heap, os: seq<VarObj>, roots: seq<VarObj>)
    requires ClosedHeap(H, os, roots)
    ensures forall o :: o in H <==> o in os
  {
  }

  lemma KeptStep(H: Heap, roots: seq<VarObj>, L: set<VarObj>, o: VarObj, d: Data)
    requires Kept(H, roots, L) && o in H && (o in L ==> d.refs == H[o].refs)
    ensures Kept(H[o := d], roots, L)
  {
    KeptSame(H, H[o := d], roots, L);
  }

  /** What an object refers to has a count. */
  lemma Referenced(H: Heap, os: seq<VarObj>, roots: seq<VarObj>, o: VarObj, r: VarObj)
    requires ClosedHeap(H, os, roots) && Counts(H, os, roots, multiset{}) && o in os && r in H[o].refs
    ensures r in H && r in os && H[r].refcount > 0
  {
    if H[r].refcount <= 0 { Unreferenced(H, os, roots, r); }
  }

  /* ---- marking, in terms of the objects that are still to be marked ---- */

  /** Objects marked by now: all reachable, none leading to an unmarked one. */
  ghost predicate Done(H: Heap, roots: seq<VarObj>, marked: set<VarObj>, white: set<VarObj>) {
    forall x | x in marked :: x in H && Reachable(H, roots, x) && forall r | r in H[x].refs :: r !in white
  }

  lemma DoneThen(H: Heap, roots: seq<VarObj>, o: VarObj, W0: set<VarObj>, W1: set<VarObj>, W2: set<VarObj>)
    requires W2 <= W1 <= W0 - {o} && Done(H, roots, W0 - W1 - {o}, W1) && Done(H, roots, W1 - W2, W2)
    ensures Done(H, roots, W0 - W2 - {o}, W2)
  {
    hide Reachable;
    forall x | x in W0 - W2 - {o} ensures x in H && Reachable(H, roots, x) && forall r | r in H[x].refs :: r !in W2 {
      assert x in W0 - W1 - {o} || x in W1 - W2;
    }
  }

  lemma DoneNone(H: Heap, roots: seq<VarObj>, marked: set<VarObj>, W: set<VarObj>)
    requires marked == {}
    ensures Done(H, roots, marked, W)
  {
  }

  lemma DoneLast(H: Heap, roots: seq<VarObj>, o: VarObj, W0: set<VarObj>, W: set<VarObj>)
    requires Done(H, roots, W0 - W - {o}, W) && o in H && Reachable(H, roots, o)
    requires forall j | 0 <= j < |H[o].refs| :: H[o].refs[j] !in W
    ensures Done(H, roots, W0 - W, W)
  {
    hide Reachable;
  }

  lemma RefsListed(H: Heap, os: seq<VarObj>, roots: seq<VarObj>, o: VarObj)
    requires ClosedHeap(H, os, roots) && o in os
    ensures o in H && forall r | r in H[o].refs :: r in os
  {
  }

  datatype Event = Destructed(o: VarObj) | Freed(o: VarObj)

  function Destructs(os: seq<VarObj>): seq<Event> {
    seq(|os|, i requires 0 <= i < |os| => Destructed(os[i]))
  }

  function Frees(os: seq<VarObj>): seq<Event> {
    seq(|os|, i requires 0 <= i < |os| => Freed(os[i]))
  }

  lemma DestructsLast(os: seq<VarObj>, o: VarObj)
    ensures Destructs(os + [o]) == Destructs(os) + [Destructed(o)] && Frees(os + [o]) == Frees(os) + [Freed(o)]
  {
  }

  function AllOf(os: seq<VarObj>): set<VarObj> {
    set o | o in os
  }

  lemma {:induction false} FilterLast(os: seq<VarObj>, o: VarObj, M: set<VarObj>)
    ensures Filter(os + [o], M) == Filter(os, M) + (if o in M then [o] else [])
    decreases |os|
  {
    hide Filter;
    FilterNone(M);
    if os == [] {
      assert os + [o] == [o] && [o][1..] == [];
      FilterHead([o], M);
    } else {
      assert (os + [o])[1..] == os[1..] + [o] && (os + [o])[0] == os[0];
      FilterLast(os[1..], o, M);
      var h, last: seq<VarObj> := if os[0] in M then [os[0]] else [], if o in M then [o] else [];
      var t := Filter(os[1..], M);
      FilterHead(os + [o], M);
      FilterHead(os, M);
      assert h + (t + last) == (h + t) + last;
    }
  }

  lemma SweepNone(os: seq<VarObj>, G: set<VarObj>)
    ensures Destructs(Filter(os[..0], G)) == [] && Frees(Filter(os[..0], G)) == []
  {
  }

  /** One more object of the list. */
  lemma SweepOne(os: seq<VarObj>, k: nat, G: set<VarObj>)
    requires k < |os|
    ensures os[..k + 1] == os[..k] + [os[k]]
    ensures var a, b := Filter(os[..k], G), Filter(os[..k + 1], G);
            if os[k] in G then
              b == a + [os[k]] && Destructs(b) == Destructs(a) + [Destructed(os[k])]
                  && Frees(b) == Frees(a) + [Freed(os[k])]
            else b == a
  {
    assert os[..k + 1] == os[..k] + [os[k]];
    FilterLast(os[..k], os[k], G);
    DestructsLast(Filter(os[..k], G), os[k]);
  }

  lemma SweepTrace(os: seq<VarObj>, k: nat, G: set<VarObj>)
    requires k < |os|
    ensures Frees(Filter(os[..k + 1], G)) == Frees(Filter(os[..k], G)) + (if os[k] in G then [Freed(os[k])] else [])
  {
    SweepOne(os, k, G);
  }

  /** The list in the middle of the second pass, and how its next object is kept or unlinked. */
  lemma SweepList(os: seq<VarObj>, k: nat, M: set<VarObj>)
    requires k < |os|
    ensures var done, next := Filter(os[..k], M), Filter(os[..k + 1], M);
            var list := done + os[k..];
            && |list| > |done| && list[|done|] == os[k]
            && if os[k] in M then |next| == |done| + 1 && list == next + os[k + 1..]
               else |next| == |done| && list[..|done|] + list[|done| + 1..] == next + os[k + 1..]
  {
    SweepOne(os, k, M);
  }

  lemma FilterEmpty(os: seq<VarObj>, M: set<VarObj>)
    ensures Filter(os[..0], M) == []
  {
  }

  /** Colours have nothing to do with counts. */
  lemma SoundColors(H: Heap, K: Heap, os: seq<VarObj>, roots: seq<VarObj>)
    requires ClosedHeap(H, os, roots) && Counts(H, os, roots, multiset{}) && H.Keys == K.Keys
    requires forall o | o in H :: K[o].refs == H[o].refs && K[o].refcount == H[o].refcount
    ensures ClosedHeap(K, os, roots) && Counts(K, os, roots, multiset{})
  {
    RefsUnchanged(H, K, os);
  }

  lemma LiveClosed(H: Heap, os: seq<VarObj>, roots: seq<VarObj>, M: set<VarObj>)
    requires ClosedHeap(H, os, roots) && M == set o | o in os && Reachable(H, roots, o)
    ensures (forall r | r in roots :: r in M) && forall o, r | o in M && r in H[o].refs :: r in M
  {
    hide Reachable;
    forall r | r in roots ensures r in M { ReachRoot(H, roots, r); }
    forall o, r | o in M && r in H[o].refs ensures r in M { ReachStep(H, roots, o, r); }
  }

  lemma CreateStep(H: Heap, os: seq<VarObj>, roots: seq<VarObj>, o: VarObj, d: Data)
    requires ClosedHeap(H, os, roots) && Counts(H, os, roots, multiset{}) && o !in os && d.refcount == 1 && d.refs == []
    ensures ClosedHeap(H[o := d], [o] + os, roots + [o]) && Counts(H[o := d], [o] + os, roots + [o], multiset{})
  {
    hide RefsOf;
    var K, all := H[o := d], [o] + os;
    assert all[1..] == os && all[0] == o;
    RefsHead(K, all);
    RefsUnchanged(H, K, os);
    assert RefsOf(K, all) == RefsOf(H, os);
    forall x | x in all ensures K[x].refcount == Incoming(K, all, roots + [o], x) {
      assert multiset(roots + [o])[x] == multiset(roots)[x] + multiset{o}[x];
      if x == o { NotReferenced(H, os, roots, o); }
    }
  }

  lemma RefsHead(H: Heap, os: seq<VarObj>)
    requires Within(os, H) && os != []
    ensures RefsOf(H, os) == multiset(H[os[0]].refs) + RefsOf(H, os[1..])
  {
  }

  /** Nothing refers to what is not on the list. */
  lemma {:induction false} NotIn(H: Heap, os: seq<VarObj>, o: VarObj)
    requires Within(os, H) && forall x | x in os :: o !in H[x].refs
    ensures RefsOf(H, os)[o] == 0
    decreases |os|
  {
    if os != [] {
      assert os[0] in os;
      NotIn(H, os[1..], o);
    }
  }

  lemma NotReferenced(H: Heap, os: seq<VarObj>, roots: seq<VarObj>, o: VarObj)
    requires ClosedHeap(H, os, roots) && o !in os
    ensures RefsOf(H, os)[o] == 0 && multiset(roots)[o] == 0
  {
    NotIn(H, os, o);
  }

  lemma PushStep(H: Heap, os: seq<VarObj>, roots: seq<VarObj>, r: VarObj)
    requires ClosedHeap(H, os, roots) && Counts(H, os, roots, multiset{}) && r in os
    ensures var K := H[r := H[r].(refcount := H[r].refcount + 1)];
            ClosedHeap(K, os, roots + [r]) && Counts(K, os, roots + [r], multiset{})
  {
    var K := H[r := H[r].(refcount := H[r].refcount + 1)];
    RefsUnchanged(H, K, os);
    forall x | x in os ensures K[x].refcount == Incoming(K, os, roots + [r], x) {
      assert multiset(roots + [r])[x] == multiset(roots)[x] + multiset{r}[x];
    }
  }

  lemma PopStep(H: Heap, os: seq<VarObj>, roots: seq<VarObj>)
    requires ClosedHeap(H, os, roots) && Counts(H, os, roots, multiset{}) && roots != []
    ensures var rest, r := roots[..|roots| - 1], roots[|roots| - 1];
            ClosedHeap(H, os, rest) && Counts(H, os, rest, multiset{r})
  {
    var rest, r := roots[..|roots| - 1], roots[|roots| - 1];
    assert roots == rest + [r];
    forall x | x in os ensures H[x].refcount == Incoming(H, os, rest, x) + multiset{r}[x] {
      assert multiset(rest + [r])[x] == multiset(rest)[x] + multiset{r}[x];
    }
  }

  lemma CountUpStep(H: Heap, os: seq<VarObj>, roots: seq<VarObj>, r: VarObj)
    requires ClosedHeap(H, os, roots) && Counts(H, os, roots, multiset{}) && r in os
    ensures var K := H[r := H[r].(refcount := H[r].refcount + 1)];
            ClosedHeap(K, os, roots) && Counts(K, os, roots, multiset{r})
  {
    CountStep(H, os, roots, multiset{}, multiset{r}, r, 1);
  }

  lemma SparedMeans(H: Heap, K: Heap, L: set<VarObj>, x: VarObj)
    requires Spared(H, K, L, x)
    ensures forall o | o in L :: o in H && o in K && K[o].refs == H[o].refs
    ensures forall o | o in K :: o in H && K[o].color == H[o].color && (o != x ==> K[o].refs == H[o].refs)
    ensures forall o | o in K && o != x && K[o].refcount <= 0 :: H[o].refcount <= 0
  {
  }

  /* ---- what reference counting reclaims ---- */

  /** Something holds `o`: a root, or a cycle, directly or through other objects. */
  ghost predicate Held(H: Heap, roots: seq<VarObj>, o: VarObj) {
    exists L | L <= H.Keys :: o in L && Kept(H, roots, L)
  }

  /** All that is held is itself a kept set. */
  lemma HeldKept(H: Heap, os: seq<VarObj>, roots: seq<VarObj>, M: set<VarObj>)
    requires ClosedHeap(H, os, roots) && M == set o | o in os && Held(H, roots, o)
    ensures Kept(H, roots, M)
  {
    var R := set o | o in os && Reachable(H, roots, o);
    ReachableKept(H, os, roots, R);
    forall r | r in roots ensures r in M { assert r in R && R <= H.Keys; }
    forall o | o in M ensures o in H && (forall r | r in H[o].refs :: r in M)
        && (o in roots || exists m | m in M :: m in H && o in H[m].refs) {
      var L :| L <= H.Keys && o in L && Kept(H, roots, L);
      KeptHeld(H, os, roots, L, M);
    }
  }

  lemma KeptHeld(H: Heap, os: seq<VarObj>, roots: seq<VarObj>, L: set<VarObj>, M: set<VarObj>)
    requires ClosedHeap(H, os, roots) && M == (set o | o in os && Held(H, roots, o)) && L <= H.Keys && Kept(H, roots, L)
    ensures L <= M
  {
    hide Kept;
    forall o | o in L ensures o in M { assert o in H; }
  }

  lemma ReachableHeld(H: Heap, os: seq<VarObj>, roots: seq<VarObj>, o: VarObj)
    requires ClosedHeap(H, os, roots) && o in os && Reachable(H, roots, o)
    ensures Held(H, roots, o)
  {
    hide Kept, Reachable;
    var R := set x | x in os && Reachable(H, roots, x);
    ReachableKept(H, os, roots, R);
    assert R <= H.Keys;
  }

  lemma AllHeld(H: Heap, os: seq<VarObj>, roots: seq<VarObj>)
    requires ClosedHeap(H, os, roots)
    ensures forall o | o in os && Reachable(H, roots, o) :: Held(H, roots, o)
  {
    hide Reachable, Held;
    forall o | o in os && Reachable(H, roots, o) ensures Held(H, roots, o) { ReachableHeld(H, os, roots, o); }
  }

  /** If every object that is left has a count, and has kept its references, then those left
      are held. */
  lemma LeftHeld(H: Heap, K: Heap, os: seq<VarObj>, roots: seq<VarObj>, o: VarObj)
    requires ClosedHeap(K, os, roots) && Counts(K, os, roots, multiset{}) && o in os
    requires forall x | x in os :: x in H && K[x].refs == H[x].refs && K[x].refcount > 0
    ensures Held(H, roots, o)
  {
    var L := AllOf(os);
    forall x | x in L ensures x in roots || exists m | m in L :: m in H && x in H[m].refs {
      if x !in roots && !exists m | m in L :: m in H && x in H[m].refs {
        NotIn(K, os, x);
      }
    }
    assert L <= H.Keys && Kept(H, roots, L);
  }

  /** After a release of `x` that left no object without a count, exactly what is held is left. */
  lemma Survivors(H: Heap, K: Heap, os: seq<VarObj>, left: seq<VarObj>, roots: seq<VarObj>, L: set<VarObj>, x: VarObj)
    requires ClosedHeap(H, os, roots) && L == set o | o in os && Held(H, roots, o)
    requires Spared(H, K, L, x) && ClosedHeap(K, left, roots) && Counts(K, left, roots, multiset{})
    requires (forall o | o in H && o != x :: H[o].refcount > 0)
             && (x in K ==> K[x].refs == H[x].refs && K[x].refcount > 0)
    ensures forall o | o in os :: o in left <==> Held(H, roots, o)
    ensures forall o | o in left :: o in os && K[o].refs == H[o].refs && K[o].refcount > 0 && K[o].color == H[o].color
  {
    hide Counts, Held;
    SparedMeans(H, K, L, x);
    forall o | o in left ensures Held(H, roots, o) { LeftHeld(H, K, left, roots, o); }
  }

  /** Every object that is gone was destructed once and freed once after that; nothing
      happened to any other. */
  ghost predicate Reclaims(es: seq<Event>, gone: set<VarObj>) {
    && (forall e | e in es :: e.o in gone)
    && (forall o | o in gone :: multiset(es)[Destructed(o)] == 1 && multiset(es)[Freed(o)] == 1)
    && NotYetFreed(es)
  }

  /** What is destructed has not been freed. */
  predicate NotYetFreed(es: seq<Event>) {
    forall j | 0 <= j < |es| && es[j].Destructed? :: Freed(es[j].o) !in es[..j]
  }

  lemma ReclaimsNone()
    ensures Reclaims([], {})
  {
  }

  lemma ReclaimsThen(a: seq<Event>, A: set<VarObj>, b: seq<Event>, B: set<VarObj>)
    requires Reclaims(a, A) && Reclaims(b, B) && A !! B
    ensures Reclaims(a + b, A + B)
  {
    var es := a + b;
    assert forall e | e in es :: e in a || e in b;
    forall o | o in A + B ensures multiset(es)[Destructed(o)] == 1 && multiset(es)[Freed(o)] == 1 {
      if o in A { assert Destructed(o) !in b && Freed(o) !in b; } else { assert Destructed(o) !in a && Freed(o) !in a; }
    }
    forall j | 0 <= j < |es| && es[j].Destructed? ensures Freed(es[j].o) !in es[..j] {
      if j < |a| {
        assert es[..j] == a[..j];
      } else {
        assert es[..j] == a + b[..j - |a|] && es[j] == b[j - |a|] && b[j - |a|] in b;
      }
    }
  }

  /** Around what happens while an object is destroyed. */
  lemma ReclaimsAround(o: VarObj, es: seq<Event>, gone: set<VarObj>)
    requires Reclaims(es, gone) && o !in gone
    ensures Reclaims([Destructed(o)] + es + [Freed(o)], gone + {o})
  {
    hide NotYetFreed;
    var all := [Destructed(o)] + es + [Freed(o)];
    assert Destructed(o) !in es && Freed(o) !in es;
    AroundOnce(o, es);
    AroundOrder(o, es);
    assert forall e | e in all :: e in es || e == Destructed(o) || e == Freed(o);
  }

  lemma AroundOnce(o: VarObj, es: seq<Event>)
    ensures multiset([Destructed(o)] + es + [Freed(o)]) == multiset{Destructed(o)} + multiset(es) + multiset{Freed(o)}
  {
  }

  lemma AroundOrder(o: VarObj, es: seq<Event>)
    requires NotYetFreed(es)
    ensures NotYetFreed([Destructed(o)] + es + [Freed(o)])
  {
    var all := [Destructed(o)] + es + [Freed(o)];
    forall j | 0 <= j < |all| && all[j].Destructed? ensures Freed(all[j].o) !in all[..j] {
      if j > 0 { assert all[..j] == [Destructed(o)] + es[..j - 1] && all[j] == es[j - 1]; }
    }
  }

  /** The same between two moments: the trace and the object list then and now. */
  ghost predicate Reclaimed(t0: seq<Event>, os0: seq<VarObj>, t1: seq<Event>, os1: seq<VarObj>) {
    t0 <= t1 && AllOf(os1) <= AllOf(os0) && Reclaims(t1[|t0|..], AllOf(os0) - AllOf(os1))
  }

  lemma ReclaimedNone(t: seq<Event>, os: seq<VarObj>)
    ensures Reclaimed(t, os, t, os)
  {
    assert t[|t|..] == [] && AllOf(os) - AllOf(os) == {};
    ReclaimsNone();
  }

  lemma ReclaimedThen(t0: seq<Event>, os0: seq<VarObj>, t1: seq<Event>, os1: seq<VarObj>, t2: seq<Event>,
                      os2: seq<VarObj>)
    requires Reclaimed(t0, os0, t1, os1) && Reclaimed(t1, os1, t2, os2)
    ensures Reclaimed(t0, os0, t2, os2)
  {
    hide Reclaims, AllOf;
    var A, B := AllOf(os0) - AllOf(os1), AllOf(os1) - AllOf(os2);
    ReclaimsThen(t1[|t0|..], A, t2[|t1|..], B);
    assert t1[|t0|..] + t2[|t1|..] == t2[|t0|..] && A + B == AllOf(os0) - AllOf(os2);
  }

  lemma ReclaimedAround(t0: seq<Event>, os0: seq<VarObj>, o: VarObj, t1: seq<Event>, os1: seq<VarObj>, os2: seq<VarObj>)
    requires Reclaimed(t0 + [Destructed(o)], os0, t1, os1) && o in os1 && forall x :: x in os2 <==> x in os1 && x != o
    ensures Reclaimed(t0, os0, t1 + [Freed(o)], os2)
  {
    hide Reclaims;
    var es, gone := t1[|t0| + 1..], AllOf(os0) - AllOf(os1);
    ReclaimsAround(o, es, gone);
    assert (t1 + [Freed(o)])[|t0|..] == [Destructed(o)] + es + [Freed(o)];
    assert gone + {o} == AllOf(os0) - AllOf(os2);
  }

  lemma WithoutOne(s: seq<VarObj>, i: nat)
    requires i < |s|
    ensures multiset(s) == multiset(s[..i] + s[i + 1..]) + multiset{s[i]}
  {
    assert s == s[..i] + [s[i]] + s[i + 1..];
  }

  lemma FilterNone(M: set<VarObj>)
    ensures Filter([], M) == []
  {
  }

  lemma FilterHead(os: seq<VarObj>, M: set<VarObj>)
    requires os != []
    ensures Filter(os, M) == (if os[0] in M then [os[0]] else []) + Filter(os[1..], M)
  {
  }

  lemma {:induction false} FilterAll(os: seq<VarObj>, M: set<VarObj>)
    ensures forall o :: o in Filter(os, M) <==> o in os && o in M
    decreases |os|
  {
    if os != [] { FilterAll(os[1..], M); }
  }

  /** What a collection leaves has counts. */
  lemma LeftCounted(H: Heap, K: Heap, os: seq<VarObj>, left: seq<VarObj>, roots: seq<VarObj>, M: set<VarObj>)
    requires Kept(H, roots, M) && ClosedHeap(K, left, roots) && Counts(K, left, roots, multiset{})
    requires forall o :: o in left <==> o in os && o in M
    requires M <= AllOf(os) && forall o | o in left :: o in H && K[o].refs == H[o].refs
    ensures forall o | o in left :: K[o].refcount > 0
  {
    hide Counts, Kept;
    KeptSame(H, K, roots, M);
    forall o | o in left ensures K[o].refcount > 0 { KeptCounted(K, left, roots, M, o); }
  }

  lemma RootsListed(H: Heap, os: seq<VarObj>, roots: seq<VarObj>, r: VarObj)
    requires ClosedHeap(H, os, roots) && r in roots
    ensures r in os
  {
  }

  lemma DoneJoin(H: Heap, roots: seq<VarObj>, W0: set<VarObj>, W1: set<VarObj>, W2: set<VarObj>)
    requires W2 <= W1 <= W0 && Done(H, roots, W0 - W1, W1) && Done(H, roots, W1 - W2, W2)
    ensures Done(H, roots, W0 - W2, W2)
  {
    hide Reachable;
    forall x | x in W0 - W2 ensures x in H && Reachable(H, roots, x) && forall r | r in H[x].refs :: r !in W2 {
      assert x in W0 - W1 || x in W1 - W2;
    }
  }

  /** When marking is done, exactly the reachable objects are marked. */
  lemma MarkedExactly(H: Heap, os: seq<VarObj>, roots: seq<VarObj>, white: set<VarObj>)
    requires ClosedHeap(H, os, roots) && white <= AllOf(os) && Done(H, roots, AllOf(os) - white, white)
    requires forall j | 0 <= j < |roots| :: roots[j] !in white
    ensures forall o | o in os :: o !in white <==> Reachable(H, roots, o)
  {
    var M := AllOf(os) - white;
    forall o | o in os ensures o !in white <==> Reachable(H, roots, o) {
      if o !in white { assert o in M; }
      if Reachable(H, roots, o) {
        var n: nat :| o in ReachN(H, roots, n);
        ReachInside(H, roots, M, n);
      }
    }
  }

  /* ---- the shared state ---- */

  class Shared {
    /** The object list, newest first, and the number of objects in it. */
    var objs: seq<VarObj>
    var objcount: int
    /** The current colour, and whether a collection is going on. */
    var redblue: bool
    var gcrun: bool
    /** Every variable that the collector starts from. */
    var roots: seq<VarObj>
    /** What has happened to objects. */
    ghost var trace: seq<Event>

    ghost function View(): (H: Heap)
      reads this, objs
      ensures H.Keys == set o | o in objs
    {
      map o | o in objs :: Data(o.refcount, o.redblue, o.refs)
    }

    ghost function Listed(): set<object>
      reads this
    {
      set o: VarObj | o in objs :: o as object
    }

    /** Everything but the colours. */
    ghost predicate Sound(extra: multiset<VarObj>)
      reads this, objs
    {
      ClosedHeap(View(), objs, roots) && Counts(View(), objs, roots, extra) && objcount == |objs|
    }

    /** Between collections all listed objects carry the current colour, and something refers
        to each of them. */
    ghost predicate Valid()
      reads this, objs
    {
      Sound(multiset{}) && !gcrun && forall o | o in objs :: o.redblue == redblue && o.refcount > 0
    }

    constructor ()
      ensures Valid() && objs == [] && roots == [] && trace == []
    {
      objs, objcount, redblue, gcrun, roots, trace := [], 0, false, false, [], [];
    }

    /* ---- single steps on objects ---- */

    /** Objects that have not got the current colour yet. */
    ghost function White(): set<VarObj>
      reads this, objs
    {
      set o | o in objs && o.redblue != redblue
    }

    method SetColor(o: VarObj)
      requires o in objs
      modifies o`redblue
      ensures o.redblue == redblue && White() == old(White()) - {o}
    {
      o.redblue := redblue;
    }

    method CountDown(o: VarObj)
      requires o in objs
      modifies o`refcount
      ensures View() == old(View())[o := old(View())[o].(refcount := old(o.refcount) - 1)]
    {
      o.refcount := o.refcount - 1;
    }

    method CountUp(o: VarObj)
      requires o in objs
      modifies o`refcount
      ensures View() == old(View())[o := old(View())[o].(refcount := old(o.refcount) + 1)]
    {
      o.refcount := o.refcount + 1;
    }

    method SetRefs(o: VarObj, refs: seq<VarObj>)
      requires o in objs
      modifies o`refs
      ensures o.refs == refs && View() == old(View())[o := old(View())[o].(refs := refs)]
    {
      o.refs := refs;
    }

    /* ---- marking ---- */

    /** obj_gcmark_do: colours an object and everything not yet coloured that it leads to. */
    method MarkDo(o: VarObj, ghost H: Heap)
      requires o in White() && ClosedHeap(H, objs, roots) && Reachable(H, roots, o)
      requires forall x | x in objs :: x in H && H[x].refs == x.refs
      modifies set x | x in objs :: x`redblue
      ensures White() <= old(White()) - {o}
      ensures Done(H, roots, old(White()) - White(), White())
      decreases White()
    {
      hide Reachable, ReachN, Done, ClosedHeap;
      ghost var W0 := White();
      SetColor(o);
      RefsListed(H, objs, roots, o);
      DoneNone(H, roots, W0 - White() - {o}, White());
      var i := 0;
      while i < |o.refs|
        invariant i <= |o.refs|
        invariant White() <= W0 - {o}
        invariant Done(H, roots, W0 - White() - {o}, White())
        invariant forall j | 0 <= j < i :: o.refs[j] !in White()
      {
        var r := o.refs[i];
        if r.redblue != redblue {
          ReachStep(H, roots, o, r);
          ghost var W1 := White();
          MarkDo(r, H);
          DoneThen(H, roots, o, W0, W1, White());
        }
        i := i + 1;
      }
      DoneLast(H, roots, o, W0, White());
    }

    /* ---- destroying ---- */

    /** var_free_object: takes the object off the list. */
    method FreeObject(i: nat)
      requires i < |objs|
      modifies `objs, `objcount, `trace
      ensures objs == old(objs)[..i] + old(objs)[i + 1..]
      ensures objcount == old(objcount) - 1 && trace == old(trace) + [Freed(old(objs)[i])]
    {
      trace := trace + [Freed(objs[i])];
      objs := objs[..i] + objs[i + 1..];
      objcount := objcount - 1;
    }

    /** sgs_ObjRelease: counts down, and destroys the object if nothing refers to it. */
    method Release(x: VarObj, ghost L: set<VarObj>)
      requires Sound(multiset{x}) && x in objs && !gcrun && Kept(View(), roots, L)
      modifies this, Listed()
      ensures Sound(multiset{}) && Kept(View(), roots, L) && Spared(old(View()), View(), L, x)
      ensures Reclaimed(old(trace), old(objs), trace, objs)
      ensures old(x.refcount) > 1 ==> objs == old(objs) && trace == old(trace)
      ensures old(x.refcount) <= 1 ==> x !in objs
      ensures x in objs ==> x.refcount == old(x.refcount) - 1 && x.refs == old(x.refs)
      ensures unchanged(`roots, `redblue, `gcrun) && Total(View(), objs) <= old(Total(View(), objs))
      decreases Total(View(), objs), 2
    {
      hide ClosedHeap, Counts, Kept, Total, Spared, Reclaimed;
      ghost var H := View();
      ListedKeys(H, objs, roots);
      ghost var K := H[x := H[x].(refcount := H[x].refcount - 1)];
      CountStep(H, objs, roots, multiset{x}, multiset{}, x, -1);
      KeptStep(H, roots, L, x, K[x]);
      SparedCount(H, roots, L, x);
      ReclaimedNone(trace, objs);
      CountDown(x);
      if x.refcount <= 0 {
        Destroy(x, L);
        SparedThen(H, K, View(), L, x);
      }
    }

    /** sgsVM_VarDestroyObject: destructs, which releases every reference, then frees. */
    method Destroy(o: VarObj, ghost L: set<VarObj>)
      requires Sound(multiset{}) && o in objs && o.refcount <= 0 && !gcrun && Kept(View(), roots, L)
      modifies this, Listed()
      ensures Sound(multiset{}) && Kept(View(), roots, L) && Spared(old(View()), View(), L, o) && o !in objs
      ensures Reclaimed(old(trace), old(objs), trace, objs)
      ensures unchanged(`roots, `redblue, `gcrun) && Total(View(), objs) <= old(Total(View(), objs))
      decreases Total(View(), objs), 1
    {
      hide ClosedHeap, Counts, Kept, Total, Spared, Reclaimed, Reclaims;
      ghost var H, os, t0 := View(), objs, trace;
      if o in L { KeptCounted(H, objs, roots, L, o); }
      SparedNone(H, roots, L, o);
      trace := trace + [Destructed(o)];
      ReclaimedNone(trace, objs);
      assert View() == H;
      while o.refs != []
        invariant Sound(multiset{}) && o in objs && o.refcount <= 0 && !gcrun && Kept(View(), roots, L)
        invariant unchanged(`roots, `redblue, `gcrun) && Total(View(), objs) <= old(Total(View(), objs))
                  && Spared(H, View(), L, o)
        invariant Reclaimed(t0 + [Destructed(o)], os, trace, objs)
        invariant Listed() <= old(Listed())
        decreases Total(View(), objs)
      {
        ghost var K, ts, ls := View(), trace, objs;
        ReleaseFirst(o, L);
        SparedThen(H, K, View(), L, o);
        ReclaimedThen(t0 + [Destructed(o)], os, ts, ls, trace, objs);
        SparedKeys(H, View(), L, o);
        ListedKeys(View(), objs, roots);
      }
      ghost var K, ts, ls := View(), trace, objs;
      FreeDead(o, L);
      SparedThen(H, K, View(), L, o);
      ReclaimedAround(t0, os, o, ts, ls, objs);
    }

    /** Freeing an object that nothing refers to. */
    method FreeDead(o: VarObj, ghost L: set<VarObj>)
      requires Sound(multiset{}) && o in objs && o.refcount <= 0 && o.refs == [] && o !in L && Kept(View(), roots, L)
      modifies `objs, `objcount, `trace
      ensures Sound(multiset{}) && Kept(View(), roots, L) && Spared(old(View()), View(), L, o)
      ensures forall x :: x in objs <==> x in old(objs) && x != o
      ensures Total(View(), objs) == old(Total(View(), objs)) && trace == old(trace) + [Freed(o)]
    {
      hide ClosedHeap, Counts, Kept, Total, Spared;
      ghost var K, os := View(), objs;
      Unreferenced(K, objs, roots, o);
      var i :| 0 <= i < |objs| && objs[i] == o;
      FreeObject(i);
      RestKeys(K, os, roots, objs, o);
      assert View() == map x | x in objs :: K[x];
      FreedSound(K, os, View(), objs, roots, L, o);
      SparedNone(K, roots, L, o);
      SparedFreed(K, K, os, View(), roots, L, o);
    }

    /** One reference of an object under destruction. */
    method ReleaseFirst(o: VarObj, ghost L: set<VarObj>)
      requires Sound(multiset{}) && o in objs && o.refcount <= 0 && o.refs != [] && o !in L && !gcrun
               && Kept(View(), roots, L)
      modifies this, Listed()
      ensures Sound(multiset{}) && Kept(View(), roots, L) && Spared(old(View()), View(), L, o)
      ensures o in objs && o.refcount == old(o.refcount) && Reclaimed(old(trace), old(objs), trace, objs)
      ensures unchanged(`roots, `redblue, `gcrun) && Total(View(), objs) < old(Total(View(), objs))
      decreases Total(View(), objs), 0
    {
      hide ClosedHeap, Counts, Kept, Total, Spared, Reclaimed;
      ghost var H := View();
      var r, refs := o.refs[0], o.refs[1..];
      ghost var K := H[o := H[o].(refs := refs)];
      assert o.refs == [r] + refs;
      RefsListed(H, objs, roots, o);
      DropStep(H, objs, roots, multiset{}, o, refs, r);
      assert multiset{} + multiset{r} == multiset{r};
      KeptStep(H, roots, L, o, K[o]);
      Referenced(H, objs, roots, o, r);
      SparedRefs(H, roots, L, o, refs);
      SetRefs(o, refs);
      Release(r, L);
      SparedLast(H, K, View(), L, o, r);
    }

    /* ---- collecting ---- */

    /** Marks from every root.  Before, nothing has the new colour; after, exactly what is
        reachable has it. */
    method MarkRoots(ghost H: Heap)
      requires ClosedHeap(H, objs, roots) && White() == AllOf(objs)
      requires forall x | x in objs :: x in H && H[x].refs == x.refs
      modifies set x | x in objs :: x`redblue
      ensures forall o | o in objs :: o !in White() <==> Reachable(H, roots, o)
    {
      hide Reachable, ReachN, Done, ClosedHeap;
      ghost var W0 := White();
      DoneNone(H, roots, W0 - White(), White());
      var i := 0;
      while i < |roots|
        invariant i <= |roots| && White() <= W0
        invariant Done(H, roots, W0 - White(), White())
        invariant forall j | 0 <= j < i :: roots[j] !in White()
      {
        var r := roots[i];
        RootsListed(H, objs, roots, r);
        if r.redblue != redblue {
          ReachRoot(H, roots, r);
          ghost var W1 := White();
          MarkDo(r, H);
          DoneJoin(H, roots, W0, W1, White());
        }
        i := i + 1;
      }
      MarkedExactly(H, objs, roots, White());
    }

    /** Releasing the first reference of an object while a collection runs: the count goes
        down, nothing is destroyed. */
    method DropFirst(o: VarObj)
      requires Sound(multiset{}) && o in objs && o.refs != [] && gcrun
      modifies set x | x in objs :: x`refcount, o`refs
      ensures Sound(multiset{}) && o.refs == old(o.refs[1..])
    {
      hide ClosedHeap, Counts, Total;
      ghost var H := View();
      var r, refs := o.refs[0], o.refs[1..];
      ghost var K := H[o := H[o].(refs := refs)];
      assert o.refs == [r] + refs;
      RefsListed(H, objs, roots, o);
      assert r in H[o].refs && r in objs;
      DropStep(H, objs, roots, multiset{}, o, refs, r);
      assert multiset{} + multiset{r} == multiset{r};
      SetRefs(o, refs);
      CountOff(r);
    }

    /** The counting half of a release while a collection runs. */
    method CountOff(r: VarObj)
      requires Sound(multiset{r}) && r in objs
      modifies r`refcount
      ensures Sound(multiset{})
    {
      hide ClosedHeap, Counts, Total;
      CountStep(View(), objs, roots, multiset{r}, multiset{}, r, -1);
      CountDown(r);
    }

    /** var_destruct_object while a collection runs. */
    method DestructInGc(o: VarObj)
      requires Sound(multiset{}) && o in objs && gcrun
      modifies set x | x in objs :: x`refcount, o`refs, `trace
      ensures Sound(multiset{}) && o.refs == [] && trace == old(trace) + [Destructed(o)]
    {
      hide ClosedHeap, Counts;
      ghost var H := View();
      trace := trace + [Destructed(o)];
      assert View() == H;
      while o.refs != []
        invariant Sound(multiset{}) && trace == old(trace) + [Destructed(o)]
        decreases |o.refs|
      {
        DropFirst(o);
      }
    }

    /** First pass of the sweep: destructs everything that was not marked. */
    method DestructAll(ghost M: set<VarObj>)
      requires Sound(multiset{}) && gcrun && forall o | o in objs :: o in M <==> o.redblue == redblue
      modifies set x | x in objs :: x`refcount, set x | x in objs :: x`refs, `trace
      ensures Sound(multiset{}) && trace == old(trace) + Destructs(Filter(objs, AllOf(objs) - M))
      ensures forall x | x in objs :: x.refs == if x in M then old(x.refs) else []
    {
      hide ClosedHeap, Counts, Filter, Destructs, Sound;
      ghost var G, os := AllOf(objs) - M, objs;
      SweepNone(os, G);
      DistinctObjs();
      var k := 0;
      while k < |objs|
        invariant k <= |os| && objs == os && Sound(multiset{}) && trace == old(trace) + Destructs(Filter(os[..k], G))
        invariant forall j | 0 <= j < |os| :: os[j].refs == if os[j] in M || j >= k then old(os[j].refs) else []
      {
        SweepOne(os, k, G);
        DestructNext(objs[k], M);
        k := k + 1;
      }
      assert os[..k] == os;
    }

    lemma DistinctObjs()
      requires Sound(multiset{})
      ensures Distinct(objs)
    {
      hide Counts;
    }

    /** One object of the first pass. */
    method DestructNext(o: VarObj, ghost M: set<VarObj>)
      requires Sound(multiset{}) && gcrun && o in objs && (o in M <==> o.redblue == redblue)
      modifies set x | x in objs :: x`refcount, o`refs, `trace
      ensures Sound(multiset{}) && trace == old(trace) + if o in M then [] else [Destructed(o)]
      ensures o.refs == if o in M then old(o.refs) else []
    {
      hide Sound;
      if o.redblue != redblue { DestructInGc(o); }
    }

    /** Between the passes: marked objects, of the new colour, form a closed set with the
        roots; the others have no references left. */
    ghost predicate Swept(os: seq<VarObj>, M: set<VarObj>)
      reads `roots, `redblue, os
    {
      && (forall r | r in roots :: r in M)
      && forall o | o in os ::
           (o in M <==> o.redblue == redblue) && if o in M then forall r | r in o.refs :: r in M else o.refs == []
    }

    lemma SweptMeans(M: set<VarObj>, o: VarObj)
      requires Swept(objs, M) && o in objs
      ensures o in M <==> o.redblue == redblue
      ensures o !in M ==> o.refs == []
    {
    }

    /** Second pass of the sweep: frees everything that was not marked. */
    method FreeAll(ghost M: set<VarObj>)
      requires Sound(multiset{}) && Swept(objs, M)
      modifies `objs, `objcount, `trace
      ensures Sound(multiset{}) && objs == Filter(old(objs), M)
      ensures trace == old(trace) + Frees(Filter(old(objs), AllOf(old(objs)) - M))
    {
      hide ClosedHeap, Counts, Filter, Frees, Swept, Sound;
      ghost var G, os, k := AllOf(objs) - M, objs, 0;
      SweepNone(os, G);
      FilterEmpty(os, M);
      var i := 0;
      while i < |objs|
        invariant k <= |os| && i == |Filter(os[..k], M)| && objs == Filter(os[..k], M) + os[k..]
        invariant Sound(multiset{}) && Swept(objs, M) && trace == old(trace) + Frees(Filter(os[..k], G))
        decreases |os| - k
      {
        SweepTrace(os, k, G);
        i := FreeNext(i, os, k, M);
        k := k + 1;
      }
      assert os[..k] == os;
    }

    method FreeNext(i: nat, ghost os: seq<VarObj>, ghost k: nat, ghost M: set<VarObj>) returns (next: nat)
      requires Sound(multiset{}) && Swept(objs, M) && k < |os| && i == |Filter(os[..k], M)|
               && objs == Filter(os[..k], M) + os[k..]
      modifies `objs, `objcount, `trace
      ensures Sound(multiset{}) && Swept(objs, M) && next == |Filter(os[..k + 1], M)|
              && objs == Filter(os[..k + 1], M) + os[k + 1..]
      ensures trace == old(trace) + if os[k] in M then [] else [Freed(os[k])]
    {
      hide ClosedHeap, Counts, Filter, Swept, Sound;
      SweepList(os, k, M);
      SweptMeans(M, objs[i]);
      next := i;
      if objs[i].redblue != redblue { FreeGarbage(i, M); } else { next := i + 1; }
    }

    method FreeGarbage(i: nat, ghost M: set<VarObj>)
      requires Sound(multiset{}) && Swept(objs, M) && i < |objs| && objs[i] !in M
      modifies `objs, `objcount, `trace
      ensures Sound(multiset{}) && Swept(objs, M) && objs == old(objs[..i] + objs[i + 1..])
              && trace == old(trace) + [Freed(old(objs[i]))]
    {
      hide ClosedHeap, Counts, Swept;
      ghost var K, os, o := View(), objs, objs[i];
      SweptMeans(M, o);
      SweptAlone(M, o);
      FreeObject(i);
      RestKeys(K, os, roots, objs, o);
      assert View() == map x | x in objs :: K[x];
      FreedSound(K, os, View(), objs, roots, {}, o);
      SweptLess(M, os, objs);
    }

    /** Nothing refers to an unmarked object any more. */
    lemma SweptAlone(M: set<VarObj>, o: VarObj)
      requires Swept(objs, M) && o in objs && o !in M
      ensures o !in roots && forall x | x in objs :: o !in View()[x].refs
    {
    }

    lemma SweptLess(M: set<VarObj>, os: seq<VarObj>, rest: seq<VarObj>)
      requires Swept(os, M) && forall x | x in rest :: x in os
      ensures Swept(rest, M)
    {
    }

    /** The objects that can be reached. */
    ghost function Live(): set<VarObj>
      reads this, objs
    {
      set o | o in objs && Reachable(View(), roots, o)
    }

    /** Flips the colour and marks: exactly the reachable objects get it. */
    method FlipAndMark() returns (ghost M: set<VarObj>)
      requires Valid()
      modifies this, set x | x in objs :: x`redblue
      ensures M == old(Live()) && Sound(multiset{}) && gcrun && unchanged(`objs, `objcount, `roots, `trace)
      ensures forall o | o in objs :: o in M <==> o.redblue == redblue
      ensures SameRefs(old(View()), View())
    {
      hide Reachable, ReachN, ClosedHeap, Counts, Incoming;
      ghost var H := View();
      M := set o | o in objs && Reachable(H, roots, o);
      redblue := !redblue;
      gcrun := true;
      assert View() == H;
      MarkRoots(H);
      SoundColors(H, View(), objs, roots);
    }

    /** sgsVM_GCExecute: marks, then sweeps, or only makes the colours equal again. */
    method GCExecute(sweep: bool)
      requires Valid()
      modifies this, Listed()
      ensures Valid() && roots == old(roots)
      ensures sweep ==>
                var M, os := old(Live()), old(objs);
                && objs == Filter(os, M) && (forall o | o in objs :: o.refs == old(o.refs))
                && trace == old(trace) + Destructs(Filter(os, AllOf(os) - M)) + Frees(Filter(os, AllOf(os) - M))
      ensures !sweep ==>
                objs == old(objs) && trace == old(trace) && forall o | o in objs ::
                    o.refs == old(o.refs) && o.refcount == old(o.refcount)
    {
      hide Reachable, ReachN, ClosedHeap, Counts, Incoming, Filter, Destructs, Frees, Kept;
      ghost var H, os := View(), objs;
      LiveClosed(H, objs, roots, Live());
      ReachableKept(H, objs, roots, Live());
      ghost var M := FlipAndMark();
      if sweep { SweepUnmarked(H, M); } else { Recolor(); }
      StopCollecting();
    }

    method StopCollecting()
      requires Sound(multiset{})
      modifies `gcrun
      ensures Sound(multiset{}) && !gcrun
    {
      hide ClosedHeap, Counts;
      ghost var K := View();
      gcrun := false;
      assert View() == K;
    }

    /** The sweep, after which what is left has counts. */
    method SweepUnmarked(ghost H: Heap, ghost M: set<VarObj>)
      requires Sound(multiset{}) && gcrun && SameRefs(H, View())
      requires forall o | o in objs :: o in M <==> o.redblue == redblue
      requires (forall r | r in roots :: r in M) && (forall o, r | o in M && o in H && r in H[o].refs :: r in M)
      requires Kept(H, roots, M) && M <= AllOf(objs)
      modifies `objs, `objcount, `trace, set x | x in objs :: x`refcount, set x | x in objs :: x`refs
      ensures Sound(multiset{}) && objs == Filter(old(objs), M)
      ensures trace == old(trace) + Destructs(Filter(old(objs), AllOf(old(objs)) - M))
              + Frees(Filter(old(objs), AllOf(old(objs)) - M))
      ensures forall o | o in objs :: o in M && o.redblue == redblue && o.refs == old(o.refs) && o.refcount > 0
    {
      hide ClosedHeap, Counts, Filter, Destructs, Frees, Kept;
      ghost var os := objs;
      Sweep(H, M);
      FilterAll(os, M);
      LeftCounted(H, View(), os, objs, roots, M);
      assert forall o | o in objs :: View()[o].refcount == o.refcount;
    }

    /** The sweep: destructs all garbage, then frees it. */
    method Sweep(ghost H: Heap, ghost M: set<VarObj>)
      requires Sound(multiset{}) && gcrun && SameRefs(H, View())
      requires forall o | o in objs :: o in M <==> o.redblue == redblue
      requires (forall r | r in roots :: r in M) && forall o, r | o in M && o in H && r in H[o].refs :: r in M
      modifies `objs, `objcount, `trace, set x | x in objs :: x`refcount, set x | x in objs :: x`refs
      ensures Sound(multiset{}) && objs == Filter(old(objs), M)
      ensures trace == old(trace) + Destructs(Filter(old(objs), AllOf(old(objs)) - M))
              + Frees(Filter(old(objs), AllOf(old(objs)) - M))
      ensures forall o | o in objs :: o in M && o.redblue == redblue && o.refs == old(o.refs)
    {
      hide ClosedHeap, Counts, Filter, Destructs, Frees, Sound;
      ghost var os := objs;
      DestructAll(M);
      assert Swept(objs, M);
      FreeAll(M);
      FilterAll(os, M);
    }

    /** Gives every object the current colour. */
    method Recolor()
      requires Sound(multiset{})
      modifies set x | x in objs :: x`redblue
      ensures Sound(multiset{}) && forall o | o in objs :: o.redblue == redblue
    {
      hide ClosedHeap, Counts;
      ghost var H := View();
      var i := 0;
      while i < |objs|
        invariant i <= |objs| && forall j | 0 <= j < i :: objs[j].redblue == redblue
      {
        assert objs[i] in objs;
        SetColor(objs[i]);
        i := i + 1;
      }
      SoundColors(H, View(), objs, roots);
    }

    /* ---- what programs do to the heap ---- */

    /** var_create_obj: the new object is held by a new root variable. */
    method Create() returns (o: VarObj)
      requires Valid()
      modifies this
      ensures Valid() && fresh(o) && objs == [o] + old(objs) && roots == old(roots) + [o] && o.refs == []
      ensures trace == old(trace)
    {
      hide ClosedHeap, Counts;
      ghost var H, os := View(), objs;
      o := new VarObj(redblue);
      CreateStep(H, os, roots, o, Data(1, redblue, []));
      objs := [o] + objs;
      objcount := objcount + 1;
      roots := roots + [o];
      assert View() == H[o := Data(1, redblue, [])];
    }

    /** A variable is copied: one more root. */
    method PushRoot(r: VarObj)
      requires Valid() && r in objs
      modifies `roots, r`refcount
      ensures Valid() && roots == old(roots) + [r]
    {
      hide ClosedHeap, Counts;
      ghost var H := View();
      PushStep(H, objs, roots, r);
      roots := roots + [r];
      assert View() == H;
      CountUp(r);
    }

    /** Releases a reference that has just been given up, and with it exactly what no root
        and no cycle holds any more. */
    method ReleaseHeld(r: VarObj)
      requires Sound(multiset{r}) && r in objs && !gcrun
      requires forall o | o in objs :: o.redblue == redblue && o.refcount > 0
      modifies this, Listed()
      ensures Valid() && roots == old(roots)
      ensures forall o | o in old(objs) :: o in objs <==> Held(old(View()), roots, o)
      ensures forall o | o in objs :: o in old(objs) && o.refs == old(o.refs)
      ensures Reclaimed(old(trace), old(objs), trace, objs)
      ensures forall o | o in old(objs) && Reachable(old(View()), roots, o) :: o in objs
    {
      hide ClosedHeap, Counts, Kept, Total, Spared, Reachable, Held, Reclaimed;
      ghost var H, os := View(), objs;
      ghost var L := set o | o in objs && Held(H, roots, o);
      HeldKept(H, objs, roots, L);
      Release(r, L);
      Survivors(H, View(), os, objs, roots, L, r);
      assert forall o | o in objs :: o in View() && o in H;
      AllHeld(H, os, roots);
    }

    /** A variable goes out of use.  What no root and no cycle holds any more is destructed and
        freed; everything else is untouched, in particular what is still reachable. */
    method PopRoot()
      requires Valid() && roots != []
      modifies this, Listed()
      ensures Valid() && roots == old(roots[..|roots| - 1])
      ensures forall o | o in old(objs) :: o in objs <==> Held(old(View()), roots, o)
      ensures forall o | o in objs :: o in old(objs) && o.refs == old(o.refs)
      ensures Reclaimed(old(trace), old(objs), trace, objs)
      ensures forall o | o in old(objs) && Reachable(old(View()), roots, o) :: o in objs
    {
      hide ClosedHeap, Counts, Total, Reachable, Held, Reclaimed;
      ghost var H := View();
      var r := roots[|roots| - 1];
      RootsListed(H, objs, roots, r);
      PopStep(H, objs, roots);
      roots := roots[..|roots| - 1];
      assert View() == H;
      ReleaseHeld(r);
    }

    /** Object `o` gets another reference, to `r`. */
    method Link(o: VarObj, r: VarObj)
      requires Valid() && o in objs && r in objs
      modifies r`refcount, o`refs
      ensures Valid() && o.refs == old(o.refs) + [r]
    {
      hide ClosedHeap, Counts;
      ghost var H := View();
      CountUpStep(H, objs, roots, r);
      CountUp(r);
      AddStep(View(), objs, roots, o, r);
      SetRefs(o, o.refs + [r]);
    }

    /** Object `o` gives up its reference number `i`.  What no root and no cycle holds any more
        is destructed and freed; everything else is untouched, in particular what is still
        reachable. */
    method Unlink(o: VarObj, i: nat)
      requires Valid() && o in objs && i < |o.refs|
      modifies this, Listed()
      ensures Valid() && roots == old(roots)
      ensures var K := old(View())[o := old(View())[o].(refs := old(o.refs[..i] + o.refs[i + 1..]))];
              && (forall x | x in old(objs) :: x in objs <==> Held(K, roots, x))
              && (forall x | x in objs :: x in old(objs) && x.refs == K[x].refs)
              && (forall x | x in old(objs) && Reachable(K, roots, x) :: x in objs)
      ensures Reclaimed(old(trace), old(objs), trace, objs)
    {
      hide Reachable, Held, Reclaimed, Sound;
      var r := o.refs[i];
      GiveUp(o, i);
      ReleaseHeld(r);
    }

    /** The field is cleared; the count of its target is one too high until it is released. */
    method GiveUp(o: VarObj, i: nat)
      requires Sound(multiset{}) && o in objs && i < |o.refs|
      modifies o`refs
      ensures old(o.refs[i]) in objs && Sound(multiset{old(o.refs[i])}) && ClosedHeap(View(), objs, roots)
      ensures View() == old(View())[o := old(View())[o].(refs := old(o.refs[..i] + o.refs[i + 1..]))]
    {
      hide ClosedHeap, Counts, Total;
      ghost var H := View();
      var r, refs := o.refs[i], o.refs[..i] + o.refs[i + 1..];
      RefsListed(H, objs, roots, o);
      assert r in H[o].refs;
      WithoutOne(o.refs, i);
      DropStep(H, objs, roots, multiset{}, o, refs, r);
      assert multiset{} + multiset{r} == multiset{r};
      SetRefs(o, refs);
    }
  }
}
