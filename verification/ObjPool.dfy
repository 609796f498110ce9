/** The pool of freed object blocks: a sorted array that serves blocks of exactly the right
    size before memory is allocated, and takes freed blocks back. */
module ObjPool {

  const POOL_SIZE: int := 64       // SGS_OBJPOOL_SIZE
  const MAX_APPMEM: int := 256     // SGS_OBJPOOL_MAX_APPMEM

  datatype Item = Item(obj: nat, appsize: nat)

  predicate Sorted(s: seq<Item>) {
    forall i, j | 0 <= i < j < |s| :: s[i].appsize <= s[j].appsize
  }

  predicate Distinct(s: seq<Item>) {
    forall i, j | 0 <= i < j < |s| :: s[i].obj != s[j].obj
  }

  function Objs(s: seq<Item>): set<nat> {
    set i | 0 <= i < |s| :: s[i].obj
  }

  /** Where a block of this size is, or belongs. */
  predicate Fits(s: seq<Item>, pos: int, appsize: nat) {
    && 0 <= pos <= |s|
    && (forall i | 0 <= i < pos :: s[i].appsize <= appsize)
    && (forall i | pos <= i < |s| :: appsize <= s[i].appsize)
    && ((exists i | 0 <= i < |s| :: s[i].appsize == appsize) ==> pos < |s| && s[pos].appsize == appsize)
  }

  lemma Without(s: seq<Item>, pos: nat)
    requires Sorted(s) && Distinct(s) && pos < |s|
    ensures var t := s[..pos] + s[pos + 1..]; Sorted(t) && Distinct(t) && Objs(t) == Objs(s) - {s[pos].obj}
  {
    var t := s[..pos] + s[pos + 1..];
    assert forall i | 0 <= i < |t| :: t[i] == s[if i < pos then i else i + 1];
    forall x | x in Objs(s) && x != s[pos].obj ensures x in Objs(t) {
      var i :| 0 <= i < |s| && s[i].obj == x;
      assert t[if i < pos then i else i - 1] == s[i];
    }
  }

  lemma With(s: seq<Item>, pos: nat, item: Item)
    requires Sorted(s) && Distinct(s) && Fits(s, pos, item.appsize) && item.obj !in Objs(s)
    ensures var t := s[..pos] + [item] + s[pos..]; Sorted(t) && Distinct(t) && Objs(t) == Objs(s) + {item.obj}
  {
    var t := s[..pos] + [item] + s[pos..];
    assert forall i | 0 <= i < |t| :: t[i] == if i < pos then s[i] else if i == pos then item else s[i - 1];
    forall x | x in Objs(s) ensures x in Objs(t) {
      var i :| 0 <= i < |s| && s[i].obj == x;
      assert t[if i < pos then i else i + 1] == s[i];
    }
    assert t[pos].obj in Objs(t);
  }

  /** In a full pool the new block takes the place of the one where it belongs, or of the last. */
  lemma Replaced(s: seq<Item>, pos: nat, at: nat, item: Item)
    requires Sorted(s) && Distinct(s) && s != [] && Fits(s, at, item.appsize) && item.obj !in Objs(s)
    requires pos == if at < |s| then at else |s| - 1
    ensures var t := s[pos := item]; Sorted(t) && Distinct(t) && Objs(t) == Objs(s) - {s[pos].obj} + {item.obj}
  {
    var t := s[pos := item];
    forall x | x in Objs(s) && x != s[pos].obj ensures x in Objs(t) {
      var i :| 0 <= i < |s| && s[i].obj == x;
      assert t[i] == s[i];
    }
    assert t[pos].obj in Objs(t);
  }

  /** Every block ever obtained is exactly one of: in use, pooled, given back. */
  ghost predicate Parted(live: set<nat>, pooled: set<nat>, gone: set<nat>, next: nat) {
    && live !! pooled && live !! gone && pooled !! gone
    && forall x: nat :: x in live || x in pooled || x in gone <==> x < next
  }

  predicate Small(s: seq<Item>) {
    forall i | 0 <= i < |s| :: s[i].appsize <= MAX_APPMEM
  }

  lemma SmallWithout(s: seq<Item>, pos: nat)
    requires Small(s) && pos < |s|
    ensures Small(s[..pos] + s[pos + 1..]) && s[pos].obj in Objs(s)
  {
  }

  /** Blocks are numbered as they are obtained from the system. */
  class Allocator {
    const data: array<Item>
    var size: nat
    var next: nat
    /** Blocks in use, with their sizes, and blocks given back to the system. */
    ghost var live: map<nat, nat>
    ghost var gone: set<nat>

    function Items(): seq<Item>
      requires size <= data.Length
      reads this, data
    {
      data[..size]
    }

    /** Sorted, no block twice, and no block lost. */
    ghost predicate Valid()
      reads this, data
    {
      && data.Length == POOL_SIZE && size <= POOL_SIZE && Sorted(Items()) && Distinct(Items())
      && Small(Items()) && Parted(live.Keys, Objs(Items()), gone, next)
    }

    constructor ()
      ensures Valid() && Items() == [] && live == map[] && gone == {} && fresh(data)
    {
      data := new Item[POOL_SIZE](_ => Item(0, 0));
      size, next, live, gone := 0, 0, map[], {};
    }

    /** objpool_binary_search */
    method BinarySearch(appsize: nat) returns (pos: nat)
      requires size <= data.Length && Sorted(Items())
      ensures Fits(Items(), pos, appsize)
    {
      var pmin, pmax := 0, size - 1;
      while pmin <= pmax
        invariant 0 <= pmin <= pmax + 1 <= size
        invariant forall i | 0 <= i < pmin :: data[i].appsize < appsize
        invariant forall i | pmax < i < size :: appsize < data[i].appsize
        decreases pmax - pmin
      {
        var mid := (pmax + pmin) / 2;
        assert Items()[mid] == data[mid] && forall i | 0 <= i < size :: Items()[i] == data[i];
        if data[mid].appsize == appsize { return mid; }
        else if data[mid].appsize < appsize { pmin := mid + 1; }
        else { pmax := mid - 1; }
      }
      pos := pmin;
    }

    /** memmove towards the start: item `pos` goes. */
    method RemoveAt(pos: nat)
      requires pos < size <= data.Length
      modifies `size, data
      ensures size == old(size) - 1 && Items() == old(Items()[..pos] + Items()[pos + 1..])
    {
      ghost var s := Items();
      size := size - 1;
      var i := pos;
      while i < size
        invariant pos <= i <= size && size == |s| - 1
        invariant forall k | 0 <= k < pos :: data[k] == s[k]
        invariant forall k | pos <= k < i :: data[k] == s[k + 1]
        invariant forall k | i <= k <= size :: data[k] == s[k]
      {
        data[i] := data[i + 1];
        i := i + 1;
      }
    }

    /** memmove towards the end, then the new item. */
    method InsertAt(pos: nat, item: Item)
      requires pos <= size < data.Length
      modifies `size, data
      ensures size == old(size) + 1 && Items() == old(Items()[..pos]) + [item] + old(Items()[pos..])
    {
      ghost var s := Items();
      var i := size;
      while i > pos
        invariant pos <= i <= size && size == |s|
        invariant forall k | 0 <= k < size :: k < i ==> data[k] == s[k]
        invariant forall k | 0 <= k <= size :: k > i ==> data[k] == s[k - 1]
      {
        data[i] := data[i - 1];
        i := i - 1;
      }
      data[pos] := item;
      size := size + 1;
    }

    /** The start of var_create_obj: a pooled block of exactly this size, or a new one. */
    method Alloc(appsize: nat) returns (obj: nat)
      requires Valid()
      modifies `size, `next, `live, data
      ensures Valid() && gone == old(gone) && obj !in old(live) && live == old(live)[obj := appsize]
      ensures var s := old(Items());
              if appsize <= 256 && exists i | 0 <= i < |s| :: s[i].appsize == appsize then
                exists i :: 0 <= i < |s| && s[i] == Item(obj, appsize) && Items() == s[..i] + s[i + 1..]
                    && next == old(next)
              else
                obj == old(next) && Items() == s && next == old(next) + 1
    {
      hide Sorted, Distinct, Objs, Small;
      ghost var s := Items();
      if appsize <= MAX_APPMEM {
        var pos := BinarySearch(appsize);
        if pos < size && data[pos].appsize == appsize {
          obj := data[pos].obj;
          assert s[pos] == Item(obj, appsize);
          Without(s, pos);
          SmallWithout(s, pos);
          RemoveAt(pos);
          live := live[obj := appsize];
          return;
        }
      }
      obj := next;
      next := next + 1;
      live := live[obj := appsize];
    }

    /** A small block goes to the pool; if it is full, the block in its place is dropped. */
    method Pool(obj: nat, appsize: nat) returns (full: bool, dropped: nat)
      requires data.Length == POOL_SIZE && size <= POOL_SIZE && Sorted(Items()) && Distinct(Items())
               && obj !in Objs(Items())
      modifies `size, data
      ensures size <= POOL_SIZE && Sorted(Items()) && Distinct(Items()) && full == (old(size) == POOL_SIZE)
      ensures old(Small(Items())) && appsize <= MAX_APPMEM ==> Small(Items())
      ensures Objs(Items()) == old(Objs(Items())) - (if full then {dropped} else {}) + {obj}
              && (full ==> dropped in old(Objs(Items())))
      ensures !full ==> exists pos ::
              Fits(old(Items()), pos, appsize)
              && Items() == old(Items())[..pos] + [Item(obj, appsize)] + old(Items())[pos..]
      ensures full ==> exists at ::
              Fits(old(Items()), at, appsize)
              && var pos := if at < 64 then at else 63;
                Items() == old(Items())[pos := Item(obj, appsize)] && dropped == old(Items())[pos].obj
    {
      ghost var s := Items();
      var pos := 0;
      if size > 0 { pos := BinarySearch(appsize); }
      assert Fits(s, pos, appsize);
      full, dropped := size >= POOL_SIZE, 0;
      if !full {
        With(s, pos, Item(obj, appsize));
        InsertAt(pos, Item(obj, appsize));
      } else {
        ghost var at := pos;
        if pos >= POOL_SIZE { pos := POOL_SIZE - 1; }
        Replaced(s, pos, at, Item(obj, appsize));
        dropped := data[pos].obj;
        data[pos] := Item(obj, appsize);
        assert Items() == s[pos := Item(obj, appsize)];
      }
    }

    /** The end of var_free_object: small blocks go to the pool, large ones are given back. */
    method Free(obj: nat, appsize: nat)
      requires Valid() && obj in live && live[obj] == appsize
      modifies `size, `live, `gone, data
      ensures Valid() && live == old(live) - {obj} && next == old(next)
      ensures appsize > 256 ==> Items() == old(Items()) && gone == old(gone) + {obj}
      ensures appsize <= 256 && old(size) < 64 ==>
                gone == old(gone) && exists pos ::
                    Fits(old(Items()), pos, appsize)
                    && Items() == old(Items())[..pos] + [Item(obj, appsize)] + old(Items())[pos..]
      ensures appsize <= 256 && old(size) >= 64 ==>
                exists at ::
                    Fits(old(Items()), at, appsize)
                    && var pos := if at < 64 then at else 63;
                      Items() == old(Items())[pos := Item(obj, appsize)] && gone == old(gone) + {old(Items())[pos].obj}
    {
      hide Sorted, Distinct, Objs, Small, Fits;
      live := live - {obj};
      if appsize <= MAX_APPMEM {
        var full, dropped := Pool(obj, appsize);
        if full { gone := gone + {dropped}; }
      } else {
        gone := gone + {obj};
      }
    }
  }
}
