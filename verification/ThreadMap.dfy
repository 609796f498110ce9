/** Thread objects: the linked-list map that is shared between threads, its compare-and-set,
    and starting.  Every operation runs under the object's lock, so a run of many threads is
    a sequence of these operations in some order. */
module ThreadMap {

  datatype RunState = Init | Running | Finished

  /** ppmapitem_t: key and value lie in one buffer. */
  class MapItem {
    var data: string
    var keysize: nat
    var next: MapItem?

    constructor (key: string, value: string, next: MapItem?)
      ensures data == key + value && keysize == |key| && this.next == next
    {
      data, keysize, this.next := key + value, |key|, next;
    }

    predicate Ok()
      reads this
    {
      keysize <= |data|
    }

    function Key(): string
      reads this
      requires Ok()
    {
      data[..keysize]
    }

    function Value(): string
      reads this
      requires Ok()
    {
      data[keysize..]
    }
  }

  /** The result of a compare-and-set. */
  datatype Outcome = NotFound | Swapped | Differs

  function Compare(m: map<string, string>, key: string, wanted: string): Outcome {
    if key !in m then NotFound else if m[key] == wanted then Swapped else Differs
  }

  /** `nodes` are the items of the list that begins with `first`. */
  ghost predicate Chain(first: MapItem?, nodes: seq<MapItem>)
    reads set n | n in nodes :: n`next
    decreases |nodes|
  {
    if nodes == [] then first == null
    else
      assert nodes[0] in nodes && forall n | n in nodes[1..] :: n in nodes;
      first == nodes[0] && Chain(nodes[0].next, nodes[1..])
  }

  ghost predicate AllOk(nodes: seq<MapItem>)
    reads nodes
  {
    forall i | 0 <= i < |nodes| :: nodes[i].Ok()
  }

  datatype Pair = Pair(key: string, value: string)

  ghost function Pairs(nodes: seq<MapItem>): (r: seq<Pair>)
    requires AllOk(nodes)
    reads nodes
    ensures |r| == |nodes| && forall i | 0 <= i < |nodes| :: r[i] == Pair(nodes[i].Key(), nodes[i].Value())
  {
    if nodes == [] then [] else [Pair(nodes[0].Key(), nodes[0].Value())] + Pairs(nodes[1..])
  }

  predicate DistinctKeys(ps: seq<Pair>) {
    forall i, j | 0 <= i < j < |ps| :: ps[i].key != ps[j].key
  }

  function MapOf(ps: seq<Pair>): map<string, string> {
    if ps == [] then map[] else MapOf(ps[1..])[ps[0].key := ps[0].value]
  }

  lemma {:induction false} MapHas(ps: seq<Pair>, key: string)
    ensures key in MapOf(ps) <==> exists i :: 0 <= i < |ps| && ps[i].key == key
    decreases |ps|
  {
    if ps != [] {
      MapHas(ps[1..], key);
      assert forall i | 0 < i < |ps| :: ps[i] == ps[1..][i - 1];
      if key in MapOf(ps[1..]) {
        var i :| 0 <= i < |ps[1..]| && ps[1..][i].key == key;
        assert ps[i + 1].key == key;
      }
    }
  }

  lemma {:induction false} MapAt(ps: seq<Pair>, i: nat)
    requires DistinctKeys(ps) && i < |ps|
    ensures ps[i].key in MapOf(ps) && MapOf(ps)[ps[i].key] == ps[i].value
    decreases |ps|
  {
    if i > 0 { MapAt(ps[1..], i - 1); }
  }

  lemma {:induction false} MapChanged(ps: seq<Pair>, i: nat, value: string)
    requires DistinctKeys(ps) && i < |ps|
    ensures MapOf(ps[i := Pair(ps[i].key, value)]) == MapOf(ps)[ps[i].key := value]
    decreases |ps|
  {
    var qs := ps[i := Pair(ps[i].key, value)];
    if i == 0 {
      assert qs[1..] == ps[1..];
    } else {
      assert qs[1..] == ps[1..][i - 1 := Pair(ps[i].key, value)];
      MapChanged(ps[1..], i - 1, value);
    }
  }

  lemma KeysStay(ps: seq<Pair>, i: nat, value: string)
    requires DistinctKeys(ps) && i < |ps|
    ensures DistinctKeys(ps[i := Pair(ps[i].key, value)])
  {
  }

  lemma OnlyAt(nodes: seq<MapItem>, i: nat)
    requires AllOk(nodes) && DistinctKeys(Pairs(nodes)) && i < |nodes|
    ensures forall j | 0 <= j < |nodes| && j != i :: nodes[j] != nodes[i]
  {
    hide Pairs;
    var ps := Pairs(nodes);
    assert forall j | 0 <= j < |nodes| && j != i :: ps[j].key != ps[i].key;
  }

  lemma MapPrepended(ps: seq<Pair>, key: string, value: string)
    ensures MapOf([Pair(key, value)] + ps) == MapOf(ps)[key := value]
  {
    assert ([Pair(key, value)] + ps)[1..] == ps;
  }

  class ThreadObject {
    var state: RunState
    /** The creating thread, and the thread that was started, or the creator as long as none was. */
    var self: int
    var thread: int
    var items: MapItem?
    ghost var nodes: seq<MapItem>
    /** The handles of the threads that were started, as the system gave them. */
    ghost var handles: seq<int>

    ghost predicate Valid()
      reads this, nodes
    {
      && Chain(items, nodes) && AllOk(nodes) && DistinctKeys(Pairs(nodes))
      && thread == (if handles == [] then self else handles[|handles| - 1]) && (state == Init <==> handles == [])
      && forall i | 0 <= i < |handles| - 1 :: handles[i] == self
    }

    ghost function Contents(): map<string, string>
      requires Valid()
      reads this, nodes
    {
      MapOf(Pairs(nodes))
    }

    /** ppthread_create, called by thread `creator` */
    constructor (creator: int)
      ensures Valid() && Contents() == map[] && handles == [] && self == creator && state == Init
      ensures nodes == []
    {
      state, self, thread, items, nodes, handles := Init, creator, creator, null, [], [];
    }

    /** ppthread_map_find */
    method Find(key: string) returns (item: MapItem?)
      requires Valid()
      ensures item == null <==> key !in Contents()
      ensures item != null ==> item in nodes && item.Key() == key && item.Value() == Contents()[key]
    {
      hide MapOf;
      ghost var ps := Pairs(nodes);
      item := items;
      ghost var i := 0;
      while item != null
        invariant i <= |nodes| && Chain(item, nodes[i..])
        invariant forall j | 0 <= j < i :: nodes[j].Key() != key
        decreases |nodes| - i
      {
        assert item == nodes[i] && nodes[i..][1..] == nodes[i + 1..];
        if item.keysize == |key| && item.data[..item.keysize] == key {
          assert item.Key() == key && ps[i] == Pair(key, item.Value());
          MapAt(ps, i);
          return;
        }
        item := item.next;
        i := i + 1;
      }
      MapHas(ps, key);
    }

    /** ppthread_map_set */
    method Put(key: string, value: string)
      requires Valid()
      modifies `items, `nodes, nodes
      ensures Valid() && Contents() == old(Contents())[key := value]
      ensures forall n | n in nodes :: n in old(nodes) || fresh(n)
    {
      var item := Find(key);
      if item != null {
        ghost var i :| 0 <= i < |nodes| && nodes[i] == item;
        Replace(item, key, value, i);
      } else {
        Prepend(key, value);
      }
    }

    method Replace(item: MapItem, key: string, value: string, ghost i: nat)
      requires Valid() && i < |nodes| && nodes[i] == item && item.Key() == key
      modifies item`data
      ensures Valid() && Contents() == old(Contents())[key := value]
    {
      hide MapOf, Chain, DistinctKeys, Pairs;
      ghost var ps := Pairs(nodes);
      MapChanged(ps, i, value);
      OnlyAt(nodes, i);
      item.data := key + value;
      assert item.Key() == key && item.Value() == value;
      assert Pairs(nodes) == ps[i := Pair(key, value)];
      KeysStay(ps, i, value);
    }

    method Prepend(key: string, value: string)
      requires Valid() && key !in Contents()
      modifies `items, `nodes
      ensures Valid() && Contents() == old(Contents())[key := value]
      ensures forall n | n in nodes :: n in old(nodes) || fresh(n)
    {
      hide MapOf;
      ghost var was, ps := nodes, Pairs(nodes);
      MapHas(ps, key);
      items := new MapItem(key, value, items);
      assert items.Key() == key && items.Value() == value;
      nodes := [items] + nodes;
      assert nodes[1..] == was && nodes[0] == items;
      assert Pairs(nodes) == [Pair(key, value)] + ps;
      MapPrepended(ps, key, value);
    }

    /** ppthreadI_get */
    method GetValue(key: string) returns (found: bool, value: string)
      requires Valid()
      ensures found <==> key in Contents()
      ensures found ==> value == Contents()[key]
    {
      var item := Find(key);
      if item == null { return false, ""; }
      found, value := true, item.data[item.keysize..];
    }

    /** ppthreadI_set_if */
    method SetIf(key: string, value: string, wanted: string) returns (r: Outcome)
      requires Valid()
      modifies `items, `nodes, nodes
      ensures Valid() && (r == NotFound <==> key !in old(Contents()))
      ensures r == Swapped <==> key in old(Contents()) && old(Contents())[key] == wanted
      ensures Contents() == if r == Swapped then old(Contents())[key := value] else old(Contents())
      ensures forall n | n in nodes :: n in old(nodes) || fresh(n)
    {
      var item := Find(key);
      if item == null { return NotFound; }
      if item.data[item.keysize..] != wanted { return Differs; }
      Put(key, value);
      r := Swapped;
    }

    /** ppthread_start; `handle` is what the system calls the new thread.  As long as no handle
        is the creator's, the object starts one thread and no other; it can be started again
        exactly if the last one was and that thread has ended. */
    method Start(handle: int) returns (ret: bool)
      requires Valid()
      modifies `state, `thread, `handles
      ensures Valid() && handles != [] && handles == if ret then old(handles) + [handle] else old(handles)
      ensures ret <==> old(handles == [] || (state != Running && handles[|handles| - 1] == self))
      ensures ret ==> state == Running
      ensures self !in handles ==> |handles| == 1
    {
      hide Chain, AllOk, Pairs, DistinctKeys;
      assert |handles| > 1 ==> handles[0] in handles;
      if self != thread { return false; }
      if state == Running { return false; }
      state := Running;
      thread := handle;
      handles := handles + [handle];
      ret := true;
    }

    /** The end of ppthread_threadfunc, in a thread that was started. */
    method Finish()
      requires Valid() && handles != []
      modifies `state
      ensures Valid() && state == Finished
    {
      state := Finished;
    }
  }

  /* ---- many threads counting ---- */

  /** What happens next: a thread reads the counter, a thread tries to write what it read plus
      one, or anybody does anything to other keys. */
  datatype Action = Read(t: nat) | Try(t: nat) | Other(key: string, value: string)

  /** How numbers are serialized. */
  datatype Codec = Codec(text: int -> string, parse: string -> int)

  ghost predicate Faithful(c: Codec) {
    forall n :: c.parse(c.text(n)) == n
  }

  /** What a thread has read last, and how many increments had succeeded by then. */
  datatype Note = Note(n: int, after: nat)

  /** The map, what each thread has read last, and which threads' set_if succeeded, in order. */
  datatype World = World(m: map<string, string>, seen: map<nat, Note>, won: seq<nat>)

  function Act(c: Codec, key: string, w: World, a: Action): World {
    match a
    case Read(t) => if key in w.m then w.(seen := w.seen[t := Note(c.parse(w.m[key]), |w.won|)]) else w
    case Try(t) =>
      if t !in w.seen then w
      else
        var n := w.seen[t].n;
        if Compare(w.m, key, c.text(n)) == Swapped then World(w.m[key := c.text(n + 1)], w.seen - {t}, w.won + [t])
        else w.(seen := w.seen - {t})
    case Other(k, v) => if k == key then w else w.(m := w.m[k := v])
  }

  function Run(c: Codec, key: string, w: World, schedule: seq<Action>): World
    decreases |schedule|
  {
    if schedule == [] then w else Run(c, key, Act(c, key, w, schedule[0]), schedule[1..])
  }

  ghost predicate Counting(c: Codec, key: string, start: int, w: World) {
    && key in w.m && w.m[key] == c.text(start + |w.won|)
    && forall t | t in w.seen :: w.seen[t].n == start + w.seen[t].after && w.seen[t].after <= |w.won|
  }

  /** In every interleaving the counter is its first value plus the number of increments that
      were reported as successful: none is lost and none counts twice. */
  lemma {:induction false} NoLostUpdate(c: Codec, key: string, start: int, w: World, schedule: seq<Action>)
    requires Faithful(c) && Counting(c, key, start, w)
    ensures Counting(c, key, start, Run(c, key, w, schedule))
    ensures Run(c, key, w, schedule).m[key] == c.text(start + |Run(c, key, w, schedule).won|)
    decreases |schedule|
  {
    if schedule != [] {
      var a := schedule[0];
      var v := Act(c, key, w, a);
      if a.Try? && a.t in w.seen { TrySucceeds(c, key, start, w, a.t); }
      NoLostUpdate(c, key, start, v, schedule[1..]);
    }
  }

  /** An attempt succeeds exactly if nobody else's has since the thread's read: a failed
      attempt means that another thread made progress. */
  lemma TrySucceeds(c: Codec, key: string, start: int, w: World, t: nat)
    requires Faithful(c) && Counting(c, key, start, w) && t in w.seen
    ensures Compare(w.m, key, c.text(w.seen[t].n)) != NotFound
    ensures Compare(w.m, key, c.text(w.seen[t].n)) == Swapped <==> w.seen[t].after == |w.won|
  {
    assert c.parse(c.text(w.seen[t].n)) == w.seen[t].n;
    assert c.parse(w.m[key]) == start + |w.won|;
  }

  /** One action, done with the object's methods. */
  method Perform(o: ThreadObject, c: Codec, key: string, a: Action, seen0: map<nat, Note>, won0: seq<nat>)
    returns (seen: map<nat, Note>, won: seq<nat>)
    requires o.Valid()
    modifies o`items, o`nodes, o.nodes
    ensures o.Valid() && World(o.Contents(), seen, won) == Act(c, key, World(old(o.Contents()), seen0, won0), a)
    ensures forall n | n in o.nodes :: n in old(o.nodes) || fresh(n)
  {
    hide Chain, AllOk, Pairs, MapOf, DistinctKeys;
    seen, won := seen0, won0;
    match a
    case Read(t) =>
      var found, value := o.GetValue(key);
      if found { seen := seen[t := Note(c.parse(value), |won|)]; }
    case Try(t) =>
      if t in seen {
        var n := seen[t].n;
        var r := o.SetIf(key, c.text(n + 1), c.text(n));
        seen := seen - {t};
        if r == Swapped { won := won + [t]; }
      }
    case Other(k, v) => if k != key { o.Put(k, v); }
  }

  /** Threads that work on a shared object in any order: no increment of its counter is lost. */
  method PerformAll(o: ThreadObject, c: Codec, key: string, schedule: seq<Action>, ghost start: int)
    returns (seen: map<nat, Note>, won: seq<nat>)
    requires o.Valid() && Faithful(c) && key in o.Contents() && o.Contents()[key] == c.text(start)
    modifies o`items, o`nodes, o.nodes
    ensures o.Valid() && World(o.Contents(), seen, won) == Run(c, key, World(old(o.Contents()), map[], []), schedule)
    ensures key in o.Contents() && o.Contents()[key] == c.text(start + |won|)
  {
    hide Act, Chain, AllOk, Pairs, MapOf, DistinctKeys;
    ghost var w := World(o.Contents(), map[], []);
    seen, won := map[], [];
    NoLostUpdate(c, key, start, w, schedule);
    var i := 0;
    assert schedule[0..] == schedule;
    while i < |schedule|
      invariant i <= |schedule| && o.Valid()
      invariant forall k | 0 <= k < |o.nodes| :: o.nodes[k] in old(o.nodes) || fresh(o.nodes[k])
      invariant Run(c, key, World(o.Contents(), seen, won), schedule[i..]) == Run(c, key, w, schedule)
    {
      assert schedule[i..][0] == schedule[i] && schedule[i..][1..] == schedule[i + 1..];
      label Before:
      seen, won := Perform(o, c, key, schedule[i], seen, won);
      forall k | 0 <= k < |o.nodes| ensures o.nodes[k] in old(o.nodes) || fresh(o.nodes[k]) {
        var n := o.nodes[k];
        assert n in o.nodes;
        if n in old@Before(o.nodes) { var j :| 0 <= j < |old@Before(o.nodes)| && old@Before(o.nodes)[j] == n; }
      }
      i := i + 1;
    }
  }
}
