/** The connection table as the data plane keeps it: a map from keys to nodes of a slab, a list of the
    nodes in use linked through them, and a list of the free ones. */
module ConnTrack {
  import opened Bytes
  import opened Lru
  import opened Slab

  /** Every key of the map leads to a listed node with that key. */
  ghost predicate LeadsToList(nodes: seq<Node>, order: seq<nat>, index: map<FiveTuple, nat>) {
    forall k :: k in index ==> index[k] in order && index[k] < |nodes| && nodes[index[k]].key == k
  }

  /** Every listed node is where its key leads. */
  ghost predicate FoundByKey(nodes: seq<Node>, order: seq<nat>, index: map<FiveTuple, nat>)
    requires InSlab(nodes, order)
  {
    forall i: nat :: i < |order| ==> nodes[order[i]].key in index && index[nodes[order[i]].key] == order[i]
  }

  /** The map sends exactly the keys of the listed nodes to their nodes. */
  ghost predicate Indexed(nodes: seq<Node>, order: seq<nat>, index: map<FiveTuple, nat>)
    requires InSlab(nodes, order)
  {
    |index| == |order| && LeadsToList(nodes, order, index) && FoundByKey(nodes, order, index)
  }

  /** Every node is either listed, and flagged as used, or free. */
  ghost predicate Split(nodes: seq<Node>, order: seq<nat>, free: seq<nat>)
    requires InSlab(nodes, order)
  {
    && |free| + |order| == |nodes|
    && InSlab(nodes, free) && Distinct(free)
    && (forall i: nat :: i < |order| ==> nodes[order[i]].used)
    && (forall i: nat :: i < |free| ==> !nodes[free[i]].used)
  }

  // ----- keeping map, list and free list in step -----

  lemma KeyAt(nodes: seq<Node>, order: seq<nat>, index: map<FiveTuple, nat>, i: nat, j: nat)
    requires InSlab(nodes, order) && Indexed(nodes, order, index) && i < |order| && j < |order|
    ensures nodes[order[i]].key == nodes[order[j]].key <==> order[i] == order[j]
  {
  }

  lemma FoundWithout(nodes: seq<Node>, nodes': seq<Node>, order: seq<nat>, p: nat, index: map<FiveTuple, nat>)
    requires InSlab(nodes, order) && Distinct(order) && p < |order| && FoundByKey(nodes, order, index)
    requires SameData(nodes, nodes')
    ensures InSlab(nodes', Without(order, p))
    ensures FoundByKey(nodes', Without(order, p), index - {nodes[order[p]].key})
  {
    hide Without, Distinct;
    var rest, index' := Without(order, p), index - {nodes[order[p]].key};
    forall i: nat | i < |rest|
      ensures nodes'[rest[i]].key in index' && index'[nodes'[rest[i]].key] == rest[i]
    {
      var k := if i < p then i else i + 1;
      Differ(order, k, p);
      assert Stored(nodes'[rest[i]]) == Stored(nodes[rest[i]]);
    }
  }

  lemma LeadsWithout(nodes: seq<Node>, nodes': seq<Node>, order: seq<nat>, p: nat, index: map<FiveTuple, nat>)
    requires InSlab(nodes, order) && p < |order| && LeadsToList(nodes, order, index) && SameData(nodes, nodes')
    ensures LeadsToList(nodes', Without(order, p), index - {nodes[order[p]].key})
  {
    hide Without;
    var rest, index' := Without(order, p), index - {nodes[order[p]].key};
    forall k | k in index' ensures index'[k] in rest && nodes'[index'[k]].key == k {
      var i: nat :| i < |order| && order[i] == index[k];
      assert rest[if i < p then i else i - 1] == order[i];
      assert Stored(nodes'[index[k]]) == Stored(nodes[index[k]]);
    }
  }

  lemma IndexedWithout(nodes: seq<Node>, nodes': seq<Node>, order: seq<nat>, p: nat, index: map<FiveTuple, nat>)
    requires InSlab(nodes, order) && Distinct(order) && p < |order| && Indexed(nodes, order, index)
    requires SameData(nodes, nodes')
    ensures InSlab(nodes', Without(order, p))
    ensures Indexed(nodes', Without(order, p), index - {nodes[order[p]].key})
  {
    hide Without, LeadsToList, Distinct;
    assert nodes[order[p]].key in index;
    hide FoundByKey;
    FoundWithout(nodes, nodes', order, p, index);
    LeadsWithout(nodes, nodes', order, p, index);
    assert index.Keys == (index - {nodes[order[p]].key}).Keys + {nodes[order[p]].key};
  }

  lemma IndexedPush(nodes: seq<Node>, nodes': seq<Node>, order: seq<nat>, x: nat, key: FiveTuple, index: map<FiveTuple, nat>)
    requires InSlab(nodes, order) && Indexed(nodes, order, index) && key !in index
    requires x < |nodes'| && nodes'[x].key == key && |nodes| <= |nodes'|
    requires forall i: nat :: i < |order| ==> nodes'[order[i]].key == nodes[order[i]].key
    ensures InSlab(nodes', [x] + order) && Indexed(nodes', [x] + order, index[key := x])
  {
    var order', index' := [x] + order, index[key := x];
    forall k | k in index' ensures index'[k] in order' && index'[k] < |nodes'| && nodes'[index'[k]].key == k {
      if k != key {
        var i: nat :| i < |order| && order[i] == index[k];
        assert order'[i + 1] == order[i];
      } else {
        assert order'[0] == x;
      }
    }
    forall i: nat | i < |order'| ensures nodes'[order'[i]].key in index' && index'[nodes'[order'[i]].key] == order'[i] {
      if i > 0 {
        assert order'[i] == order[i - 1];
      }
    }
  }

  lemma SplitWithout(nodes: seq<Node>, nodes': seq<Node>, order: seq<nat>, p: nat, free: seq<nat>)
    requires InSlab(nodes, order) && Distinct(order) && p < |order| && Split(nodes, order, free)
    requires |nodes'| == |nodes|
    requires forall i: nat :: i < |nodes| ==> nodes'[i].used == (nodes[i].used && i != order[p])
    ensures InSlab(nodes', Without(order, p)) && Split(nodes', Without(order, p), free + [order[p]])
  {
    hide Without, Distinct;
    var rest, free' := Without(order, p), free + [order[p]];
    assert Distinct(free') by { SnocDistinct(free, order[p]); }
    forall i: nat | i < |rest| ensures nodes'[rest[i]].used {
      Differ(order, if i < p then i else i + 1, p);
    }
    forall i: nat | i < |free'| ensures !nodes'[free'[i]].used {
      if i < |free| { assert free'[i] == free[i]; }
    }
  }

  lemma SnocDistinct(s: seq<nat>, x: nat)
    requires Distinct(s) && x !in s
    ensures Distinct(s + [x])
  {
  }

  lemma SplitReuse(nodes: seq<Node>, nodes': seq<Node>, order: seq<nat>, free: seq<nat>)
    requires InSlab(nodes, order) && Split(nodes, order, free) && free != [] && |nodes'| == |nodes|
    requires forall i: nat :: i < |nodes| ==> nodes'[i].used == (nodes[i].used || i == free[|free| - 1])
    ensures InSlab(nodes', [free[|free| - 1]] + order)
    ensures Split(nodes', [free[|free| - 1]] + order, free[..|free| - 1])
  {
    var order', free' := [free[|free| - 1]] + order, free[..|free| - 1];
    forall i: nat | i < |order'| ensures nodes'[order'[i]].used {
      if i > 0 { assert order'[i] == order[i - 1]; }
    }
  }

  lemma SplitGrow(nodes: seq<Node>, nodes': seq<Node>, order: seq<nat>)
    requires InSlab(nodes, order) && Split(nodes, order, []) && |nodes'| == |nodes| + 1
    requires forall i: nat :: i < |nodes'| ==> nodes'[i].used == (i == |nodes| || nodes[i].used)
    ensures InSlab(nodes', [|nodes|] + order) && Split(nodes', [|nodes|] + order, [])
  {
    var order' := [|nodes|] + order;
    forall i: nat | i < |order'| ensures nodes'[order'[i]].used {
      if i > 0 { assert order'[i] == order[i - 1]; }
    }
  }

  /** Taking a listed node out, by key, is the same as taking its connection out. */
  lemma ContentsWithout(nodes: seq<Node>, order: seq<nat>, p: nat, index: map<FiveTuple, nat>)
    requires InSlab(nodes, order) && Distinct(order) && p < |order| && Indexed(nodes, order, index)
    ensures InSlab(nodes, Without(order, p))
    ensures Contents(nodes, Without(order, p)) == Others(Contents(nodes, order), nodes[order[p]].key)
  {
    hide Without, Drop, Distinct;
    DropAt(order, p);
    forall i: nat | i < |order|
      ensures order[i] in {order[p]} <==> !Keeps(NotKey(nodes[order[p]].key), Stored(nodes[order[i]]))
    {
      KeyAt(nodes, order, index, i, p);
    }
    ContentsDrop(nodes, order, {order[p]}, NotKey(nodes[order[p]].key));
  }

  class ConnTrack {
    var index: map<FiveTuple, nat>
    var nodes: seq<Node>
    var free: seq<nat>
    var head: nat
    var tail: nat
    const capacity: nat
    const timeout: nat
    var evictions: nat
    /** The nodes in use, latest first: the list that the links spell out. */
    ghost var order: seq<nat>

    ghost predicate List()
      reads this
    {
      && Indices(nodes, order) && Linked(nodes, order)
      && head == First(order) && tail == Last(order)
    }

    ghost predicate Valid()
      reads this
    {
      && List()
      && Indexed(nodes, order, index)
      && Split(nodes, order, free)
      && 0 < capacity <= NIL && |nodes| <= capacity
    }

    /** The table as its callers know it. */
    ghost function Conns(): seq<Conn>
      requires InSlab(nodes, order)
      reads this
    {
      Contents(nodes, order)
    }

    constructor (capacity: nat, timeout: nat)
      requires 0 < capacity <= NIL
      ensures Valid() && Conns() == [] && evictions == 0 && this.capacity == capacity && this.timeout == timeout
    {
      index, nodes, free, head, tail := map[], [], [], NIL, NIL;
      this.capacity, this.timeout, evictions, order := capacity, timeout, 0, [];
    }

    method PushHead(x: nat)
      requires List() && x < |nodes| && x !in order
      modifies this`nodes, this`head, this`tail, this`order
      ensures List() && order == [x] + old(order)
      ensures |nodes| == old(|nodes|) && SameData(old(nodes), nodes) && SameFlags(old(nodes), nodes)
    {
      hide Linked, Distinct, Pushed, SameData, SameFlags;
      Pushes(nodes, order, x);
      PushedData(nodes, order, x);
      PushedInSteps(nodes, order, x);
      nodes := nodes[x := nodes[x].(prev := NIL)];
      nodes := nodes[x := nodes[x].(next := head)];
      if head != NIL {
        nodes := nodes[head := nodes[head].(prev := x)];
      }
      head := x;
      if tail == NIL {
        tail := x;
      }
      order := [x] + order;
    }

    method Unlink(x: nat, ghost p: nat)
      requires List() && p < |order| && order[p] == x
      modifies this`nodes, this`head, this`tail, this`order
      ensures List() && order == Without(old(order), p)
      ensures |nodes| == old(|nodes|) && SameData(old(nodes), nodes) && SameFlags(old(nodes), nodes)
    {
      hide Linked, Distinct, Unlinked, SameData, SameFlags, SetNext, SetPrev, Without;
      Unlinks(nodes, order, p);
      UnlinkedData(nodes, order, p);
      UnlinkedInSteps(nodes, order, p);
      LinksAt(nodes, order, p);
      var prev, next := nodes[x].prev, nodes[x].next;
      if prev != NIL {
        nodes := nodes[prev := nodes[prev].(next := next)];
      } else {
        head := next;
      }
      if next != NIL {
        nodes := nodes[next := nodes[next].(prev := prev)];
      } else {
        tail := prev;
      }
      order := Without(order, p);
    }

    method MoveToHead(x: nat, ghost p: nat)
      requires List() && p < |order| && order[p] == x
      modifies this`nodes, this`head, this`tail, this`order
      ensures List() && order == [x] + Without(old(order), p)
      ensures |nodes| == old(|nodes|) && SameData(old(nodes), nodes) && SameFlags(old(nodes), nodes)
    {
      hide Linked, Without, SameData, SameFlags;
      if head == x {
        AlreadyFirst(order, p);
        Untouched(nodes);
        return;
      }
      WithoutLacks(order, p);
      Unlink(x, p);
      ghost var nodes1 := nodes;
      PushHead(x);
      DataTwice(old(nodes), nodes1, nodes);
    }

    method RemoveAt(x: nat, ghost p: nat)
      requires Valid() && p < |order| && order[p] == x
      modifies this`nodes, this`head, this`tail, this`order, this`index, this`free
      ensures Valid() && order == Without(old(order), p)
      ensures |nodes| == old(|nodes|) && SameData(old(nodes), nodes) && index == old(index) - {old(nodes)[x].key}
    {
      hide Linked, Without, SameData, SameFlags, Indexed, Split;
      Unlink(x, p);
      ghost var nodes1 := nodes;
      KeyKept(old(nodes), nodes1, x);
      var key := nodes[x].key;
      index := index - {key};
      nodes := nodes[x := nodes[x].(used := false)];
      free := free + [x];
      Unflagged(old(nodes), nodes1, x);
      LinksKept(nodes1, nodes, order);
      IndexedWithout(old(nodes), nodes, old(order), p, old(index));
      SplitWithout(old(nodes), nodes, old(order), p, old(free));
    }

    /** Where the list has the node of a key, and what the table then says about the key. */
    ghost method Locate(key: FiveTuple) returns (p: nat)
      requires Valid() && key in index
      ensures p < |order| && order[p] == index[key] && index[key] < |nodes| && nodes[index[key]].key == key
      ensures Find(Conns(), key) == Some(nodes[index[key]].value)
      ensures InSlab(nodes, Without(order, p)) && Contents(nodes, Without(order, p)) == Others(Conns(), key)
    {
      hide Linked, Without, Contents, Split;
      p :| p < |order| && order[p] == index[key];
      forall i: nat | p < i < |order| ensures nodes[order[i]].key != key {
        Differ(order, i, p);
        KeyAt(nodes, order, index, i, p);
      }
      FindStored(nodes, order, p, key);
      ContentsWithout(nodes, order, p, index);
    }

    lemma NotFound(key: FiveTuple)
      requires Valid() && key !in index
      ensures Find(Conns(), key) == None
    {
      hide Linked, Contents, Split;
      FindAbsent(nodes, order, key);
    }

    /** Stores a new value under a key that is in the table, and moves it to the front. */
    method Refresh(x: nat, value: Entry, ghost p: nat)
      requires Valid() && p < |order| && order[p] == x && x < |nodes|
      modifies this`nodes, this`head, this`tail, this`order
      ensures Valid() && InSlab(old(nodes), Without(old(order), p))
      ensures Conns() == [Conn(old(nodes)[x].key, value)] + Contents(old(nodes), Without(old(order), p))
    {
      hide Linked, Without, Contents, Indexed, Split, SameData, SameFlags;
      nodes := nodes[x := nodes[x].(value := value)];
      ghost var nodes1 := nodes;
      LinksKept(old(nodes), nodes1, order);
      MoveToHead(x, p);
      Refreshed(old(nodes), nodes1, nodes, old(order), p, value, index, free);
    }

    method Lookup(key: FiveTuple, now: nat) returns (r: Option<Entry>)
      requires Valid()
      modifies this`nodes, this`head, this`tail, this`order, this`index, this`free
      ensures Valid()
      ensures (Conns(), r) == Lru.Lookup(old(Conns()), timeout, key, now)
    {
      hide Linked, Without, Contents, Indexed, Split, SameData, Others;
      if key !in index {
        NotFound(key);
        return None;
      }
      ghost var p := Locate(key);
      var x := index[key];
      var entry := nodes[x].value;
      if Expired(entry, now, timeout) {
        RemoveAt(x, p);
        SameDataContents(old(nodes), nodes, order);
        return None;
      }
      Refresh(x, entry.(lastSeen := now), p);
      return Some(entry);
    }

    /** Takes a free node, or else a new one at the end of the slab, as a 32-bit index. */
    method AllocNode(key: FiveTuple, value: Entry) returns (x: nat)
      requires Valid() && |order| < capacity
      modifies this`nodes, this`free
      ensures Allocated(old(nodes), old(free), nodes, free, x, Node(key, value, NIL, NIL, true))
    {
      hide Linked, Indexed, Distinct;
      var node := Node(key, value, NIL, NIL, true);
      if free != [] {
        x := free[|free| - 1];
        free := free[..|free| - 1];
        nodes := nodes[x := node];
      } else {
        x := AsU32(|nodes|);
        nodes := nodes + [node];
      }
    }

    /** Puts a new key at the front. */
    method Add(key: FiveTuple, value: Entry)
      requires Valid() && |order| < capacity && key !in index
      modifies this`nodes, this`head, this`tail, this`order, this`index, this`free
      ensures Valid() && Conns() == [Conn(key, value)] + old(Conns())
    {
      hide Linked, Indexed, Split, Allocated, SameData, SameFlags, Contents, Distinct;
      var x := AllocNode(key, value);
      ghost var nodes1 := nodes;
      AllocatedOk(old(nodes), old(free), nodes, free, x, Node(key, value, NIL, NIL, true), order);
      PushHead(x);
      index := index[key := x];
      Added(old(nodes), old(free), nodes1, free, nodes, x, Node(key, value, NIL, NIL, true), old(order), old(index));
    }

    lemma Sizes()
      requires Valid()
      ensures |index| == |order| == |Conns()| <= capacity
    {
      hide Linked, Contents, LeadsToList, FoundByKey;
    }

    /** Removes the connection used longest ago. */
    method Evict()
      requires Valid() && order != []
      modifies this`nodes, this`head, this`tail, this`order, this`index, this`free, this`evictions
      ensures Valid() && Conns() == old(Conns()[..|order| - 1]) && |order| == |old(order)| - 1
      ensures index.Keys <= old(index.Keys) && evictions == old(evictions) + 1
    {
      hide Linked, Without, Contents, Split, SameData, Indexed;
      ContentsFront(nodes, order);
      WithoutLast(order);
      evictions := evictions + 1;
      RemoveAt(tail, |order| - 1);
      SameDataContents(old(nodes), nodes, order);
    }

    method Insert(key: FiveTuple, value: Entry)
      requires Valid()
      modifies this`nodes, this`head, this`tail, this`order, this`index, this`free, this`evictions
      ensures Valid()
      ensures Conns() == Lru.Insert(old(Conns()), capacity, key, value)
      ensures evictions == old(evictions) + if Find(old(Conns()), key).None? && |old(Conns())| >= capacity then 1 else 0
    {
      hide Linked, Without, Contents, Split, SameData, Others, Indexed, Find, Distinct;
      Sizes();
      if key in index {
        ghost var p := Locate(key);
        Refresh(index[key], value, p);
        return;
      }
      NotFound(key);
      if |index| >= capacity {
        Evict();
      }
      Add(key, value);
    }

    predicate Stale(x: nat, now: nat)
      requires x < |nodes|
      reads this
    {
      Expired(nodes[x].value, now, timeout)
    }

    /** The nodes that have expired, in the order in which the map lists its keys. */
    method Victims(now: nat, keys: seq<FiveTuple>) returns (victims: seq<nat>)
      requires Valid() && Enumerates(keys, index)
      ensures Distinct(victims)
      ensures forall x :: x in victims <==> x in order && 0 <= x < |nodes| && Stale(x, now)
    {
      hide Linked, Split;
      victims := [];
      var i := 0;
      while i < |keys|
        invariant i <= |keys| && Distinct(victims)
        invariant forall x :: x in victims ==> x in order && 0 <= x < |nodes| && Stale(x, now) && nodes[x].key in keys[..i]
        invariant forall l: nat :: l < i && Stale(index[keys[l]], now) ==> index[keys[l]] in victims
      {
        var x := index[keys[i]];
        if Stale(x, now) {
          SnocDistinct(victims, x);
          victims := victims + [x];
        }
        i := i + 1;
      }
    }

    /** Removes what has expired, in whatever order the map lists it, and returns how much that was. */
    method SweepExpired(now: nat, keys: seq<FiveTuple>) returns (n: nat)
      requires Valid() && Enumerates(keys, index)
      modifies this`nodes, this`head, this`tail, this`order, this`index, this`free
      ensures Valid() && Conns() == Sweep(old(Conns()), timeout, now)
      ensures n == |old(Conns())| - |Conns()|
    {
      hide Linked, Without, Contents, Split, SameData, Indexed, Drop, Distinct;
      var victims := Victims(now, keys);
      n := |victims|;
      ghost var gone: set<nat> := {};
      Untouched(nodes);
      DropNone(order, gone);
      var i := 0;
      while i < |victims|
        invariant i <= |victims| && Valid() && |order| + i == |old(order)|
        invariant SameData(old(nodes), nodes) && order == Drop(old(order), gone)
        invariant forall x :: x in gone <==> x in victims[..i]
      {
        ghost var before := order;
        ghost var nodes1 := nodes;
        DropHas(old(order), gone, victims[i]);
        assert victims[i] !in victims[..i] by { DistinctPrefix(victims, i); }
        ghost var p: nat :| p < |order| && order[p] == victims[i];
        DropAt(order, p);
        DropTwice(old(order), gone, victims[i]);
        RemoveAt(victims[i], p);
        DataTrans(old(nodes), nodes1, nodes);
        gone := gone + {victims[i]};
        i := i + 1;
      }
      assert victims[..i] == victims;
      Swept(old(nodes), nodes, old(order), gone, now, timeout);
    }
  }

  /** Lists the keys of the map, each once, in some order. */
  ghost predicate Enumerates(keys: seq<FiveTuple>, index: map<FiveTuple, nat>) {
    && (forall k :: k in keys <==> k in index)
    && (forall i: nat, j: nat :: i < j < |keys| ==> keys[i] != keys[j])
  }

  lemma DistinctPrefix(s: seq<nat>, i: nat)
    requires Distinct(s) && i < |s|
    ensures s[i] !in s[..i]
  {
  }

  lemma Swept(a: seq<Node>, b: seq<Node>, order: seq<nat>, gone: set<nat>, now: nat, timeout: nat)
    requires InSlab(a, order) && SameData(a, b)
    requires forall x :: x in gone <==> x in order && 0 <= x < |a| && Expired(a[x].value, now, timeout)
    ensures InSlab(b, Drop(order, gone))
    ensures Contents(b, Drop(order, gone)) == Sweep(Contents(a, order), timeout, now)
  {
    hide Drop, Contents, Expired;
    forall i: nat | i < |order| ensures order[i] in gone <==> !Keeps(Live(now, timeout), Stored(a[order[i]])) {
      assert order[i] in order;
    }
    ContentsDrop(a, order, gone, Live(now, timeout));
    SameDataContents(a, b, Drop(order, gone));
  }

  lemma DataTrans(a: seq<Node>, b: seq<Node>, c: seq<Node>)
    requires SameData(a, b) && SameData(b, c)
    ensures SameData(a, c)
  {
    hide Stored;
  }

  /** What allocation did: node is at x, which was the last free index or else the end of the slab. */
  ghost predicate Allocated(a: seq<Node>, free: seq<nat>, b: seq<Node>, free': seq<nat>, x: nat, node: Node) {
    if free != [] then
      x == free[|free| - 1] && x < |a| && b == a[x := node] && free' == free[..|free| - 1]
    else
      x == |a| && b == a + [node] && free' == []
  }

  lemma AllocatedOk(a: seq<Node>, free: seq<nat>, b: seq<Node>, free': seq<nat>, x: nat, node: Node, order: seq<nat>)
    requires Allocated(a, free, b, free', x, node) && Indices(a, order) && Linked(a, order) && Split(a, order, free)
    requires |order| < NIL
    ensures x < |b| && x !in order && Indices(b, order) && Linked(b, order)
    ensures free == [] ==> |b| == |order| + 1
    ensures free != [] ==> |b| == |a|
  {
    hide Distinct;
    forall i: nat | i < |order| ensures order[i] != x && b[order[i]] == a[order[i]] {
      if free != [] { assert !a[free[|free| - 1]].used; }
    }
    hide Before, After;
  }

  lemma AllocatedData(a: seq<Node>, free: seq<nat>, b: seq<Node>, free': seq<nat>, c: seq<Node>, x: nat, node: Node,
                      order: seq<nat>)
    requires Allocated(a, free, b, free', x, node) && InSlab(a, order) && Split(a, order, free)
    requires SameData(b, c) && SameFlags(b, c)
    ensures |a| <= |c| && x < |c| && Stored(c[x]) == Stored(node) && c[x].used == node.used
    ensures forall i: nat :: i < |order| ==> Stored(c[order[i]]) == Stored(a[order[i]])
  {
    hide Distinct;
    forall i: nat | i < |order| ensures Stored(c[order[i]]) == Stored(a[order[i]]) {
      if free != [] { assert !a[free[|free| - 1]].used; }
      assert b[order[i]] == a[order[i]];
    }
  }

  lemma AllocatedSplit(a: seq<Node>, free: seq<nat>, b: seq<Node>, free': seq<nat>, c: seq<Node>, x: nat, node: Node,
                       order: seq<nat>)
    requires Allocated(a, free, b, free', x, node) && InSlab(a, order) && Split(a, order, free) && node.used
    requires SameFlags(b, c)
    ensures InSlab(c, [x] + order) && Split(c, [x] + order, free')
  {
    if free != [] {
      SplitReuse(a, c, order, free);
    } else {
      SplitGrow(a, c, order);
    }
  }

  lemma Added(a: seq<Node>, free: seq<nat>, b: seq<Node>, free': seq<nat>, c: seq<Node>, x: nat, node: Node,
              order: seq<nat>, index: map<FiveTuple, nat>)
    requires Allocated(a, free, b, free', x, node) && node.used && node.key !in index
    requires InSlab(a, order) && Indexed(a, order, index) && Split(a, order, free)
    requires SameData(b, c) && SameFlags(b, c)
    ensures InSlab(c, [x] + order) && Indexed(c, [x] + order, index[node.key := x]) && Split(c, [x] + order, free')
    ensures Contents(c, [x] + order) == [Stored(node)] + Contents(a, order)
  {
    hide SameData, SameFlags, Allocated, Indexed, Split, Contents;
    AllocatedData(a, free, b, free', c, x, node, order);
    AllocatedSplit(a, free, b, free', c, x, node, order);
    forall i: nat | i < |order| ensures c[order[i]].key == a[order[i]].key {
      assert Stored(c[order[i]]) == Stored(a[order[i]]);
    }
    IndexedPush(a, c, order, x, node.key, index);
    ContentsCons(c, order, x);
    SameContents(a, c, order);
  }

  lemma WithoutLast(order: seq<nat>)
    requires order != []
    ensures Without(order, |order| - 1) == order[..|order| - 1]
  {
  }

  /** order with position p moved to the front. */
  ghost function Rotated(order: seq<nat>, p: nat): (r: seq<nat>)
    requires p < |order|
    ensures |r| == |order|
    ensures forall i: nat {:trigger r[i]} :: i < |r| ==> r[i] == order[if i == 0 then p else if i <= p then i - 1 else i]
  {
    [order[p]] + Without(order, p)
  }

  lemma RotatedHas(order: seq<nat>, p: nat, x: nat)
    requires p < |order| && x in order
    ensures x in Rotated(order, p)
  {
    hide Rotated;
    var i: nat :| i < |order| && order[i] == x;
    assert Rotated(order, p)[if i == p then 0 else if i < p then i + 1 else i] == x;
  }

  /** Keys and flags are the same. */
  ghost predicate SameKeys(a: seq<Node>, b: seq<Node>) {
    |a| == |b| && forall i: nat :: i < |a| ==> b[i].key == a[i].key && b[i].used == a[i].used
  }

  lemma RotatedIndexed(a: seq<Node>, b: seq<Node>, order: seq<nat>, p: nat, index: map<FiveTuple, nat>)
    requires InSlab(a, order) && p < |order| && Indexed(a, order, index) && SameKeys(a, b)
    ensures InSlab(b, Rotated(order, p)) && Indexed(b, Rotated(order, p), index)
  {
    hide Rotated;
    var order' := Rotated(order, p);
    forall k | k in index ensures index[k] in order' && b[index[k]].key == k {
      RotatedHas(order, p, index[k]);
    }
  }

  lemma RotatedSplit(a: seq<Node>, b: seq<Node>, order: seq<nat>, p: nat, free: seq<nat>)
    requires InSlab(a, order) && p < |order| && Split(a, order, free) && SameKeys(a, b)
    ensures InSlab(b, Rotated(order, p)) && Split(b, Rotated(order, p), free)
  {
    hide Rotated, Distinct;
  }

  lemma Overwritten(a: seq<Node>, b: seq<Node>, c: seq<Node>, x: nat, value: Entry)
    requires x < |a| && b == a[x := a[x].(value := value)] && SameData(b, c) && SameFlags(b, c)
    ensures SameKeys(a, c) && Stored(c[x]) == Conn(a[x].key, value)
    ensures forall i: nat :: i < |a| && i != x ==> Stored(c[i]) == Stored(a[i])
  {
    forall i: nat | i < |a| ensures c[i].key == a[i].key && c[i].used == a[i].used {
      assert Stored(c[i]) == Stored(b[i]);
    }
  }

  /** Overwriting a value and moving it to the front changes the contents just so. */
  lemma Refreshed(a: seq<Node>, b: seq<Node>, c: seq<Node>, order: seq<nat>, p: nat, value: Entry,
                  index: map<FiveTuple, nat>, free: seq<nat>)
    requires InSlab(a, order) && Distinct(order) && p < |order| && Indexed(a, order, index) && Split(a, order, free)
    requires b == a[order[p] := a[order[p]].(value := value)] && SameData(b, c) && SameFlags(b, c)
    ensures var order' := [order[p]] + Without(order, p);
      InSlab(c, order') && Indexed(c, order', index) && Split(c, order', free)
    ensures InSlab(a, Without(order, p))
    ensures Contents(c, [order[p]] + Without(order, p)) ==
      [Conn(a[order[p]].key, value)] + Contents(a, Without(order, p))
  {
    hide SameData, SameFlags, SameKeys, Distinct, Without, Indexed, Split, Contents, Stored;
    var x, rest := order[p], Without(order, p);
    Overwritten(a, b, c, x, value);
    SizeKept(a, c);
    assert Rotated(order, p) == [x] + rest;
    RotatedIndexed(a, c, order, p, index);
    RotatedSplit(a, c, order, p, free);
    assert InSlab(a, rest) && InSlab(c, rest);
    ContentsCons(c, rest, x);
    forall i: nat | i < |rest| ensures Stored(c[rest[i]]) == Stored(a[rest[i]]) {
      Differ(order, if i < p then i else i + 1, p);
    }
    SameContents(a, c, rest);
  }

  lemma SizeKept(a: seq<Node>, b: seq<Node>)
    requires SameKeys(a, b)
    ensures |a| == |b|
  {
  }

  lemma SameDataContents(a: seq<Node>, b: seq<Node>, order: seq<nat>)
    requires SameData(a, b) && InSlab(a, order)
    ensures InSlab(b, order) && Contents(b, order) == Contents(a, order)
  {
    hide Contents, Stored;
    SameContents(a, b, order);
  }

  lemma AlreadyFirst(order: seq<nat>, p: nat)
    requires Distinct(order) && p < |order| && order[p] == First(order)
    ensures [order[p]] + Without(order, p) == order
  {
  }

  lemma WithoutLacks(order: seq<nat>, p: nat)
    requires Distinct(order) && p < |order|
    ensures order[p] !in Without(order, p)
  {
    hide Without, Distinct;
    var rest := Without(order, p);
    forall i: nat | i < |rest| ensures rest[i] != order[p] {
      Differ(order, if i < p then i else i + 1, p);
    }
  }

  lemma Untouched(nodes: seq<Node>)
    ensures SameData(nodes, nodes) && SameFlags(nodes, nodes)
  {
  }

  lemma DataTwice(a: seq<Node>, b: seq<Node>, c: seq<Node>)
    requires SameData(a, b) && SameData(b, c) && SameFlags(a, b) && SameFlags(b, c)
    ensures SameData(a, c) && SameFlags(a, c)
  {
    hide Stored;
  }

  lemma KeyKept(a: seq<Node>, b: seq<Node>, x: nat)
    requires SameData(a, b) && x < |a|
    ensures b[x].key == a[x].key && b[x].value == a[x].value
  {
    assert Stored(a[x]) == Stored(b[x]);
  }

  lemma Unflagged(a: seq<Node>, b: seq<Node>, x: nat)
    requires SameData(a, b) && SameFlags(a, b) && x < |a|
    ensures var c := b[x := b[x].(used := false)];
      SameData(a, c) && forall i: nat :: i < |a| ==> c[i].used == (a[i].used && i != x)
  {
  }

  lemma LinksKept(a: seq<Node>, b: seq<Node>, order: seq<nat>)
    requires Indices(a, order) && Linked(a, order) && |a| == |b|
    requires forall i: nat :: i < |a| ==> b[i].prev == a[i].prev && b[i].next == a[i].next
    ensures Indices(b, order) && Linked(b, order)
  {
    hide Distinct, Before, After;
  }

  lemma PushedInSteps(nodes: seq<Node>, order: seq<nat>, x: nat)
    requires x < |nodes| && |nodes| <= NIL && InSlab(nodes, order)
    ensures var n1 := nodes[x := nodes[x].(prev := NIL)];
      var n2 := n1[x := n1[x].(next := First(order))];
      Pushed(nodes, order, x) == if order == [] then n2 else n2[order[0] := n2[order[0]].(prev := x)]
  {
    var n1 := nodes[x := nodes[x].(prev := NIL)];
    var n2 := n1[x := n1[x].(next := First(order))];
    assert n2 == nodes[x := nodes[x].(prev := NIL, next := First(order))];
  }

  lemma UnlinkedInSteps(nodes: seq<Node>, order: seq<nat>, p: nat)
    requires p < |order| && |nodes| <= NIL && InSlab(nodes, order)
    ensures var n1 := if p == 0 then nodes else nodes[order[p - 1] := nodes[order[p - 1]].(next := After(order, p))];
      Unlinked(nodes, order, p) ==
      if p == |order| - 1 then n1 else n1[order[p + 1] := n1[order[p + 1]].(prev := Before(order, p))]
  {
  }
}
