/** The connection table's memory: nodes in a slab, doubly linked by index. */
module Slab {
  import opened Bytes
  import opened Lru

  /** The index that stands for no node. */
  const NIL := 0xFFFF_FFFF

  datatype Node = Node(key: FiveTuple, value: Entry, prev: nat, next: nat, used: bool)

  // ----- sequences of indices -----

  ghost predicate Distinct(order: seq<nat>) {
    forall i: nat, j: nat :: i < j < |order| ==> order[i] != order[j]
  }

  function Without(order: seq<nat>, p: nat): (r: seq<nat>)
    requires p < |order|
    ensures |r| == |order| - 1
    ensures forall i: nat {:trigger r[i]} :: i < |r| ==> r[i] == if i < p then order[i] else order[i + 1]
  {
    order[..p] + order[p + 1..]
  }

  /** order without the indices in gone. */
  ghost function Drop(order: seq<nat>, gone: set<nat>): (r: seq<nat>)
    ensures |r| <= |order|
  {
    if order == [] then []
    else
      var last := order[|order| - 1];
      Drop(order[..|order| - 1], gone) + if last in gone then [] else [last]
  }

  lemma {:induction false} DropHas(order: seq<nat>, gone: set<nat>, x: nat)
    ensures x in Drop(order, gone) <==> x in order && x !in gone
  {
    if order != [] {
      DropHas(order[..|order| - 1], gone, x);
      assert order == order[..|order| - 1] + [order[|order| - 1]];
    }
  }

  lemma {:induction false} DropNone(order: seq<nat>, gone: set<nat>)
    requires forall x :: x in order ==> x !in gone
    ensures Drop(order, gone) == order
  {
    if order != [] {
      DropNone(order[..|order| - 1], gone);
    }
  }

  lemma {:induction false} DropTwice(order: seq<nat>, gone: set<nat>, x: nat)
    ensures Drop(Drop(order, gone), {x}) == Drop(order, gone + {x})
  {
    if order != [] {
      var front, last := order[..|order| - 1], order[|order| - 1];
      DropTwice(front, gone, x);
      if last in gone {
        assert Drop(order, gone) == Drop(front, gone);
      } else {
        assert (Drop(front, gone) + [last])[..|Drop(front, gone)|] == Drop(front, gone);
      }
    }
  }

  /** Dropping one index of a sequence without repetitions takes out one position. */
  lemma {:induction false} DropAt(order: seq<nat>, p: nat)
    requires Distinct(order) && p < |order|
    ensures Drop(order, {order[p]}) == Without(order, p)
  {
    var front, last := order[..|order| - 1], order[|order| - 1];
    if p == |order| - 1 {
      DropNone(front, {last});
    } else {
      DropAt(front, p);
      assert front[p + 1..] + [last] == order[p + 1..];
      assert order[..p] == front[..p];
    }
  }

  // ----- the links -----

  function Before(order: seq<nat>, i: nat): nat
    requires i < |order|
  {
    if i == 0 then NIL else order[i - 1]
  }

  function After(order: seq<nat>, i: nat): nat
    requires i < |order|
  {
    if i == |order| - 1 then NIL else order[i + 1]
  }

  function First(order: seq<nat>): nat {
    if order == [] then NIL else order[0]
  }

  function Last(order: seq<nat>): nat {
    if order == [] then NIL else order[|order| - 1]
  }

  ghost predicate InSlab(nodes: seq<Node>, order: seq<nat>) {
    forall i: nat :: i < |order| ==> order[i] < |nodes|
  }

  /** Different indices of nodes, all below NIL. */
  ghost predicate Indices(nodes: seq<Node>, order: seq<nat>) {
    |nodes| <= NIL && InSlab(nodes, order) && Distinct(order)
  }

  /** The forward links run through order and the backward links through its reverse. */
  ghost predicate Linked(nodes: seq<Node>, order: seq<nat>)
    requires Indices(nodes, order)
  {
    forall i: nat :: i < |order| ==>
      nodes[order[i]].prev == Before(order, i) && nodes[order[i]].next == After(order, i)
  }

  lemma LinksAt(nodes: seq<Node>, order: seq<nat>, i: nat)
    requires Indices(nodes, order) && Linked(nodes, order) && i < |order|
    ensures nodes[order[i]].prev == Before(order, i) && nodes[order[i]].next == After(order, i)
  {
  }

  function SetNext(nodes: seq<Node>, i: nat, v: nat): (r: seq<Node>)
    requires i < |nodes| || i == NIL
    ensures |r| == |nodes|
    ensures forall y: nat :: y < |r| ==> r[y] == if y == i then nodes[y].(next := v) else nodes[y]
  {
    if i < |nodes| then nodes[i := nodes[i].(next := v)] else nodes
  }

  function SetPrev(nodes: seq<Node>, i: nat, v: nat): (r: seq<Node>)
    requires i < |nodes| || i == NIL
    ensures |r| == |nodes|
    ensures forall y: nat :: y < |r| ==> r[y] == if y == i then nodes[y].(prev := v) else nodes[y]
  {
    if i < |nodes| then nodes[i := nodes[i].(prev := v)] else nodes
  }

  lemma Differ(order: seq<nat>, i: nat, j: nat)
    requires Distinct(order) && i < |order| && j < |order|
    ensures i == j <==> order[i] == order[j]
  {
  }

  /** The nodes once the neighbours of position p are joined. */
  function Unlinked(nodes: seq<Node>, order: seq<nat>, p: nat): (r: seq<Node>)
    requires p < |order| && |nodes| <= NIL && InSlab(nodes, order)
    ensures |r| == |nodes|
  {
    SetPrev(SetNext(nodes, Before(order, p), After(order, p)), After(order, p), Before(order, p))
  }

  lemma UnlinkedNext(nodes: seq<Node>, order: seq<nat>, p: nat, i: nat)
    requires Indices(nodes, order) && Linked(nodes, order) && p < |order| && i < |order| && i != p
    ensures Unlinked(nodes, order, p)[order[i]].next == if i + 1 == p then After(order, p) else After(order, i)
  {
    hide Distinct, SetNext, SetPrev, Linked;
    LinksAt(nodes, order, i);
    if p > 0 { Differ(order, i, p - 1); }
  }

  lemma UnlinkedPrev(nodes: seq<Node>, order: seq<nat>, p: nat, i: nat)
    requires Indices(nodes, order) && Linked(nodes, order) && p < |order| && i < |order| && i != p
    ensures Unlinked(nodes, order, p)[order[i]].prev == if i == p + 1 then Before(order, p) else Before(order, i)
  {
    hide Distinct, SetNext, SetPrev, Linked;
    LinksAt(nodes, order, i);
    if p + 1 < |order| { Differ(order, i, p + 1); }
  }

  lemma WithoutIndices(nodes: seq<Node>, nodes': seq<Node>, order: seq<nat>, p: nat)
    requires Indices(nodes, order) && p < |order| && |nodes'| == |nodes|
    ensures Indices(nodes', Without(order, p))
  {
    hide Without;
    var rest := Without(order, p);
    forall i: nat, j: nat | i < j < |rest| ensures rest[i] != rest[j] {
      Differ(order, if i < p then i else i + 1, if j < p then j else j + 1);
    }
  }

  lemma UnlinkedAt(nodes: seq<Node>, order: seq<nat>, p: nat, i: nat)
    requires Indices(nodes, order) && Linked(nodes, order) && p < |order| && i < |order| - 1
    ensures var n := Unlinked(nodes, order, p)[Without(order, p)[i]];
      n.prev == Before(Without(order, p), i) && n.next == After(Without(order, p), i)
  {
    hide Unlinked, Without, Distinct, Linked;
    var k := if i < p then i else i + 1;
    UnlinkedNext(nodes, order, p, k);
    UnlinkedPrev(nodes, order, p, k);
  }

  /** Joining the neighbours of position p takes it out of the list. */
  lemma Unlinks(nodes: seq<Node>, order: seq<nat>, p: nat)
    requires Indices(nodes, order) && Linked(nodes, order) && p < |order|
    ensures Indices(Unlinked(nodes, order, p), Without(order, p))
    ensures Linked(Unlinked(nodes, order, p), Without(order, p))
  {
    hide Unlinked, Without, Distinct;
    var rest, nodes' := Without(order, p), Unlinked(nodes, order, p);
    WithoutIndices(nodes, nodes', order, p);
    forall i: nat | i < |rest|
      ensures nodes'[rest[i]].prev == Before(rest, i) && nodes'[rest[i]].next == After(rest, i)
    {
      UnlinkedAt(nodes, order, p, i);
    }
  }

  /** The nodes once x is linked in front of the first of the list. */
  function Pushed(nodes: seq<Node>, order: seq<nat>, x: nat): (r: seq<Node>)
    requires x < |nodes| && |nodes| <= NIL && InSlab(nodes, order)
    ensures |r| == |nodes|
  {
    SetPrev(nodes[x := nodes[x].(prev := NIL, next := First(order))], First(order), x)
  }

  /** Linking a new node in front of the first one puts it at the head of the list. */
  lemma Pushes(nodes: seq<Node>, order: seq<nat>, x: nat)
    requires Indices(nodes, order) && Linked(nodes, order) && x < |nodes| && x !in order
    ensures Indices(Pushed(nodes, order, x), [x] + order) && Linked(Pushed(nodes, order, x), [x] + order)
  {
    var order' := [x] + order;
    var nodes' := Pushed(nodes, order, x);
    forall i: nat | i < |order'|
      ensures nodes'[order'[i]].prev == Before(order', i) && nodes'[order'[i]].next == After(order', i)
    {
      if i > 0 {
        assert order'[i] == order[i - 1];
      }
    }
  }

  // ----- what the slab stores -----

  function Stored(n: Node): Conn {
    Conn(n.key, n.value)
  }

  /** The connections of a list of nodes. */
  ghost function Contents(nodes: seq<Node>, order: seq<nat>): (r: seq<Conn>)
    requires InSlab(nodes, order)
    ensures |r| == |order|
    ensures forall i: nat {:trigger r[i]} :: i < |r| ==> r[i] == Stored(nodes[order[i]])
  {
    seq(|order|, i requires 0 <= i < |order| => Stored(nodes[order[i]]))
  }

  /** Keys and values are the same; only links and flags may differ. */
  ghost predicate SameData(nodes: seq<Node>, nodes': seq<Node>) {
    |nodes'| == |nodes| && forall i: nat :: i < |nodes| ==> Stored(nodes'[i]) == Stored(nodes[i])
  }

  ghost predicate SameFlags(nodes: seq<Node>, nodes': seq<Node>) {
    |nodes'| == |nodes| && forall i: nat :: i < |nodes| ==> nodes'[i].used == nodes[i].used
  }

  lemma SameContents(nodes: seq<Node>, nodes': seq<Node>, order: seq<nat>)
    requires InSlab(nodes, order) && InSlab(nodes', order)
    requires forall i: nat :: i < |order| ==> Stored(nodes'[order[i]]) == Stored(nodes[order[i]])
    ensures Contents(nodes', order) == Contents(nodes, order)
  {
    hide Contents, Stored;
  }

  lemma ContentsFront(nodes: seq<Node>, order: seq<nat>)
    requires InSlab(nodes, order) && order != []
    ensures InSlab(nodes, order[..|order| - 1])
    ensures Contents(nodes, order) == Contents(nodes, order[..|order| - 1]) + [Stored(nodes[order[|order| - 1]])]
  {
    hide Contents, Stored;
  }

  lemma ContentsSnoc(nodes: seq<Node>, order: seq<nat>, x: nat)
    requires InSlab(nodes, order) && x < |nodes|
    ensures InSlab(nodes, order + [x])
    ensures Contents(nodes, order + [x]) == Contents(nodes, order) + [Stored(nodes[x])]
  {
    hide Contents, Stored;
  }

  lemma ContentsCons(nodes: seq<Node>, order: seq<nat>, x: nat)
    requires InSlab(nodes, order) && x < |nodes|
    ensures InSlab(nodes, [x] + order)
    ensures Contents(nodes, [x] + order) == [Stored(nodes[x])] + Contents(nodes, order)
  {
    hide Contents, Stored;
  }

  lemma UnlinkedData(nodes: seq<Node>, order: seq<nat>, p: nat)
    requires p < |order| && |nodes| <= NIL && InSlab(nodes, order)
    ensures SameData(nodes, Unlinked(nodes, order, p)) && SameFlags(nodes, Unlinked(nodes, order, p))
  {
    hide InSlab, SetNext, SetPrev, Before, After;
  }

  lemma PushedData(nodes: seq<Node>, order: seq<nat>, x: nat)
    requires x < |nodes| && |nodes| <= NIL && InSlab(nodes, order)
    ensures SameData(nodes, Pushed(nodes, order, x)) && SameFlags(nodes, Pushed(nodes, order, x))
  {
    hide InSlab, SetPrev, First;
  }

  lemma {:induction false} DropInSlab(nodes: seq<Node>, order: seq<nat>, gone: set<nat>)
    requires InSlab(nodes, order)
    ensures InSlab(nodes, Drop(order, gone))
  {
    if order != [] {
      DropInSlab(nodes, order[..|order| - 1], gone);
    }
  }

  /** gone is what the rule does not keep. */
  ghost predicate Matches(nodes: seq<Node>, order: seq<nat>, gone: set<nat>, rule: Rule)
    requires InSlab(nodes, order)
  {
    forall i: nat :: i < |order| ==> (order[i] in gone <==> !Keeps(rule, Stored(nodes[order[i]])))
  }

  /** Dropping exactly the nodes a rule does not keep filters the contents by that rule. */
  lemma {:induction false} ContentsDrop(nodes: seq<Node>, order: seq<nat>, gone: set<nat>, rule: Rule)
    requires InSlab(nodes, order) && Matches(nodes, order, gone, rule)
    ensures InSlab(nodes, Drop(order, gone))
    ensures Contents(nodes, Drop(order, gone)) == Filter(Contents(nodes, order), rule)
  {
    hide Contents, Stored, Keeps;
    DropInSlab(nodes, order, gone);
    if order != [] {
      var front, last := order[..|order| - 1], order[|order| - 1];
      ContentsDrop(nodes, front, gone, rule);
      ContentsFront(nodes, order);
      if last !in gone {
        ContentsSnoc(nodes, Drop(front, gone), last);
      } else {
        assert Drop(order, gone) == Drop(front, gone);
      }
    }
  }

  /** A key that one node of the list has, and no other, is found there. */
  lemma {:induction false} FindStored(nodes: seq<Node>, order: seq<nat>, p: nat, key: FiveTuple)
    requires InSlab(nodes, order) && p < |order| && nodes[order[p]].key == key
    requires forall i: nat :: p < i < |order| ==> nodes[order[i]].key != key
    ensures Find(Contents(nodes, order), key) == Some(nodes[order[p]].value)
  {
    hide Contents;
    ContentsFront(nodes, order);
    if p < |order| - 1 {
      FindStored(nodes, order[..|order| - 1], p, key);
    }
  }

  lemma {:induction false} FindAbsent(nodes: seq<Node>, order: seq<nat>, key: FiveTuple)
    requires InSlab(nodes, order) && forall i: nat :: i < |order| ==> nodes[order[i]].key != key
    ensures Find(Contents(nodes, order), key) == None
  {
    hide Contents;
    if order != [] {
      ContentsFront(nodes, order);
      FindAbsent(nodes, order[..|order| - 1], key);
    }
  }
}
