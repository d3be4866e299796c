/** Maglev consistent hashing: each backend has a permutation of the slots; they take turns claiming
    the first slot of their permutation that is still free, until none is. */
module Maglev {
  import opened Bytes
  import opened Chunks
  import opened Primes

  /** The value of a slot nobody has claimed yet. */
  const EMPTY := 0xFFFF_FFFF

  /** The two hashes of a backend, whatever they are. */
  datatype Hashes = Hashes(offset: nat -> nat, skip: nat -> nat)

  function Offset(h: Hashes, backend: nat, m: nat): (r: nat)
    requires m >= 2
    ensures r < m
  {
    h.offset(backend) % m
  }

  function Skip(h: Hashes, backend: nat, m: nat): (r: nat)
    requires m >= 2
    ensures 1 <= r < m
  {
    h.skip(backend) % (m - 1) + 1
  }

  /** Offset and skip are what the hashes leave modulo m and, less one, modulo m - 1. */
  lemma HashesReduced(h: Hashes, backend: nat, m: nat)
    requires m >= 2
    ensures h.offset(backend) >= Offset(h, backend, m) && (h.offset(backend) - Offset(h, backend, m)) % m == 0
    ensures h.skip(backend) >= Skip(h, backend, m) - 1 && (h.skip(backend) - (Skip(h, backend, m) - 1)) % (m - 1) == 0
  {
    LessRemainder(h.offset(backend), m);
    LessRemainder(h.skip(backend), m - 1);
  }

  lemma LessRemainder(x: nat, d: nat)
    requires d > 0
    ensures x >= x % d && (x - x % d) % d == 0
  {
    QuotRemIsDivMod(x, d);
    RemSubtracted(x, d);
    QuotRemIsDivMod(x - Rem(x, d), d);
  }

  /** The j-th slot of a backend's permutation, in 64-bit wrapping arithmetic. */
  function Probe(offset: nat, skip: nat, j: nat, m: nat): (c: nat)
    requires m > 0
    ensures c < m
  {
    (offset + j * skip % TWO64) % TWO64 % m
  }

  // ----- a permutation -----

  lemma ProductFits(j: nat, skip: nat, m: nat)
    requires m < TWO32 && j < m && skip < m
    ensures j * skip + m < TWO64
  {
    MulMono(j, TWO32 - 2, skip);
    assert (TWO32 - 2) * skip <= (TWO32 - 2) * (TWO32 - 2);
  }

  lemma NoWrap(offset: nat, product: nat, m: nat)
    requires m > 0 && offset + product < TWO64
    ensures (offset + product % TWO64) % TWO64 % m == (offset + product) % m
  {
    assert product % TWO64 == product;
    assert (offset + product) % TWO64 == offset + product;
  }

  /** Within the first m probes nothing wraps. */
  lemma ProbeExact(offset: nat, skip: nat, j: nat, m: nat)
    requires offset < m < TWO32 && skip < m && j < m
    ensures Probe(offset, skip, j, m) == (offset + j * skip) % m
  {
    ProductFits(j, skip, m);
    NoWrap(offset, j * skip, m);
  }

  lemma Apart(offset: nat, skip: nat, a: nat, b: nat, m: nat)
    requires Prime(m) && 1 <= skip < m && a < b < m
    ensures (offset + a * skip) % m != (offset + b * skip) % m
  {
    NoZeroDivisors(m, skip, b - a);
    assert (b - a) * skip == b * skip - a * skip;
    SameRemainder(offset + a * skip, offset + b * skip, m);
  }

  /** The first m probes are at different slots. */
  lemma ProbesDiffer(offset: nat, skip: nat, a: nat, b: nat, m: nat)
    requires Prime(m) && m < TWO32 && offset < m && 1 <= skip < m && a < b < m
    ensures Probe(offset, skip, a, m) != Probe(offset, skip, b, m)
  {
    ProbeExact(offset, skip, a, m);
    ProbeExact(offset, skip, b, m);
    hide Probe;
    Apart(offset, skip, a, b, m);
  }

  lemma SameRemainder(x: nat, y: nat, m: nat)
    requires m > 0
    ensures x % m == y % m ==> (y - x) % m == 0
  {
    if x % m == y % m {
      assert x == x / m * m + x % m && y == y / m * m + y % m;
      assert y - x == (y / m - x / m) * m;
      DivMod(y - x, m, y / m - x / m, 0);
    }
  }

  ghost function Below(m: nat): (s: set<nat>)
    ensures |s| == m && forall c: nat :: c in s <==> c < m
  {
    if m == 0 then {} else Below(m - 1) + {m - 1}
  }

  ghost function Probed(offset: nat, skip: nat, n: nat, m: nat): set<nat>
    requires m > 0
  {
    set j: nat | j < n :: Probe(offset, skip, j, m)
  }

  lemma {:induction false} SizeProbed(offset: nat, skip: nat, n: nat, m: nat)
    requires Prime(m) && m < TWO32 && offset < m && 1 <= skip < m && n <= m
    ensures |Probed(offset, skip, n, m)| == n
  {
    if n > 0 {
      SizeProbed(offset, skip, n - 1, m);
      assert Probed(offset, skip, n, m) == Probed(offset, skip, n - 1, m) + {Probe(offset, skip, n - 1, m)};
      if Probe(offset, skip, n - 1, m) in Probed(offset, skip, n - 1, m) {
        var j: nat :| j < n - 1 && Probe(offset, skip, j, m) == Probe(offset, skip, n - 1, m);
        ProbesDiffer(offset, skip, j, n - 1, m);
      }
    }
  }

  lemma FullSubset(s: set<nat>, t: set<nat>)
    requires s <= t && |s| == |t|
    ensures s == t
  {
    if s != t {
      var x :| x in t && x !in s;
      assert s <= t - {x};
      SubsetSize(s, t - {x});
    }
  }

  lemma {:induction false} SubsetSize<T>(s: set<T>, t: set<T>)
    requires s <= t
    ensures |s| <= |t|
  {
    if s != {} {
      var x :| x in s;
      SubsetSize(s - {x}, t - {x});
    }
  }

  /** Each backend's probes are a permutation of the slots: every slot is met, once, within m probes. */
  lemma ProbesCover(offset: nat, skip: nat, m: nat, c: nat)
    requires Prime(m) && m < TWO32 && offset < m && 1 <= skip < m && c < m
    ensures exists j: nat :: j < m && Probe(offset, skip, j, m) == c
  {
    SizeProbed(offset, skip, m, m);
    FullSubset(Probed(offset, skip, m, m), Below(m));
    assert c in Below(m);
  }

  // ----- what the table is -----

  /** Different slots of a table of m. */
  ghost predicate Slots(order: seq<nat>, m: nat) {
    && (forall t: nat :: t < |order| ==> order[t] < m)
    && (forall s: nat, t: nat :: s < t < |order| ==> order[s] != order[t])
  }

  ghost function Elements(s: seq<nat>): (r: set<nat>)
    ensures forall c :: c in r <==> c in s
  {
    if s == [] then {} else Elements(s[..|s| - 1]) + {s[|s| - 1]}
  }

  lemma {:induction false} SlotsSize(order: seq<nat>, m: nat)
    requires Slots(order, m)
    ensures |Elements(order)| == |order|
  {
    if order != [] {
      SlotsSize(order[..|order| - 1], m);
    }
  }

  /** As many slots as there are, are all of them; fewer leave one out. */
  lemma SlotsCover(order: seq<nat>, m: nat)
    requires Slots(order, m)
    ensures |order| <= m
    ensures |order| == m ==> forall c: nat :: c < m ==> c in order
    ensures |order| < m ==> exists c: nat :: c < m && c !in order
  {
    SlotsSize(order, m);
    assert Elements(order) <= Below(m);
    SubsetSize(Elements(order), Below(m));
    if |order| == m {
      FullSubset(Elements(order), Below(m));
    } else {
      assert Elements(order) != Below(m);
    }
  }

  /** The j-th probe is at c, and all earlier ones are at slots taken. */
  ghost predicate Reaches(offset: nat, skip: nat, m: nat, taken: seq<nat>, c: nat, j: nat)
    requires m > 0
  {
    Probe(offset, skip, j, m) == c && forall i: nat :: i < j ==> Probe(offset, skip, i, m) in taken
  }

  /** Slot c is the first of the backend's permutation that is not among those taken. */
  ghost predicate FirstFree(h: Hashes, m: nat, backend: nat, taken: seq<nat>, c: nat)
    requires m >= 2
  {
    && c !in taken
    && exists j: nat :: j < m && Reaches(Offset(h, backend, m), Skip(h, backend, m), m, taken, c, j)
  }

  /** At turn t the backend with index t mod n claims the first slot that is free to it. */
  ghost predicate TakesTurn(h: Hashes, m: nat, backends: seq<nat>, order: seq<nat>, t: nat)
    requires m >= 2 && backends != [] && t < |order|
  {
    FirstFree(h, m, backends[Rem(t, |backends|)], order[..t], order[t])
  }

  /** order lists slots in the order they are claimed: backends in turn, each its first free slot. */
  ghost predicate IsFill(h: Hashes, m: nat, backends: seq<nat>, order: seq<nat>)
    requires m >= 2 && backends != []
  {
    Slots(order, m) && forall t: nat :: t < |order| ==> TakesTurn(h, m, backends, order, t)
  }

  /** Each slot claimed holds the index of the backend whose turn it was. */
  ghost predicate Records(table: seq<nat>, order: seq<nat>, n: nat)
    requires n > 0
  {
    forall t: nat :: t < |order| ==> order[t] < |table| && table[order[t]] == Rem(t, n)
  }

  /** A full fill and the table that records it. */
  ghost predicate IsFullFill(h: Hashes, m: nat, backends: seq<nat>, order: seq<nat>, table: seq<nat>)
    requires m >= 2 && backends != []
  {
    |table| == |order| == m && IsFill(h, m, backends, order) && Records(table, order, |backends|)
  }

  /** The Maglev table of the backends: every slot claimed, by taking turns. */
  ghost predicate IsLut(h: Hashes, m: nat, backends: seq<nat>, table: seq<nat>) {
    m >= 2 && backends != [] && exists order :: IsFullFill(h, m, backends, order, table)
  }

  lemma FillExtends(h: Hashes, m: nat, backends: seq<nat>, order: seq<nat>, c: nat)
    requires m >= 2 && backends != [] && IsFill(h, m, backends, order) && c < m
    requires FirstFree(h, m, backends[Rem(|order|, |backends|)], order, c)
    ensures IsFill(h, m, backends, order + [c])
  {
    hide FirstFree, Rem;
    var longer := order + [c];
    assert Slots(longer, m) by { NotTaken(h, m, backends[Rem(|order|, |backends|)], order, c); }
    forall t: nat | t < |longer| ensures TakesTurn(h, m, backends, longer, t) {
      if t < |order| {
        assert TakesTurn(h, m, backends, order, t);
        assert longer[..t] == order[..t];
      } else {
        assert longer[..t] == order;
      }
    }
  }

  lemma NotTaken(h: Hashes, m: nat, backend: nat, taken: seq<nat>, c: nat)
    requires m >= 2 && FirstFree(h, m, backend, taken, c)
    ensures c !in taken
  {
  }

  /** The rules leave no choice: two fills agree as far as both go. */
  lemma {:induction false} FillUnique(h: Hashes, m: nat, backends: seq<nat>, a: seq<nat>, b: seq<nat>, n: nat)
    requires m >= 2 && backends != [] && IsFill(h, m, backends, a) && IsFill(h, m, backends, b)
    requires n <= |a| && n <= |b|
    ensures a[..n] == b[..n]
  {
    if n > 0 {
      hide FirstFree, Slots;
      FillUnique(h, m, backends, a, b, n - 1);
      var t := n - 1;
      assert TakesTurn(h, m, backends, a, t) && TakesTurn(h, m, backends, b, t);
      FirstFreeUnique(h, m, backends[Rem(t, |backends|)], a[..t], a[t], b[t]);
      assert a[..n] == a[..t] + [a[t]] && b[..n] == b[..t] + [b[t]];
    }
  }

  lemma FirstFreeUnique(h: Hashes, m: nat, backend: nat, taken: seq<nat>, c: nat, d: nat)
    requires m >= 2 && FirstFree(h, m, backend, taken, c) && FirstFree(h, m, backend, taken, d)
    ensures c == d
  {
    hide Probe;
    var offset, skip := Offset(h, backend, m), Skip(h, backend, m);
    var i: nat :| i < m && Reaches(offset, skip, m, taken, c, i);
    var j: nat :| j < m && Reaches(offset, skip, m, taken, d, j);
  }

  /** The table is determined by the hashes, the size and the backends. */
  lemma LutUnique(h: Hashes, m: nat, backends: seq<nat>, s: seq<nat>, t: seq<nat>)
    requires IsLut(h, m, backends, s) && IsLut(h, m, backends, t)
    ensures s == t
  {
    var a :| IsFullFill(h, m, backends, a, s);
    var b :| IsFullFill(h, m, backends, b, t);
    FillUnique(h, m, backends, a, b, m);
    assert a[..m] == a && b[..m] == b;
    SlotsCover(a, m);
    hide TakesTurn;
    forall c: nat | c < m ensures s[c] == t[c] {
      assert c in a;
      var i: nat :| i < m && a[i] == c;
    }
  }

  /** Every slot holds the index of a backend: none is empty. */
  lemma LutInRange(h: Hashes, m: nat, backends: seq<nat>, table: seq<nat>, c: nat)
    requires IsLut(h, m, backends, table) && c < m
    ensures c < |table| && table[c] < |backends|
  {
    var order :| IsFullFill(h, m, backends, order, table);
    SlotsCover(order, m);
    hide TakesTurn;
    assert c in order;
    var t: nat :| t < m && order[t] == c;
  }

  // ----- balance -----

  /** The slots that backend i owns among the first n of the table. */
  ghost function Owned(table: seq<nat>, n: nat, i: nat): (r: set<nat>)
    requires n <= |table|
    ensures forall c: nat :: c in r <==> c < n && table[c] == i
  {
    if n == 0 then {} else if table[n - 1] == i then Owned(table, n - 1, i) + {n - 1} else Owned(table, n - 1, i)
  }

  /** The slots that backend i claims in the first t turns. */
  ghost function Claimed(order: seq<nat>, t: nat, n: nat, i: nat): set<nat>
    requires n > 0 && t <= |order|
  {
    if t == 0 then {}
    else if Rem(t - 1, n) == i then Claimed(order, t - 1, n, i) + {order[t - 1]}
    else Claimed(order, t - 1, n, i)
  }

  /** How many of the first t turns are backend i's: an equal share, and one more for the first ones. */
  function Share(t: nat, n: nat, i: nat): nat
    requires n > 0
  {
    Quot(t, n) + if i < Rem(t, n) then 1 else 0
  }

  lemma {:induction false} NextTurn(t: nat, n: nat, i: nat)
    requires n > 0 && i < n
    ensures Share(t + 1, n, i) == Share(t, n, i) + if Rem(t, n) == i then 1 else 0
  {
    if t >= n {
      NextTurn(t - n, n, i);
      assert Quot(t + 1, n) == Quot(t - n + 1, n) + 1 && Rem(t + 1, n) == Rem(t - n + 1, n);
    } else {
      assert Quot(0, n) == 0 && Rem(0, n) == 0;
      assert n - n == 0;
      assert Quot(n, n) == 1 && Rem(n, n) == 0;
    }
  }

  lemma NoTurns(n: nat, i: nat)
    requires n > 0
    ensures Share(0, n, i) == 0
  {
  }

  lemma {:induction false} ClaimedBefore(order: seq<nat>, t: nat, n: nat, i: nat, c: nat)
    requires n > 0 && t <= |order| && c in Claimed(order, t, n, i)
    ensures c in order[..t]
  {
    hide Rem;
    if c != order[t - 1] {
      ClaimedBefore(order, t - 1, n, i, c);
      assert order[..t - 1] <= order[..t];
    }
  }

  lemma NotYetClaimed(order: seq<nat>, m: nat, t: nat, n: nat, i: nat)
    requires n > 0 && Slots(order, m) && t < |order|
    ensures order[t] !in Claimed(order, t, n, i)
  {
    hide Rem;
    if order[t] in Claimed(order, t, n, i) {
      ClaimedBefore(order, t, n, i, order[t]);
    }
  }

  lemma {:induction false} ClaimedSize(order: seq<nat>, m: nat, t: nat, n: nat, i: nat)
    requires n > 0 && i < n && Slots(order, m) && t <= |order|
    ensures |Claimed(order, t, n, i)| == Share(t, n, i)
  {
    hide Share, Rem, Slots;
    if t > 0 {
      ClaimedSize(order, m, t - 1, n, i);
      NextTurn(t - 1, n, i);
      NotYetClaimed(order, m, t - 1, n, i);
    } else {
      NoTurns(n, i);
    }
  }

  lemma {:induction false} ClaimedAt(order: seq<nat>, m: nat, t: nat, n: nat, i: nat, s: nat)
    requires n > 0 && Slots(order, m) && s < t <= |order|
    ensures order[s] in Claimed(order, t, n, i) <==> Rem(s, n) == i
  {
    hide Rem;
    if s < t - 1 {
      ClaimedAt(order, m, t - 1, n, i, s);
    } else {
      NotYetClaimed(order, m, s, n, i);
    }
  }

  /** Exact balance: with m slots and n backends, backend i owns m / n slots, and one more if
      i < m mod n, whatever the hashes and even if backends repeat or outnumber the slots. */
  lemma ExactBalance(h: Hashes, m: nat, backends: seq<nat>, table: seq<nat>, i: nat)
    requires IsLut(h, m, backends, table) && i < |backends|
    ensures |table| == m
    ensures |Owned(table, m, i)| == m / |backends| + if i < m % |backends| then 1 else 0
  {
    var order :| IsFullFill(h, m, backends, order, table);
    var n := |backends|;
    hide TakesTurn;
    SlotsCover(order, m);
    ClaimedSize(order, m, m, n, i);
    QuotRemIsDivMod(m, n);
    assert order[..m] == order;
    forall c: nat ensures c in Owned(table, m, i) <==> c in Claimed(order, m, n, i) {
      if c < m {
        assert c in order;
        var t: nat :| t < m && order[t] == c;
        ClaimedAt(order, m, m, n, i, t);
      } else if c in Claimed(order, m, n, i) {
        ClaimedBefore(order, m, n, i, c);
      }
    }
    assert Owned(table, m, i) == Claimed(order, m, n, i);
  }

  // ----- building the table -----

  /** Exactly the slots of order are claimed. */
  ghost predicate Marks(table: seq<nat>, order: seq<nat>) {
    forall c: nat :: c < |table| ==> (table[c] == EMPTY <==> c !in order)
  }

  /** The first n probes are all at slots taken. */
  ghost predicate Passed(offset: nat, skip: nat, m: nat, n: nat, taken: seq<nat>)
    requires m > 0
  {
    forall j: nat :: j < n ==> Probe(offset, skip, j, m) in taken
  }

  /** A cursor that has passed only taken slots is below m as long as a slot is free. */
  lemma CursorFits(offset: nat, skip: nat, m: nat, n: nat, taken: seq<nat>)
    requires Prime(m) && m < TWO32 && offset < m && 1 <= skip < m
    requires Slots(taken, m) && |taken| < m && Passed(offset, skip, m, n, taken)
    ensures n < m
  {
    hide Probe, Prime;
    SlotsCover(taken, m);
    var c: nat :| c < m && c !in taken;
    ProbesCover(offset, skip, m, c);
    var j: nat :| j < m && Probe(offset, skip, j, m) == c;
  }

  /** The inner loop: move the cursor to the first free slot; it ends because there is one. */
  method FindFree(offset: nat, skip: nat, m: nat, cursor: nat, table: seq<nat>, ghost taken: seq<nat>)
    returns (c: nat, next: nat)
    requires Prime(m) && m < TWO32 && offset < m && 1 <= skip < m
    requires |table| == m && Marks(table, taken)
    requires Slots(taken, m) && |taken| < m && Passed(offset, skip, m, cursor, taken)
    ensures c < m && c !in taken && cursor < next <= m
    ensures Reaches(offset, skip, m, taken, c, next - 1)
  {
    hide Probe, Prime;
    next := cursor;
    while true
      invariant cursor <= next && Passed(offset, skip, m, next, taken)
      decreases m - next
    {
      CursorFits(offset, skip, m, next, taken);
      c := Probe(offset, skip, next, m);
      next := next + 1;
      if table[c] == EMPTY {
        break;
      }
    }
  }

  lemma NextIndex(t: nat, n: nat)
    requires n > 0
    ensures Rem(t + 1, n) == if Rem(t, n) + 1 == n then 0 else Rem(t, n) + 1
  {
    if t >= n {
      NextIndex(t - n, n);
    } else {
      assert Rem(0, n) == 0;
      assert Rem(n, n) == Rem(n - n, n);
    }
  }

  /** Every cursor has passed only claimed slots. */
  ghost predicate Cursors(h: Hashes, m: nat, backends: seq<nat>, next: seq<nat>, order: seq<nat>)
    requires m >= 2
  {
    && |next| == |backends|
    && forall i: nat :: i < |backends| ==>
         Passed(Offset(h, backends[i], m), Skip(h, backends[i], m), m, next[i], order)
  }

  /** What holds between two turns: order has been claimed, by the rules. */
  ghost predicate Filling(h: Hashes, m: nat, backends: seq<nat>, table: seq<nat>, next: seq<nat>, order: seq<nat>)
    requires m >= 2 && backends != []
  {
    && |table| == m
    && IsFill(h, m, backends, order)
    && Records(table, order, |backends|)
    && Marks(table, order)
    && Cursors(h, m, backends, next, order)
  }

  lemma TurnTaken(h: Hashes, m: nat, backends: seq<nat>, table: seq<nat>, next: seq<nat>, order: seq<nat>,
                  i: nat, c: nat, cursor: nat)
    requires 2 <= m < TWO32 && backends != [] && Filling(h, m, backends, table, next, order)
    requires |order| < m && i == Rem(|order|, |backends|)
    requires c < m && c !in order && 0 < cursor <= m
    requires Reaches(Offset(h, backends[i], m), Skip(h, backends[i], m), m, order, c, cursor - 1)
    ensures Filling(h, m, backends, table[c := AsU32(i)], next[i := cursor], order + [c])
  {
    hide Probe, Rem, IsFill;
    assert IsFill(h, m, backends, order + [c]) by { FillExtends(h, m, backends, order, c); }
    TurnRecorded(table, order, |backends|, i, c, m);
    CursorMoved(h, m, backends, next, order, i, c, cursor);
  }

  lemma TurnRecorded(table: seq<nat>, order: seq<nat>, n: nat, i: nat, c: nat, m: nat)
    requires n > 0 && Records(table, order, n) && Marks(table, order)
    requires c < |table| == m < TWO32 && c !in order && i == Rem(|order|, n) && |order| < m
    ensures Records(table[c := AsU32(i)], order + [c], n)
    ensures Marks(table[c := AsU32(i)], order + [c])
  {
    assert i <= |order|;
    hide Rem;
    assert AsU32(i) == i && i != EMPTY;
  }

  lemma CursorMoved(h: Hashes, m: nat, backends: seq<nat>, next: seq<nat>, order: seq<nat>,
                    i: nat, c: nat, cursor: nat)
    requires m >= 2 && Cursors(h, m, backends, next, order) && i < |backends| && cursor > 0
    requires Reaches(Offset(h, backends[i], m), Skip(h, backends[i], m), m, order, c, cursor - 1)
    ensures Cursors(h, m, backends, next[i := cursor], order + [c])
  {
    hide Probe, Offset, Skip;
  }

  /** Backend i's turn: where its claim goes and where its cursor then is. */
  method TakeTurn(h: Hashes, m: nat, backends: seq<nat>, table: seq<nat>, next: seq<nat>, i: nat, ghost order: seq<nat>)
    returns (c: nat, cursor: nat)
    requires Prime(m) && m < TWO32 && backends != [] && Filling(h, m, backends, table, next, order)
    requires |order| < m && i == Rem(|order|, |backends|) && |next| == |backends|
    ensures c < m && Filling(h, m, backends, table[c := AsU32(i)], next[i := cursor], order + [c])
  {
    hide Probe, Rem;
    c, cursor := FindFree(Offset(h, backends[i], m), Skip(h, backends[i], m), m, next[i], table, order);
    TurnTaken(h, m, backends, table, next, order, i, c, cursor);
  }

  lemma NothingFilled(h: Hashes, m: nat, backends: seq<nat>, table: seq<nat>, next: seq<nat>)
    requires m >= 2 && backends != [] && |table| == m && |next| == |backends|
    requires forall c: nat :: c < m ==> table[c] == EMPTY
    requires forall i: nat :: i < |next| ==> next[i] == 0
    ensures Filling(h, m, backends, table, next, [])
  {
  }

  /** The two outer loops: rounds of turns until every slot is claimed. */
  method Fill(h: Hashes, m: nat, backends: seq<nat>) returns (table: seq<nat>)
    requires Prime(m) && m < TWO32 && backends != []
    ensures IsLut(h, m, backends, table)
  {
    hide Filling, Rem, IsFullFill;
    var n := |backends|;
    table := seq(m, _ => EMPTY);
    var next: seq<nat> := seq(n, _ => 0);
    var filled := 0;
    ghost var order: seq<nat> := [];
    NothingFilled(h, m, backends, table, next);
    NoTurnsYet(n);
    while filled < m
      invariant |order| == filled <= m && |table| == m && |next| == n
      invariant Filling(h, m, backends, table, next, order)
      invariant filled < m ==> Rem(filled, n) == 0
      decreases m - filled
    {
      ghost var before := filled;
      var i := 0;
      while i < n
        invariant i <= n && filled == before + i && |order| == filled < m && |table| == m && |next| == n
        invariant Filling(h, m, backends, table, next, order)
        invariant Rem(filled, n) == if i < n then i else 0
        decreases n - i
      {
        var c: nat, cursor: nat := TakeTurn(h, m, backends, table, next, i, order);
        NextIndex(filled, n);
        table, next, filled, order := table[c := AsU32(i)], next[i := cursor], filled + 1, order + [c];
        if filled == m {
          break;
        }
        i := i + 1;
      }
    }
    Filled(h, m, backends, table, next, order);
  }

  lemma NoTurnsYet(n: nat)
    requires n > 0
    ensures Rem(0, n) == 0
  {
  }

  lemma Filled(h: Hashes, m: nat, backends: seq<nat>, table: seq<nat>, next: seq<nat>, order: seq<nat>)
    requires m >= 2 && backends != [] && Filling(h, m, backends, table, next, order) && |order| == m
    ensures IsLut(h, m, backends, table)
  {
    hide IsFill;
    assert IsFullFill(h, m, backends, order, table);
  }

  /** Builds the table: backends in turn, each its first free slot, until every slot is claimed.
      None stands for the panic on a size that is not prime or an empty backend list. */
  method BuildLut(h: Hashes, m: nat, backends: seq<nat>) returns (r: Option<seq<nat>>)
    requires m < TWO32
    ensures r.None? <==> !Prime(m) || backends == []
    ensures r.Some? ==> IsLut(h, m, backends, r.value)
  {
    hide Prime, IsLut;
    var prime := IsPrime(m);
    if !prime || backends == [] {
      return None;
    }
    var table := Fill(h, m, backends);
    return Some(table);
  }
}
