/** The hash table a data plane keeps: a Maglev table and the backends its entries index. */
module MaglevTable {
  import opened Bytes
  import opened Chunks
  import opened Primes
  import opened Maglev

  /** Every entry is the index of a backend. */
  ghost predicate Fits(table: seq<nat>, backends: seq<nat>) {
    forall c: nat :: c < |table| ==> table[c] < |backends|
  }

  /** The backend of a flow. */
  function Pick(table: seq<nat>, backends: seq<nat>, key: nat): nat
    requires table != [] && Fits(table, backends)
  {
    backends[table[key % |table|]]
  }

  // ----- who answers which keys -----

  /** The flow's slot belongs to backend i. */
  ghost predicate Answers(table: seq<nat>, key: nat, i: nat)
    requires table != []
  {
    key % |table| in Owned(table, |table|, i)
  }

  /** The backend of a flow is the one that owns its slot, whichever entry of the list that is. */
  lemma PickIsOwner(table: seq<nat>, backends: seq<nat>, key: nat, i: nat)
    requires table != [] && Fits(table, backends) && Answers(table, key, i)
    ensures i < |backends| && Pick(table, backends, key) == backends[i]
  {
  }

  /** Exactly one entry answers. */
  lemma OneAnswers(table: seq<nat>, key: nat, i: nat, j: nat)
    requires table != []
    ensures Answers(table, key, table[key % |table|])
    ensures Answers(table, key, i) && Answers(table, key, j) ==> i == j
  {
  }

  /** The keys from start on, n of them, that entry i answers. */
  ghost function AnsweredBy(table: seq<nat>, start: nat, n: nat, i: nat): set<nat>
    requires table != []
  {
    set key: nat | start <= key < start + n && Answers(table, key, i)
  }

  /** Keys that agree modulo m get the same answer. */
  lemma SameSlot(table: seq<nat>, key: nat, i: nat)
    requires table != []
    ensures Answers(table, key + |table|, i) == Answers(table, key, i)
  {
    DivModStep(key, |table|);
  }

  lemma FirstKeys(table: seq<nat>, i: nat)
    requires table != []
    ensures AnsweredBy(table, 0, |table|, i) == Owned(table, |table|, i)
  {
    var m := |table|;
    forall key: nat ensures key in AnsweredBy(table, 0, m, i) <==> key in Owned(table, m, i) {
      if key < m { assert key % m == key; }
    }
  }

  lemma ShiftKeys(table: seq<nat>, start: nat, i: nat)
    requires table != []
    ensures |AnsweredBy(table, start + 1, |table|, i)| == |AnsweredBy(table, start, |table|, i)|
  {
    SameSlot(table, start, i);
    hide Answers;
    var m := |table|;
    var before, now := AnsweredBy(table, start, m, i), AnsweredBy(table, start + 1, m, i);
    if Answers(table, start, i) {
      assert now == before - {start} + {start + m};
    } else {
      assert now == before;
    }
  }

  /** Of any m consecutive keys an entry answers as many as it owns slots. */
  lemma {:induction false} ConsecutiveKeys(table: seq<nat>, start: nat, i: nat)
    requires table != []
    ensures |AnsweredBy(table, start, |table|, i)| == |Owned(table, |table|, i)|
    decreases start
  {
    hide AnsweredBy, Owned;
    if start == 0 {
      FirstKeys(table, i);
    } else {
      ConsecutiveKeys(table, start - 1, i);
      ShiftKeys(table, start - 1, i);
    }
  }

  /** Load balance of lookups: of any m consecutive keys, entry i of n backends answers m / n, and one more if
      and only if i < m mod n. */
  lemma BalancedLookups(h: Hashes, m: nat, backends: seq<nat>, table: seq<nat>, start: nat, i: nat)
    requires IsLut(h, m, backends, table) && i < |backends|
    ensures |table| == m > 0
    ensures |AnsweredBy(table, start, m, i)| == m / |backends| + if i < m % |backends| then 1 else 0
  {
    ExactBalance(h, m, backends, table, i);
    LutNonEmpty(h, m, backends, table);
    ConsecutiveKeys(table, start, i);
  }

  lemma LutNonEmpty(h: Hashes, m: nat, backends: seq<nat>, table: seq<nat>)
    requires IsLut(h, m, backends, table)
    ensures |table| == m > 0
  {
  }

  /** Among the first n + 1 slots, backend i owns slot n besides those it owns among the first n. */
  lemma OwnedStep(table: seq<nat>, n: nat, i: nat)
    requires n < |table|
    ensures |Owned(table, n + 1, i)| == |Owned(table, n, i)| + if table[n] == i then 1 else 0
  {
  }

  class Table {
    const m: nat
    var table: seq<nat>
    var backends: seq<nat>

    /** A table is either as new, empty, or every entry is the index of a backend. */
    ghost predicate Valid()
      reads this
    {
      && Prime(m) && m < TWO32 && |table| == m
      && if backends == [] then forall c: nat :: c < m ==> table[c] == EMPTY else Fits(table, backends)
    }

    constructor (m: nat)
      requires Prime(m) && m < TWO32
      ensures Valid() && backends == [] && this.m == m
    {
      this.m := m;
      table := seq(m, _ => EMPTY);
      backends := [];
    }

    /** Replaces the table by that of the given backends; refuses, unchanged, when there are none. */
    method Rebuild(h: Hashes, backends: seq<nat>) returns (ok: bool)
      requires Valid()
      modifies this
      ensures Valid() && ok == (backends != [])
      ensures ok ==> this.backends == backends && IsLut(h, m, backends, table)
      ensures !ok ==> unchanged(this)
    {
      hide Prime, IsLut;
      var r := BuildLut(h, m, backends);
      if r.None? {
        return false;
      }
      LutFits(h, m, backends, r.value);
      table, this.backends := r.value, backends;
      return true;
    }

    /** Takes over a table built elsewhere, if it has the right size and every entry is the index of a
        backend; refuses, unchanged, otherwise. */
    method LoadTable(backends: seq<nat>, table: seq<nat>) returns (ok: bool)
      requires Valid()
      modifies this
      ensures Valid() && (ok <==> |table| == m && Fits(table, backends))
      ensures ok ==> this.backends == backends && this.table == table
      ensures !ok ==> unchanged(this)
    {
      if |table| != m {
        return false;
      }
      var c := 0;
      while c < |table|
        invariant c <= |table| && Fits(table[..c], backends)
      {
        if table[c] >= |backends| {
          return false;
        }
        c := c + 1;
      }
      assert table[..c] == table;
      this.table, this.backends := table, backends;
      return true;
    }

    /** The backend that owns the flow's slot; None only while nothing has been loaded. */
    method Lookup(key: nat) returns (r: Option<nat>)
      requires Valid()
      ensures r.None? <==> backends == []
      ensures r.Some? ==> r.value in backends && r.value == Pick(table, backends, key)
      ensures forall i: nat :: i < |backends| && Answers(table, key, i) ==> r == Some(backends[i])
    {
      var slot := table[key % m];
      if slot >= |backends| {
        return None;
      }
      return Some(backends[slot]);
    }

    /** How many slots each backend owns. */
    method SlotCounts() returns (counts: seq<nat>)
      requires Valid() && backends != []
      ensures |counts| == |backends|
      ensures forall i: nat :: i < |counts| ==> counts[i] == |Owned(table, m, i)|
    {
      hide Prime;
      counts := seq(|backends|, _ => 0);
      var c := 0;
      while c < m
        invariant c <= m && |counts| == |backends|
        invariant forall i: nat :: i < |counts| ==> counts[i] == |Owned(table, c, i)|
      {
        forall i: nat { OwnedStep(table, c, i); }
        counts := counts[table[c] := counts[table[c]] + 1];
        c := c + 1;
      }
    }
  }

  lemma LutFits(h: Hashes, m: nat, backends: seq<nat>, table: seq<nat>)
    requires IsLut(h, m, backends, table)
    ensures |table| == m && Fits(table, backends)
  {
    var order :| IsFullFill(h, m, backends, order, table);
    forall c: nat | c < m ensures table[c] < |backends| {
      LutInRange(h, m, backends, table, c);
    }
  }
}
