/** The grant scheduler: shortest remaining message first, with nobody left waiting for long. */
module HomaSrpt {
  import opened Bytes
  import opened HomaTypes
  import opened HomaReceiver
  import opened HomaCredit

  // ----- who is selected -----

  lemma {:induction false} CandidatesExact(incoming: Incoming, order: seq<Key>, i: nat, k: Key)
    requires i <= |order|
    ensures k in Candidates(incoming, order, i) <==>
      k in incoming && incoming[k].NeedsCredit() && k in order[i..]
    decreases |order| - i
  {
    if i < |order| {
      CandidatesExact(incoming, order, i + 1, k);
      assert order[i..] == [order[i]] + order[i + 1..];
    }
  }

  lemma {:induction false} CandidatesDistinct(incoming: Incoming, order: seq<Key>, i: nat)
    requires i <= |order| && Lists(order, {})
    ensures Distinct(Candidates(incoming, order, i))
    decreases |order| - i
  {
    if i < |order| {
      CandidatesDistinct(incoming, order, i + 1);
      CandidatesExact(incoming, order, i + 1, order[i]);
    }
  }

  ghost predicate Distinct<T>(s: seq<T>) {
    forall i, j :: 0 <= i < j < |s| ==> s[i] != s[j]
  }

  ghost predicate Ascending(incoming: Incoming, s: seq<Key>) {
    forall i, j :: 0 <= i < j < |s| ==> RemainingOf(incoming, s[i]) <= RemainingOf(incoming, s[j])
  }

  /** Ranking puts the key in and nothing else. */
  lemma {:induction false} RankMembers(incoming: Incoming, k: Key, ranked: seq<Key>, j: Key)
    ensures |Rank(incoming, k, ranked)| == |ranked| + 1
    ensures j in Rank(incoming, k, ranked) <==> j == k || j in ranked
  {
    if ranked != [] && RemainingOf(incoming, k) > RemainingOf(incoming, ranked[0]) {
      RankMembers(incoming, k, ranked[1..], j);
      assert ranked == [ranked[0]] + ranked[1..];
    }
  }

  lemma {:induction false} RankAscending(incoming: Incoming, k: Key, ranked: seq<Key>)
    requires Ascending(incoming, ranked)
    ensures Ascending(incoming, Rank(incoming, k, ranked))
  {
    if ranked != [] && RemainingOf(incoming, k) > RemainingOf(incoming, ranked[0]) {
      RankAscending(incoming, k, ranked[1..]);
      var r := Rank(incoming, k, ranked[1..]);
      forall i | 0 <= i < |r| ensures RemainingOf(incoming, ranked[0]) <= RemainingOf(incoming, r[i]) {
        RankMembers(incoming, k, ranked[1..], r[i]);
      }
    }
  }

  lemma {:induction false} RankDistinct(incoming: Incoming, k: Key, ranked: seq<Key>)
    requires Distinct(ranked) && k !in ranked
    ensures Distinct(Rank(incoming, k, ranked))
  {
    if ranked != [] && RemainingOf(incoming, k) > RemainingOf(incoming, ranked[0]) {
      RankDistinct(incoming, k, ranked[1..]);
      RankMembers(incoming, k, ranked[1..], ranked[0]);
    }
  }

  /** The sort: ascending, and a rearrangement of the distinct keys given. */
  lemma {:induction false} RankAllFacts(incoming: Incoming, keys: seq<Key>)
    requires Distinct(keys)
    ensures var r := RankAll(incoming, keys);
      Ascending(incoming, r) && Distinct(r) && |r| == |keys| && forall j :: j in r <==> j in keys
  {
    if keys != [] {
      RankAllFacts(incoming, keys[1..]);
      var r := RankAll(incoming, keys[1..]);
      RankAscending(incoming, keys[0], r);
      RankDistinct(incoming, keys[0], r);
      forall j ensures j in Rank(incoming, keys[0], r) <==> j == keys[0] || j in keys[1..] {
        RankMembers(incoming, keys[0], r, j);
      }
      assert keys == [keys[0]] + keys[1..];
      RankMembers(incoming, keys[0], r, keys[0]);
    }
  }

  /** Those selected stay; those starving are added; nobody else is. */
  lemma {:induction false} AddStarvingFacts(cfg: Config, incoming: Incoming, order: seq<Key>, i: nat, selected: seq<Key>, now: Time, k: Key)
    requires i <= |order|
    ensures var r := AddStarving(cfg, incoming, order, i, selected, now);
      && (k in selected ==> k in r)
      && (k in incoming && k in order[i..] && Starving(cfg, incoming[k], now) ==> k in r)
      && (k in r ==> k in selected || (k in incoming && Starving(cfg, incoming[k], now)))
    decreases |order| - i
  {
    if i < |order| {
      hide Starving;
      assert order[i..] == [order[i]] + order[i + 1..];
      if order[i] in incoming && Starving(cfg, incoming[order[i]], now) && order[i] !in selected {
        AddStarvingFacts(cfg, incoming, order, i + 1, selected + [order[i]], now, k);
      } else {
        AddStarvingFacts(cfg, incoming, order, i + 1, selected, now, k);
      }
    }
  }

  lemma {:induction false} SizeOfDistinct<T>(s: seq<T>)
    requires Distinct(s)
    ensures |set x | x in s| == |s|
  {
    if s != [] {
      SizeOfDistinct(s[1..]);
      assert (set x | x in s) == {s[0]} + set x | x in s[1..];
    }
  }

  /** As many messages as are granted at once, all granted, all with no more left to receive than k. */
  ghost predicate Outranks(cfg: Config, incoming: Incoming, granting: seq<Key>, k: Key, ahead: set<Key>)
    requires k in incoming
  {
    && |ahead| == Max(cfg.overcommit, 1)
    && k !in ahead
    && forall j :: j in ahead ==>
         && j in granting && j in incoming
         && incoming[j].NeedsCredit() && incoming[j].Remaining() <= incoming[k].Remaining()
  }

  /** A key ranked but not among the first n comes after n others with no more remaining. */
  lemma RankedLater(incoming: Incoming, ranked: seq<Key>, n: nat, k: Key)
    requires Ascending(incoming, ranked) && Distinct(ranked) && n <= |ranked|
    requires k in ranked && k !in ranked[..n]
    ensures n < |ranked| && |set j | j in ranked[..n]| == n
    ensures forall j :: j in ranked[..n] ==> RemainingOf(incoming, j) <= RemainingOf(incoming, k)
  {
    assert ranked == ranked[..n] + ranked[n..];
    var p :| 0 <= p < |ranked[n..]| && ranked[n..][p] == k;
    assert ranked[n + p] == k;
    SizeOfDistinct(ranked[..n]);
  }

  lemma SelectedIsSrpt(cfg: Config, incoming: Incoming, order: seq<Key>, now: Time, k: Key)
    requires Lists(order, incoming.Keys) && k in incoming && incoming[k].NeedsCredit()
    requires k !in Selected(cfg, incoming, order, now)
    ensures !Starving(cfg, incoming[k], now)
    ensures exists ahead :: Outranks(cfg, incoming, Selected(cfg, incoming, order, now), k, ahead)
  {
    hide Candidates, RankAll, AddStarving, Starving;
    var cands := Candidates(incoming, order, 0);
    var ranked := RankAll(incoming, cands);
    var short := Shortest(cfg, incoming, order);
    assert order[0..] == order;
    CandidatesExact(incoming, order, 0, k);
    CandidatesDistinct(incoming, order, 0);
    RankAllFacts(incoming, cands);
    AddStarvingFacts(cfg, incoming, order, 0, short, now, k);
    RankedLater(incoming, ranked, |short|, k);
    var ahead := set j | j in short;
    forall j | j in ahead
      ensures j in Selected(cfg, incoming, order, now) && j in incoming && j != k
      ensures incoming[j].NeedsCredit() && incoming[j].Remaining() <= incoming[k].Remaining()
    {
      assert j in ranked;
      CandidatesExact(incoming, order, 0, j);
      AddStarvingFacts(cfg, incoming, order, 0, short, now, j);
    }
    assert Outranks(cfg, incoming, Selected(cfg, incoming, order, now), k, ahead);
  }

  // ----- what the selected get -----

  /** Granted to the end, or with half an increment still to come. */
  ghost predicate Served(cfg: Config, m: InMsg) {
    m.grantedTo >= m.totalLen || Outstanding(m) >= cfg.grantIncrement / 2
  }

  lemma IssueGrantServes(cfg: Config, s: ReceiverState, key: Key, now: Time, k: Key)
    requires k in s.incoming
    ensures var s' := IssueGrant(cfg, s, key, now, false).0;
      k in s'.incoming && (k == key || Served(cfg, s.incoming[k]) ==> Served(cfg, s'.incoming[k]))
  {
  }

  lemma {:induction false} GrantFromServes(cfg: Config, s: ReceiverState, keys: seq<Key>, i: nat, now: Time, k: Key)
    requires i <= |keys| && k in s.incoming
    ensures var s' := GrantFrom(cfg, s, keys, i, now).0;
      k in s'.incoming && (k in keys[i..] || Served(cfg, s.incoming[k]) ==> Served(cfg, s'.incoming[k]))
    decreases |keys| - i
  {
    if i < |keys| {
      assert keys[i..] == [keys[i]] + keys[i + 1..];
      IssueGrantServes(cfg, s, keys[i], now, k);
      GrantFromServes(cfg, IssueGrant(cfg, s, keys[i], now, false).0, keys, i + 1, now, k);
    }
  }

  lemma {:induction false} GrantFromOthers(cfg: Config, s: ReceiverState, keys: seq<Key>, i: nat, now: Time, k: Key)
    requires i <= |keys| && k in s.incoming && k !in keys[i..]
    ensures var s' := GrantFrom(cfg, s, keys, i, now).0; k in s'.incoming && s'.incoming[k] == s.incoming[k]
    decreases |keys| - i
  {
    if i < |keys| {
      assert keys[i..] == [keys[i]] + keys[i + 1..];
      GrantFromOthers(cfg, IssueGrant(cfg, s, keys[i], now, false).0, keys, i + 1, now, k);
    }
  }

  /** After scheduling, a message that needs credit is either being granted, and then served, or it
      got its last grant recently and is outranked by a full set of granted messages that have no
      more left than it has. */
  lemma ScheduleIsSrpt(cfg: Config, s: ReceiverState, order: seq<Key>, now: Time, k: Key)
    requires Lists(order, s.incoming.Keys) && k in s.incoming && s.incoming[k].NeedsCredit()
    ensures var s' := Schedule(cfg, s, order, now).0;
      && k in s'.incoming
      && (k in s'.granting ==> Served(cfg, s'.incoming[k]))
      && (k !in s'.granting ==>
            && s'.incoming[k] == s.incoming[k]
            && Since(now, s.incoming[k].lastGrant) < cfg.starveThreshold
            && exists ahead :: Outranks(cfg, s.incoming, s'.granting, k, ahead))
  {
    var selected := Selected(cfg, s.incoming, order, now);
    var s0 := s.(granting := selected);
    assert selected[0..] == selected;
    GrantFromEvolves(cfg, s0, selected, 0, now);
    GrantFromServes(cfg, s0, selected, 0, now, k);
    if k !in selected {
      SelectedIsSrpt(cfg, s.incoming, order, now, k);
      GrantFromOthers(cfg, s0, selected, 0, now, k);
    }
  }

  lemma {:induction false} SmallerSubset<T>(a: set<T>, b: set<T>)
    requires a <= b
    ensures |a| <= |b|
  {
    if a != {} {
      var x :| x in a;
      SmallerSubset(a - {x}, b - {x});
    }
  }

  /** Only messages that need credit are granted, and of those that are not starving no more than the degree of
      overcommitment. */
  lemma ScheduleOnly(cfg: Config, s: ReceiverState, order: seq<Key>, now: Time)
    requires Lists(order, s.incoming.Keys)
    ensures var granting := Schedule(cfg, s, order, now).0.granting;
      && (forall k :: k in granting ==> k in s.incoming && s.incoming[k].NeedsCredit())
      && |set k | k in granting && k in s.incoming && !Starving(cfg, s.incoming[k], now)| <= Max(cfg.overcommit, 1)
  {
    hide Candidates, RankAll, AddStarving, GrantFrom;
    var incoming := s.incoming;
    var cands, short, selected := Candidates(incoming, order, 0), Shortest(cfg, incoming, order), Selected(cfg, incoming, order, now);
    GrantFromEvolves(cfg, s.(granting := selected), selected, 0, now);
    assert order[0..] == order;
    CandidatesDistinct(incoming, order, 0);
    RankAllFacts(incoming, cands);
    forall k | k in selected
      ensures k in incoming && incoming[k].NeedsCredit()
      ensures k in short || Starving(cfg, incoming[k], now)
    {
      AddStarvingFacts(cfg, incoming, order, 0, short, now, k);
      if k in short {
        assert k in RankAll(incoming, cands);
        CandidatesExact(incoming, order, 0, k);
      }
    }
    hide Starving;
    var calm := set k | k in selected && k in incoming && !Starving(cfg, incoming[k], now);
    SmallerSubset(calm, set k | k in short);
    SizeOfDistinct(short);
  }
}
