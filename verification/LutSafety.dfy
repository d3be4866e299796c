/** What every interleaving of the publisher's steps keeps, and what it means for readers. */
module LutSafety {
  import opened Maglev
  import opened MaglevTable
  import opened LutPublisher

  lemma FreshOk(h: Hashes, m: nat, image: Image)
    requires IsImage(h, m, image)
    ensures Inv(h, Fresh(m, image))
  {
    hide IsImage;
    var s := Fresh(m, image);
    assert Inside(s.threads, 0) == {} && Inside(s.threads, 1) == {};
  }

  /** A reader's move keeps the counts right if it adds 1 exactly when it comes in. */
  lemma MoveCounts(s: State, id: nat, d: int, r: Reader)
    requires CountsOk(s) && (id in s.threads ==> s.threads[id].idx == r.idx)
    requires d == Bit(In(r, r.idx)) - Bit(id in s.threads && In(s.threads[id], r.idx))
    ensures CountsOk(Moved(s, id, d, r))
  {
    hide Inside;
    forall i: Index ensures At(Moved(s, id, d, r).readers, i) == |Inside(Moved(s, id, d, r).threads, i)| {
      CountMoved(s.threads, id, r, i);
      CountWithout(s.threads, id, i);
    }
  }

  lemma LeaveCounts(s: State, id: nat)
    requires CountsOk(s) && id in s.threads && In(s.threads[id], s.threads[id].idx)
    ensures CountsOk(Left(s, id))
  {
    hide Inside;
    forall i: Index ensures At(Left(s, id).readers, i) == |Inside(Left(s, id).threads, i)| {
      CountWithout(s.threads, id, i);
    }
  }

  /** A count of 0 means that nobody uses the buffer. */
  lemma NoneInside(s: State, i: Index)
    requires CountsOk(s) && At(s.readers, i) == 0
    ensures Unused(s, i)
  {
    assert Inside(s.threads, i) == {};
    forall id | id in s.threads ensures !Uses(s.threads[id], i) {
      assert id !in Inside(s.threads, i);
    }
  }

  predicate Writers(e: Event) {
    !(e.ReadActive? || e.Enter? || e.Recheck? || e.Leave? || e.ReadVersion? || e.Drop?)
  }

  predicate StoresTable(e: Event) {
    e.BeginTable? || e.EndTable?
  }

  predicate StoresBackends(e: Event) {
    e.BeginBackends? || e.EndBackends?
  }

  lemma PrepareStep(h: Hashes, s: State, e: Event)
    requires Inv(h, s) && Enabled(h, s, e) && Writers(e) && !StoresTable(e) && !StoresBackends(e) && !e.CountVersion? && !e.Flip?
    ensures Inv(h, Apply(h, s, e))
  {
    hide IsImage, Inside, At, Put;
    if e.SeeNoReaders? { NoneInside(s, 1 - s.active); }
  }

  /** The writer's stores change only the buffer nobody uses. */
  lemma TableStep(h: Hashes, s: State, e: Event)
    requires Inv(h, s) && Enabled(h, s, e) && StoresTable(e)
    ensures Inv(h, Apply(h, s, e))
  {
    hide IsImage, Inside, At, Put;
  }

  lemma BackendsStep(h: Hashes, s: State, e: Event)
    requires Inv(h, s) && Enabled(h, s, e) && StoresBackends(e)
    ensures Inv(h, Apply(h, s, e))
  {
    hide IsImage, Inside, At, Put;
  }

  lemma CountStep(h: Hashes, s: State)
    requires Inv(h, s) && Enabled(h, s, CountVersion)
    ensures Inv(h, Apply(h, s, CountVersion))
  {
    hide IsImage, Inside;
  }

  lemma FlipStep(h: Hashes, s: State)
    requires Inv(h, s) && Enabled(h, s, Flip)
    ensures Inv(h, Apply(h, s, Flip))
  {
    hide IsImage, Inside, At, Put;
  }

  /** Everything but the readers and their counts is the same. */
  predicate SameBuffers(s: State, t: State) {
    t == s.(readers := t.readers, threads := t.threads)
  }

  lemma WriterKept(h: Hashes, s: State, t: State)
    requires SameBuffers(s, t) && WriterOk(h, s) && (Unused(s, 1 - s.active) ==> Unused(t, 1 - t.active))
    ensures WriterOk(h, t)
  {
    hide IsImage, Unused;
  }

  lemma BuffersKept(s: State, t: State)
    requires SameBuffers(s, t)
    ensures LabelsOk(s) ==> LabelsOk(t)
    ensures Intact(s, s.active) ==> Intact(t, t.active)
  {
  }

  lemma ReaderKept(s: State, t: State, r: Reader)
    requires SameBuffers(s, t) && ReaderOk(s, r)
    ensures ReaderOk(t, r)
  {
  }

  /** A reader may come to use only the active buffer, and only with a version that fits it. */
  lemma MoveStep(h: Hashes, s: State, id: nat, d: int, r: Reader)
    requires Inv(h, s) && CountsOk(Moved(s, id, d, r)) && ReaderOk(s, r)
    requires Uses(r, r.idx) ==> r.idx == s.active || (id in s.threads && Uses(s.threads[id], r.idx))
    ensures Inv(h, Moved(s, id, d, r))
  {
    hide IsImage, CountsOk, WriterOk, Intact, LabelsOk, ReaderOk;
    var t := Moved(s, id, d, r);
    WriterKept(h, s, t);
    BuffersKept(s, t);
    forall k | k in t.threads ensures ReaderOk(t, t.threads[k]) {
      ReaderKept(s, t, t.threads[k]);
    }
  }

  lemma LeaveStep(h: Hashes, s: State, id: nat)
    requires Inv(h, s) && id in s.threads && In(s.threads[id], s.threads[id].idx)
    ensures Inv(h, Left(s, id))
  {
    hide IsImage, CountsOk, WriterOk, Intact, LabelsOk, ReaderOk;
    LeaveCounts(s, id);
    var t := Left(s, id);
    WriterKept(h, s, t);
    BuffersKept(s, t);
    forall k | k in t.threads ensures ReaderOk(t, t.threads[k]) {
      ReaderKept(s, t, t.threads[k]);
    }
  }

  /** Between a recheck that succeeded and the drop, the version is that of the buffer or the next. */
  lemma VersionFits(h: Hashes, s: State, id: nat)
    requires Inv(h, s) && id in s.threads && s.threads[id].Checked?
    ensures ReaderOk(s, Holding(s.threads[id].idx, s.version))
  {
    hide IsImage, CountsOk;
    var i := s.threads[id].idx;
    assert ReaderOk(s, s.threads[id]) && Uses(s.threads[id], i);
  }

  lemma ReaderStep(h: Hashes, s: State, e: Event)
    requires Inv(h, s) && Enabled(h, s, e) && !Writers(e)
    ensures Inv(h, Apply(h, s, e))
  {
    hide IsImage, CountsOk, WriterOk, Intact, LabelsOk;
    match e
    case ReadActive(id) =>
      MoveCounts(s, id, 0, Loaded(s.active));
      MoveStep(h, s, id, 0, Loaded(s.active));
    case Enter(id) =>
      MoveCounts(s, id, 1, Entered(s.threads[id].idx));
      MoveStep(h, s, id, 1, Entered(s.threads[id].idx));
    case Recheck(id) =>
      var i := s.threads[id].idx;
      MoveCounts(s, id, 0, if s.active == i then Checked(i) else Missed(i));
      MoveStep(h, s, id, 0, if s.active == i then Checked(i) else Missed(i));
    case Leave(id) => LeaveStep(h, s, id);
    case ReadVersion(id) =>
      VersionFits(h, s, id);
      MoveCounts(s, id, 0, Holding(s.threads[id].idx, s.version));
      MoveStep(h, s, id, 0, Holding(s.threads[id].idx, s.version));
    case Drop(id) => LeaveStep(h, s, id);
    case _ =>
  }

  lemma StepOk(h: Hashes, s: State, e: Event)
    requires Inv(h, s) && Enabled(h, s, e)
    ensures Inv(h, Apply(h, s, e))
  {
    hide Inv, Apply;
    if e.CountVersion? {
      CountStep(h, s);
    } else if e.Flip? {
      FlipStep(h, s);
    } else if StoresTable(e) {
      TableStep(h, s, e);
    } else if StoresBackends(e) {
      BackendsStep(h, s, e);
    } else if Writers(e) {
      PrepareStep(h, s, e);
    } else {
      ReaderStep(h, s, e);
    }
  }

  // ----- whole runs -----

  ghost predicate IsRun(h: Hashes, run: seq<State>, es: seq<Event>) {
    && |run| == |es| + 1
    && Init(h, run[0])
    && forall k: nat :: k < |es| ==> Enabled(h, run[k], es[k]) && run[k + 1] == Apply(h, run[k], es[k])
  }

  lemma {:induction false} RunInv(h: Hashes, run: seq<State>, es: seq<Event>, k: nat)
    requires IsRun(h, run, es) && k < |run|
    ensures Inv(h, run[k])
  {
    hide Inv, Apply, Enabled;
    if k == 0 {
      var image :| IsImage(h, run[0].m, image) && run[0] == Fresh(run[0].m, image);
      FreshOk(h, run[0].m, image);
    } else {
      RunInv(h, run, es, k - 1);
      StepOk(h, run[k - 1], es[k - 1]);
    }
  }

  /** Reader id is past a successful recheck of buffer i and has not dropped its snapshot. */
  predicate Reads(s: State, id: nat, i: Index) {
    id in s.threads && Uses(s.threads[id], i)
  }

  /** What a reader of buffer i sees is the complete image of one publish: that of version v. */
  ghost predicate Sees(s: State, i: Index, v: nat) {
    && 1 <= v <= |s.published|
    && At(s.tables, i) == Whole(s.published[v - 1].table)
    && At(s.backends, i) == Whole(s.published[v - 1].backends)
  }

  /** In every interleaving, whoever uses a buffer sees the whole image of one version, and the version
      number in its snapshot is that version or the next: never older, never further ahead. */
  lemma SnapshotSafe(h: Hashes, run: seq<State>, es: seq<Event>, k: nat, id: nat, i: Index)
    requires IsRun(h, run, es) && k < |run| && Reads(run[k], id, i)
    ensures exists v: nat ::
      && Sees(run[k], i, v)
      && IsImage(h, run[k].m, run[k].published[v - 1])
      && (run[k].threads[id].Holding? ==> v <= run[k].threads[id].ver <= v + 1)
  {
    RunInv(h, run, es, k);
    hide IsImage;
    var s := run[k];
    assert ReaderOk(s, s.threads[id]);
    assert Sees(s, i, At(s.labels, i));
  }

  /** The number in a snapshot is its table's own version if and only if, when the number is read,
      the buffer is still active and the writer has not yet counted the next version. */
  lemma SkewExactly(h: Hashes, run: seq<State>, es: seq<Event>, k: nat, id: nat)
    requires IsRun(h, run, es) && k < |es| && es[k] == ReadVersion(id)
    ensures id in run[k].threads && id in run[k + 1].threads && run[k + 1].threads[id].Holding?
    ensures var i := run[k].threads[id].idx;
      run[k + 1].threads[id].ver == At(run[k + 1].labels, i) <==> i == run[k].active && !run[k].writer.Counted?
  {
    RunInv(h, run, es, k);
    hide IsImage, CountsOk;
    var s := run[k];
    assert Enabled(h, s, es[k]) && run[k + 1] == Apply(h, s, es[k]);
    assert ReaderOk(s, s.threads[id]) && Uses(s.threads[id], s.threads[id].idx);
  }

  /** No step writes a buffer that is in use, or changes what was published. */
  lemma UseProtects(h: Hashes, s: State, e: Event, id: nat, i: Index)
    requires Inv(h, s) && Enabled(h, s, e) && Reads(s, id, i)
    ensures var t := Apply(h, s, e);
      && At(t.tables, i) == At(s.tables, i) && At(t.backends, i) == At(s.backends, i)
      && At(t.labels, i) == At(s.labels, i) && s.published <= t.published
  {
    hide IsImage, CountsOk, LabelsOk, At, Put;
  }

  /** From its recheck to its drop, a reader's buffer does not change, however long that is and
      whatever the others do. */
  lemma {:induction false} SnapshotStable(h: Hashes, run: seq<State>, es: seq<Event>, j: nat, k: nat, id: nat, i: Index)
    requires IsRun(h, run, es) && j <= k < |run|
    requires forall l: nat :: j <= l <= k ==> Reads(run[l], id, i)
    ensures At(run[k].tables, i) == At(run[j].tables, i) && At(run[k].backends, i) == At(run[j].backends, i)
    ensures At(run[k].labels, i) == At(run[j].labels, i) && run[j].published <= run[k].published
    decreases k
  {
    hide Apply, Enabled, Reads;
    if j < k {
      SnapshotStable(h, run, es, j, k - 1, id, i);
      RunInv(h, run, es, k - 1);
      UseProtects(h, run[k - 1], es[k - 1], id, i);
    }
  }

  /** A lookup through a snapshot stays in bounds and gives the backend the published table gives. */
  lemma LookupSafe(h: Hashes, run: seq<State>, es: seq<Event>, k: nat, id: nat, i: Index, key: nat)
    requires IsRun(h, run, es) && k < |run| && Reads(run[k], id, i)
    ensures At(run[k].tables, i).Whole? && At(run[k].backends, i).Whole?
    ensures var table, backends := At(run[k].tables, i).value, At(run[k].backends, i).value;
      && table != [] && Fits(table, backends) && Pick(table, backends, key) in backends
      && forall i: nat :: Answers(table, key, i) ==> i < |backends| && Pick(table, backends, key) == backends[i]
  {
    SnapshotSafe(h, run, es, k, id, i);
    var v: nat :| Sees(run[k], i, v) && IsImage(h, run[k].m, run[k].published[v - 1]);
    var image := run[k].published[v - 1];
    LutFits(h, run[k].m, image.backends, image.table);
    forall i: nat | Answers(image.table, key, i) ensures i < |image.backends| && Pick(image.table, image.backends, key) == image.backends[i] {
      PickIsOwner(image.table, image.backends, key, i);
    }
  }

  /** The version readers get now. */
  function Current(s: State): nat {
    At(s.labels, s.active)
  }

  lemma CurrentGrows(h: Hashes, s: State, e: Event)
    requires Inv(h, s) && Enabled(h, s, e)
    ensures Current(Apply(h, s, e)) >= Current(s)
  {
    hide IsImage, CountsOk, At, Put;
  }

  lemma {:induction false} CurrentMonotone(h: Hashes, run: seq<State>, es: seq<Event>, j: nat, k: nat)
    requires IsRun(h, run, es) && j <= k < |run|
    ensures Current(run[j]) <= Current(run[k])
    decreases k
  {
    hide Apply, Enabled, Current;
    if j < k {
      CurrentMonotone(h, run, es, j, k - 1);
      RunInv(h, run, es, k - 1);
      CurrentGrows(h, run[k - 1], es[k - 1]);
    }
  }

  /** Once publish has returned v, every recheck that succeeds gives version v or a later one. */
  lemma PublishedIsSeen(h: Hashes, run: seq<State>, es: seq<Event>, j: nat, k: nat, id: nat)
    requires IsRun(h, run, es) && j < k < |es| && es[j].Flip?
    requires es[k] == Recheck(id) && Reads(run[k + 1], id, run[k].threads[id].idx)
    ensures run[j].writer.Counted?
    ensures run[j].writer.ver <= At(run[k + 1].labels, run[k].threads[id].idx)
  {
    CurrentMonotone(h, run, es, j + 1, k);
    RunInv(h, run, es, j);
    hide IsImage, CountsOk;
    assert Current(run[j + 1]) == run[j].writer.ver;
  }

  // ----- snapshots are obtained, and publishes take effect -----

  ghost predicate Leads(h: Hashes, run: seq<State>, es: seq<Event>, s: State) {
    IsRun(h, run, es) && run[|run| - 1] == s
  }

  ghost predicate Reachable(h: Hashes, s: State) {
    exists run, es :: Leads(h, run, es, s)
  }

  lemma Extend(h: Hashes, s: State, e: Event)
    requires Reachable(h, s) && Enabled(h, s, e)
    ensures Reachable(h, Apply(h, s, e))
  {
    hide Enabled, Apply;
    var run, es :| Leads(h, run, es, s);
    var run', es' := run + [Apply(h, s, e)], es + [e];
    assert Leads(h, run', es', Apply(h, s, e)) by {
      forall k: nat | k < |es'| ensures Enabled(h, run'[k], es'[k]) && run'[k + 1] == Apply(h, run'[k], es'[k]) {
        if k < |es| { assert Enabled(h, run[k], es[k]); }
      }
    }
  }

  lemma Then(h: Hashes, s: State, e: Event) returns (t: State)
    requires Reachable(h, s) && Enabled(h, s, e)
    ensures Reachable(h, t) && t == Apply(h, s, e)
  {
    Extend(h, s, e);
    t := Apply(h, s, e);
  }

  lemma ReachableInv(h: Hashes, s: State)
    requires Reachable(h, s)
    ensures Inv(h, s)
  {
    hide Inv, Enabled, Apply;
    var run, es :| Leads(h, run, es, s);
    RunInv(h, run, es, |run| - 1);
  }

  /** A recheck leaves the reader using its buffer if and only if that buffer is active at that step. */
  lemma RecheckIff(h: Hashes, run: seq<State>, es: seq<Event>, k: nat, id: nat)
    requires IsRun(h, run, es) && k < |es| && es[k] == Recheck(id)
    ensures id in run[k].threads && run[k + 1].active == run[k].active
    ensures Reads(run[k + 1], id, run[k].threads[id].idx) <==> run[k].threads[id].idx == run[k].active
  {
    hide IsImage;
    assert Enabled(h, run[k], es[k]) && run[k + 1] == Apply(h, run[k], es[k]);
  }

  /** What reader id does next: another round of snapshot(), or, with a snapshot in hand, drop it. */
  function Own(s: State, id: nat): Event {
    if id !in s.threads then ReadActive(id)
    else
      match s.threads[id]
      case Loaded(_) => Enter(id)
      case Entered(_) => Recheck(id)
      case Missed(_) => Leave(id)
      case Checked(_) => ReadVersion(id)
      case Holding(_, _) => Drop(id)
  }

  lemma OwnEnabled(h: Hashes, s: State, id: nat)
    ensures Enabled(h, s, Own(s, id)) && !Writers(Own(s, id))
  {
  }

  /** The state after reader id has taken n steps alone. */
  ghost function Alone(h: Hashes, s: State, id: nat, n: nat): State
    decreases n
  {
    OwnEnabled(h, s, id);
    if n == 0 then s else Alone(h, Apply(h, s, Own(s, id)), id, n - 1)
  }

  /** Reader id holds a snapshot of the version current in s, and what it sees is that version's image. */
  ghost predicate HoldsCurrent(s: State, id: nat, t: State) {
    && id in t.threads && t.threads[id] == Holding(s.active, s.version)
    && Sees(t, s.active, Current(s)) && t.published == s.published
    && Current(s) <= s.version <= Current(s) + 1
  }

  /** From every reachable state, a reader that starts and runs alone holds, four steps later, a snapshot of the
      version current then. */
  lemma SnapshotAlone(h: Hashes, s: State, id: nat)
    requires Reachable(h, s) && id !in s.threads
    ensures HoldsCurrent(s, id, Alone(h, s, id, 4))
  {
    ReachableInv(h, s);
    hide IsImage, CountsOk, WriterOk, Reachable;
    var s1 := Apply(h, s, ReadActive(id));
    var s2 := Apply(h, s1, Enter(id));
    var s3 := Apply(h, s2, Recheck(id));
    var s4 := Apply(h, s3, ReadVersion(id));
    assert s3.threads[id] == Checked(s.active);
    assert Alone(h, s4, id, 0) == s4;
    assert Alone(h, s3, id, 1) == s4;
    assert Alone(h, s2, id, 2) == s4;
    assert Alone(h, s1, id, 3) == s4;
  }

  /** How many steps at most until the reader is out or has checked. */
  function Ahead(s: State, id: nat): nat {
    if id !in s.threads then 0
    else match s.threads[id]
      case Loaded(_) => 3 case Entered(_) => 2 case Missed(_) => 1 case Checked(_) => 1 case Holding(_, _) => 0
  }

  lemma {:induction false} SnapshotSooner(h: Hashes, s: State, id: nat, d: nat) returns (n: nat)
    requires Reachable(h, s) && Ahead(s, id) <= d
    ensures n <= d + 4 && var t := Alone(h, s, id, n); id in t.threads && t.threads[id].Holding?
    decreases d
  {
    hide IsImage, Inv;
    OwnEnabled(h, s, id);
    if id !in s.threads {
      SnapshotAlone(h, s, id);
      n := 4;
    } else if s.threads[id].Holding? {
      n := 0;
    } else {
      var s' := Apply(h, s, Own(s, id));
      Extend(h, s, Own(s, id));
      hide Reachable;
      n := SnapshotSooner(h, s', id, d - 1);
      n := n + 1;
    }
  }

  /** A reader anywhere in snapshot(), even one whose buffer has been replaced, runs into a snapshot in at most
      seven steps alone. */
  lemma SnapshotFromAnywhere(h: Hashes, s: State, id: nat) returns (n: nat)
    requires Reachable(h, s)
    ensures n <= 7 && var t := Alone(h, s, id, n); id in t.threads && t.threads[id].Holding?
  {
    hide Reachable, Alone;
    n := SnapshotSooner(h, s, id, 3);
  }

  /** From every reachable state in which the writer rests and nobody is inside the buffer that is not active,
      publishing alone makes the image the current one, in the other buffer, under the next version. */
  lemma PublishAlone(h: Hashes, s: State, b: Image) returns (t: State)
    requires Reachable(h, s) && IsImage(h, s.m, b) && s.writer.Resting? && At(s.readers, 1 - s.active) == 0
    ensures Reachable(h, t) && t.writer.Resting? && t.active == 1 - s.active
    ensures Current(t) == t.version == s.version + 1 && t.published == s.published + [b] && Sees(t, t.active, Current(t))
    ensures t.threads == s.threads
  {
    hide Reachable, IsImage;
    var i := s.active;
    var s1 := Then(h, s, LoadActive(b.backends));
    var s2 := Then(h, s1, SeeNoReaders);
    var s3 := Then(h, s2, Build(b.table));
    var s4 := Then(h, s3, BeginTable);
    var s5 := Then(h, s4, EndTable);
    var s6 := Then(h, s5, BeginBackends);
    var s7 := Then(h, s6, EndBackends);
    assert s7 == s.(tables := Put(s.tables, 1 - i, Whole(b.table)), backends := Put(s.backends, 1 - i, Whole(b.backends)),
                    writer := WroteBackends(i, b));
    var s8 := Then(h, s7, CountVersion);
    t := Then(h, s8, Flip);
    ReachableInv(h, t);
  }

  // ----- the version skew does happen -----

  lemma ReaderChecks(h: Hashes, m: nat, a: Image)
    requires IsImage(h, m, a)
    ensures Reachable(h, Fresh(m, a).(readers := Two(1, 0), threads := map[0 := Checked(0)]))
  {
    var s0 := Fresh(m, a);
    assert Leads(h, [s0], [], s0);
    hide IsImage, Reachable;
    var s1 := Then(h, s0, ReadActive(0));
    var s2 := Then(h, s1, Enter(0));
    var s3 := Then(h, s2, Recheck(0));
    assert s3 == s0.(readers := Two(1, 0), threads := map[0 := Checked(0)]);
  }

  lemma WriterClears(h: Hashes, s: State, b: Image)
    requires Reachable(h, s) && IsImage(h, s.m, b) && s.writer.Resting? && s.active == 0 && s.readers.one == 0
    ensures Reachable(h, s.(writer := Built(0, b)))
  {
    hide IsImage, Reachable;
    var s1 := Then(h, s, LoadActive(b.backends));
    var s2 := Then(h, s1, SeeNoReaders);
    var s3 := Then(h, s2, Build(b.table));
  }

  lemma WriterStores(h: Hashes, s: State, b: Image)
    requires Reachable(h, s) && s.writer == Built(0, b)
    ensures Reachable(h, s.(tables := Put(s.tables, 1, Whole(b.table)), backends := Put(s.backends, 1, Whole(b.backends)),
                            writer := WroteBackends(0, b)))
  {
    hide IsImage, Reachable;
    var s1 := Then(h, s, BeginTable);
    var s2 := Then(h, s1, EndTable);
    var s3 := Then(h, s2, BeginBackends);
    var s4 := Then(h, s3, EndBackends);
  }

  /** A reader that checks just before the writer counts, and reads the version just after, holds
      version 1's table under the number 2. */
  lemma SkewHappens(h: Hashes, m: nat, a: Image, b: Image)
    requires IsImage(h, m, a) && IsImage(h, m, b)
    ensures exists s, id: nat ::
      Reachable(h, s) && id in s.threads && s.threads[id] == Holding(0, 2) && Sees(s, 0, 1) && s.published == [a, b]
  {
    hide IsImage, Reachable;
    ReaderChecks(h, m, a);
    var s := Fresh(m, a).(readers := Two(1, 0), threads := map[0 := Checked(0)]);
    WriterClears(h, s, b);
    WriterStores(h, s.(writer := Built(0, b)), b);
    var s' := s.(tables := Put(s.tables, 1, Whole(b.table)), backends := Put(s.backends, 1, Whole(b.backends)),
                 writer := WroteBackends(0, b));
    var t := Then(h, s', CountVersion);
    var u := Then(h, t, ReadVersion(0));
    assert u.threads[0] == Holding(0, 2) && Sees(u, 0, 1);
  }
}
