/** The double-buffered publisher of Maglev tables: one writer, any number of lock-free readers, each
    atomic operation and each half of a buffer write a step of its own. A run is any interleaving of
    such steps. */
module LutPublisher {
  import opened Maglev
  import opened MaglevTable

  /** Index of one of the two buffers. */
  type Index = i: int | 0 <= i < 2

  datatype Two<T> = Two(zero: T, one: T)

  function At<T>(p: Two<T>, i: Index): T {
    if i == 0 then p.zero else p.one
  }

  function Put<T>(p: Two<T>, i: Index, v: T): (q: Two<T>)
    ensures At(q, i) == v && At(q, 1 - i) == At(p, 1 - i)
  {
    if i == 0 then p.(zero := v) else p.(one := v)
  }

  /** A memory cell that is not written atomically: while a write is going on it is torn. */
  datatype Cell<T> = Whole(value: T) | Torn

  /** What one publish produces. */
  datatype Image = Image(backends: seq<nat>, table: seq<nat>)

  /** Where the writer is in publish(backends), and its local variables. */
  datatype Writer =
    | Resting
    | Chose(cur: Index, backends: seq<nat>)
    | Cleared(cur: Index, backends: seq<nat>)
    | Built(cur: Index, image: Image)
    | WritingTable(cur: Index, image: Image)
    | WroteTable(cur: Index, image: Image)
    | WritingBackends(cur: Index, image: Image)
    | WroteBackends(cur: Index, image: Image)
    | Counted(cur: Index, ver: nat)

  /** Where a reader is in snapshot(), or that it holds the snapshot it got. */
  datatype Reader =
    | Loaded(idx: Index)
    | Entered(idx: Index)
    | Missed(idx: Index)
    | Checked(idx: Index)
    | Holding(idx: Index, ver: nat)

  /** The publisher, its writer and its readers. The last two fields are history: every image
      published so far, version 1 first, and the version each buffer was last published under. */
  datatype State = State(
    m: nat,
    tables: Two<Cell<seq<nat>>>,
    backends: Two<Cell<seq<nat>>>,
    readers: Two<int>,
    active: Index,
    version: nat,
    writer: Writer,
    threads: map<nat, Reader>,
    published: seq<Image>,
    labels: Two<nat>)

  /** A step: of the writer, or of the reader with the given number. */
  datatype Event =
    | LoadActive(backends: seq<nat>)
    | SeeNoReaders
    | Build(table: seq<nat>)
    | RefuseToBuild
    | BeginTable
    | EndTable
    | BeginBackends
    | EndBackends
    | CountVersion
    | Flip
    | ReadActive(id: nat)
    | Enter(id: nat)
    | Recheck(id: nat)
    | Leave(id: nat)
    | ReadVersion(id: nat)
    | Drop(id: nat)

  ghost predicate IsImage(h: Hashes, m: nat, image: Image) {
    IsLut(h, m, image.backends, image.table)
  }

  /** As `new` leaves the publisher: version 1 in buffer 0. */
  ghost predicate Init(h: Hashes, s: State) {
    exists image :: IsImage(h, s.m, image) && s == Fresh(s.m, image)
  }

  function Fresh(m: nat, image: Image): State {
    State(m, Two(Whole(image.table), Whole(seq(m, _ => EMPTY))), Two(Whole(image.backends), Whole([])),
          Two(0, 0), 0, 1, Resting, map[], [image], Two(1, 0))
  }

  /** When a step can be taken. The writer leaves its spin loop only when the count it reads is 0. */
  ghost predicate Enabled(h: Hashes, s: State, e: Event) {
    match e
    case LoadActive(_) => s.writer.Resting?
    case SeeNoReaders => s.writer.Chose? && At(s.readers, 1 - s.writer.cur) == 0
    case Build(table) => s.writer.Cleared? && IsImage(h, s.m, Image(s.writer.backends, table))
    case RefuseToBuild => s.writer.Cleared? && s.writer.backends == []
    case BeginTable => s.writer.Built?
    case EndTable => s.writer.WritingTable?
    case BeginBackends => s.writer.WroteTable?
    case EndBackends => s.writer.WritingBackends?
    case CountVersion => s.writer.WroteBackends?
    case Flip => s.writer.Counted?
    case ReadActive(id) => id !in s.threads
    case Enter(id) => id in s.threads && s.threads[id].Loaded?
    case Recheck(id) => id in s.threads && s.threads[id].Entered?
    case Leave(id) => id in s.threads && s.threads[id].Missed?
    case ReadVersion(id) => id in s.threads && s.threads[id].Checked?
    case Drop(id) => id in s.threads && s.threads[id].Holding?
  }

  ghost function Apply(h: Hashes, s: State, e: Event): State
    requires Enabled(h, s, e)
  {
    var w := s.writer;
    match e
    case LoadActive(backends) => s.(writer := Chose(s.active, backends))
    case SeeNoReaders => s.(writer := Cleared(w.cur, w.backends))
    case Build(table) => s.(writer := Built(w.cur, Image(w.backends, table)))
    case RefuseToBuild => s.(writer := Resting)
    case BeginTable => s.(tables := Put(s.tables, 1 - w.cur, Torn), writer := WritingTable(w.cur, w.image))
    case EndTable =>
      s.(tables := Put(s.tables, 1 - w.cur, Whole(w.image.table)), writer := WroteTable(w.cur, w.image))
    case BeginBackends =>
      s.(backends := Put(s.backends, 1 - w.cur, Torn), writer := WritingBackends(w.cur, w.image))
    case EndBackends =>
      s.(backends := Put(s.backends, 1 - w.cur, Whole(w.image.backends)), writer := WroteBackends(w.cur, w.image))
    case CountVersion =>
      s.(version := s.version + 1, writer := Counted(w.cur, s.version + 1),
         published := s.published + [w.image], labels := Put(s.labels, 1 - w.cur, s.version + 1))
    case Flip => s.(active := 1 - w.cur, writer := Resting)
    case ReadActive(id) => Moved(s, id, 0, Loaded(s.active))
    case Enter(id) => Moved(s, id, 1, Entered(s.threads[id].idx))
    case Recheck(id) =>
      var i := s.threads[id].idx;
      Moved(s, id, 0, if s.active == i then Checked(i) else Missed(i))
    case Leave(id) => Left(s, id)
    case ReadVersion(id) => Moved(s, id, 0, Holding(s.threads[id].idx, s.version))
    case Drop(id) => Left(s, id)
  }

  /** Reader id goes to r, having added d to the count of its buffer. */
  function Moved(s: State, id: nat, d: int, r: Reader): State {
    s.(readers := Put(s.readers, r.idx, At(s.readers, r.idx) + d), threads := s.threads[id := r])
  }

  /** Reader id subtracts 1 from the count of its buffer, and is out. */
  function Left(s: State, id: nat): State
    requires id in s.threads
  {
    var i := s.threads[id].idx;
    s.(readers := Put(s.readers, i, At(s.readers, i) - 1), threads := s.threads - {id})
  }

  // ----- counting readers -----

  /** Past its increment of the count of buffer i and before its decrement. */
  predicate In(r: Reader, i: Index) {
    !r.Loaded? && r.idx == i
  }

  /** Past a recheck that succeeded on buffer i: from here on the reader uses its contents. */
  predicate Uses(r: Reader, i: Index) {
    (r.Checked? || r.Holding?) && r.idx == i
  }

  ghost function Inside(threads: map<nat, Reader>, i: Index): set<nat> {
    set id | id in threads && In(threads[id], i)
  }

  ghost function Bit(b: bool): int {
    if b then 1 else 0
  }

  /** The readers inside other than id are as many before and after id's step. */
  lemma CountWithout(threads: map<nat, Reader>, id: nat, i: Index)
    ensures |Inside(threads, i)| == |Inside(threads - {id}, i)| + Bit(id in threads && In(threads[id], i))
  {
    hide In;
    var rest := Inside(threads - {id}, i);
    if id in threads && In(threads[id], i) {
      assert Inside(threads, i) == rest + {id};
    } else {
      assert Inside(threads, i) == rest;
    }
  }

  lemma CountMoved(threads: map<nat, Reader>, id: nat, r: Reader, i: Index)
    ensures |Inside(threads[id := r], i)| == |Inside(threads - {id}, i)| + Bit(In(r, i))
  {
    CountWithout(threads[id := r], id, i);
    assert threads[id := r] - {id} == threads - {id};
  }

  // ----- the invariant -----

  /** The counts are the number of readers inside. */
  ghost predicate CountsOk(s: State) {
    forall i: Index :: At(s.readers, i) == |Inside(s.threads, i)|
  }

  /** No reader uses the contents of buffer i. */
  ghost predicate Unused(s: State, i: Index) {
    forall id :: id in s.threads ==> !Uses(s.threads[id], i)
  }

  /** Buffer i holds, whole, the image of the version it was published under. */
  ghost predicate Intact(s: State, i: Index) {
    var v := At(s.labels, i);
    && 1 <= v <= |s.published|
    && At(s.tables, i) == Whole(s.published[v - 1].table)
    && At(s.backends, i) == Whole(s.published[v - 1].backends)
  }

  /** The writer works on the buffer that is not active, and from the end of its spin loop to the flip
      nobody uses that buffer. */
  ghost predicate WriterOk(h: Hashes, s: State) {
    var w := s.writer;
    && (!w.Resting? ==> w.cur == s.active)
    && (!w.Resting? && !w.Chose? ==> Unused(s, 1 - s.active))
    && (w.Built? || w.WritingTable? || w.WroteTable? || w.WritingBackends? || w.WroteBackends? ==>
          IsImage(h, s.m, w.image))
    && (w.WroteTable? || w.WritingBackends? || w.WroteBackends? ==>
          At(s.tables, 1 - s.active) == Whole(w.image.table))
    && (w.WroteBackends? ==> At(s.backends, 1 - s.active) == Whole(w.image.backends))
    && (w.Counted? ==> w.ver == s.version && Intact(s, 1 - s.active))
  }

  /** The active buffer carries the latest version, the other the one before; the other way around
      between the count and the flip. */
  ghost predicate LabelsOk(s: State) {
    && s.version == |s.published| >= 1
    && At(s.labels, s.active) == s.version - Bit(s.writer.Counted?)
    && At(s.labels, 1 - s.active) == s.version - Bit(!s.writer.Counted?)
  }

  /** A reader that uses a buffer finds it intact, and the version it read is that of the buffer or
      the next. */
  ghost predicate ReaderOk(s: State, r: Reader) {
    Uses(r, r.idx) ==>
      && Intact(s, r.idx)
      && (r.Holding? ==> At(s.labels, r.idx) <= r.ver <= At(s.labels, r.idx) + 1)
  }

  ghost predicate Inv(h: Hashes, s: State) {
    && CountsOk(s)
    && Intact(s, s.active)
    && WriterOk(h, s)
    && LabelsOk(s)
    && (forall id :: id in s.threads ==> ReaderOk(s, s.threads[id]))
    && (forall v: nat :: v < |s.published| ==> IsImage(h, s.m, s.published[v]))
  }
}
