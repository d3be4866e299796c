/** One direction of a session over a channel that drops, duplicates, reorders and injects packets. */
module SessionSafety {
  import opened Bytes
  import opened Words
  import opened Replay
  import opened Session

  /** The sender's counter and what it has sealed under each number; what the receiver accepted. */
  datatype Link = Link(txSeq: Word, sent: map<Word, seq<Byte>>, accepted: set<Word>)

  /** The channel may hand the receiver any packet at any time, any number of times, or never. */
  datatype Event = Send(pt: seq<Byte>) | Recv(packet: seq<Byte>)

  ghost function Next(c: Cipher, s: Link, e: Event): Link {
    match e
    case Send(pt) => if s.txSeq + 1 == TWO64 then s else s.(txSeq := s.txSeq + 1, sent := s.sent[s.txSeq := pt])
    case Recv(packet) => s.(accepted := Accepting(c, s.accepted, packet))
  }

  ghost predicate IsRun(c: Cipher, run: seq<Link>, es: seq<Event>) {
    && |run| == |es| + 1
    && run[0] == Link(0, map[], {})
    && forall k: nat :: k < |es| ==> run[k + 1] == Next(c, run[k], es[k])
  }

  /** The packet is one the sender has sealed. */
  ghost predicate Genuine(c: Cipher, s: Link, packet: seq<Byte>) {
    exists n: Word :: n in s.sent && packet == Sealed(c, n, s.sent[n])
  }

  /** Ideal encryption: only what was sealed opens. */
  ghost predicate Unforged(c: Cipher, run: seq<Link>, es: seq<Event>)
    requires |run| == |es| + 1
  {
    forall k: nat :: k < |es| && es[k].Recv? && Opened(c, es[k].packet).Ok? ==> Genuine(c, run[k], es[k].packet)
  }

  /** What the receiver hands up at event k. */
  ghost function Answer(c: Cipher, run: seq<Link>, es: seq<Event>, k: nat): Result<seq<Byte>>
    requires IsRun(c, run, es) && k < |es| && es[k].Recv?
  {
    Received(c, run[k].accepted, es[k].packet)
  }

  /** Event k delivers the packet of number n. */
  ghost predicate Delivers(c: Cipher, run: seq<Link>, es: seq<Event>, k: nat, n: Word)
    requires IsRun(c, run, es)
  {
    && k < |es| && es[k].Recv? && Answer(c, run, es, k).Ok?
    && Opened(c, es[k].packet).Ok? && Opened(c, es[k].packet).value.0 == n
  }

  // ----- the sender never uses a number twice -----

  lemma {:induction false} NumbersUsed(c: Cipher, run: seq<Link>, es: seq<Event>, k: nat)
    requires IsRun(c, run, es) && k < |run|
    ensures forall n: Word :: n in run[k].sent <==> n < run[k].txSeq
  {
    hide Accepting;
    if k > 0 {
      NumbersUsed(c, run, es, k - 1);
      assert run[k] == Next(c, run[k - 1], es[k - 1]);
    }
  }

  /** What was sent under a number stays what it was. */
  lemma {:induction false} SentStays(c: Cipher, run: seq<Link>, es: seq<Event>, j: nat, k: nat, n: Word)
    requires IsRun(c, run, es) && j <= k < |run| && n in run[j].sent
    ensures n in run[k].sent && run[k].sent[n] == run[j].sent[n]
    decreases k
  {
    hide Accepting;
    if j < k {
      SentStays(c, run, es, j, k - 1, n);
      NumbersUsed(c, run, es, k - 1);
      assert run[k] == Next(c, run[k - 1], es[k - 1]);
    }
  }

  // ----- what has been delivered -----

  /** The numbers accepted are exactly those delivered. */
  lemma {:induction false} AcceptedIsDelivered(c: Cipher, run: seq<Link>, es: seq<Event>, k: nat, n: Word)
    requires IsRun(c, run, es) && k < |run|
    ensures n in run[k].accepted <==> exists j: nat :: j < k && Delivers(c, run, es, j, n)
  {
    hide Opened, Fresh;
    if k > 0 {
      AcceptedIsDelivered(c, run, es, k - 1, n);
      assert run[k] == Next(c, run[k - 1], es[k - 1]);
      assert n in run[k].accepted <==> n in run[k - 1].accepted || Delivers(c, run, es, k - 1, n);
    }
  }

  /** No number is delivered twice, however often its packet arrives. */
  lemma AtMostOnce(c: Cipher, run: seq<Link>, es: seq<Event>, j: nat, k: nat, n: Word)
    requires IsRun(c, run, es) && j < k && Delivers(c, run, es, j, n)
    ensures !Delivers(c, run, es, k, n)
  {
    if k < |es| {
      AcceptedIsDelivered(c, run, es, k, n);
    }
  }

  /** What is delivered is what was sent: the plaintext sealed under that number. */
  lemma DeliversWhatWasSent(c: Cipher, run: seq<Link>, es: seq<Event>, k: nat, n: Word)
    requires IsRun(c, run, es) && Sound(c) && Unforged(c, run, es) && Delivers(c, run, es, k, n)
    ensures n in run[k].sent && Answer(c, run, es, k) == Ok(run[k].sent[n])
  {
    hide Fresh, Sound, Opened;
    assert Genuine(c, run[k], es[k].packet);
    var i: Word :| i in run[k].sent && es[k].packet == Sealed(c, i, run[k].sent[i]);
    OpenSealed(c, i, run[k].sent[i]);
  }

  /** Exactly when the packet of number n is delivered: it has not been before, and no number 64 or
      more ahead of it has. */
  lemma DeliveredIff(c: Cipher, run: seq<Link>, es: seq<Event>, k: nat, n: Word)
    requires IsRun(c, run, es) && Sound(c) && k < |es| && n in run[k].sent
    requires es[k] == Recv(Sealed(c, n, run[k].sent[n]))
    ensures Delivers(c, run, es, k, n) <==>
      && (forall j: nat :: j < k ==> !Delivers(c, run, es, j, n))
      && (forall j: nat, a: Word :: j < k && Delivers(c, run, es, j, a) ==> a - n < WINDOW_SIZE)
  {
    hide Sound, Opened, Delivers;
    OpenSealed(c, n, run[k].sent[n]);
    DeliversFresh(c, run, es, k, n);
    AcceptedIsDelivered(c, run, es, k, n);
    if Fresh(run[k].accepted, n) {
      forall j: nat, a: Word | j < k && Delivers(c, run, es, j, a) ensures a - n < WINDOW_SIZE {
        AcceptedIsDelivered(c, run, es, k, a);
      }
    } else if n !in run[k].accepted {
      var a :| a in run[k].accepted && a - n >= WINDOW_SIZE;
      AcceptedIsDelivered(c, run, es, k, a);
    }
  }

  lemma DeliversFresh(c: Cipher, run: seq<Link>, es: seq<Event>, k: nat, n: Word)
    requires IsRun(c, run, es) && k < |es| && es[k].Recv? && Opened(c, es[k].packet).Ok?
    requires Opened(c, es[k].packet).value.0 == n
    ensures Delivers(c, run, es, k, n) <==> Fresh(run[k].accepted, n)
  {
  }

  /** Packet of number n arrives at event k. */
  ghost predicate Arrives(c: Cipher, es: seq<Event>, k: nat, n: Word) {
    k < |es| && es[k].Recv? && Opened(c, es[k].packet).Ok? && Opened(c, es[k].packet).value.0 == n
  }

  /** Reordering within the window loses nothing: a packet that arrives for the first time, and after
      none that is 64 or more ahead of it, is delivered. */
  lemma ReorderingLosesNothing(c: Cipher, run: seq<Link>, es: seq<Event>, k: nat, n: Word)
    requires IsRun(c, run, es) && Sound(c) && k < |es| && n in run[k].sent
    requires es[k] == Recv(Sealed(c, n, run[k].sent[n]))
    requires forall j: nat :: j < k ==> !Arrives(c, es, j, n)
    requires forall j: nat, a: Word :: j < k && Arrives(c, es, j, a) ==> a - n < WINDOW_SIZE
    ensures Answer(c, run, es, k) == Ok(run[k].sent[n])
  {
    DeliveredIff(c, run, es, k, n);
    OpenSealed(c, n, run[k].sent[n]);
    hide Sound, Opened, Fresh;
    forall j: nat, a: Word | j < k && Delivers(c, run, es, j, a) ensures Arrives(c, es, j, a) {
    }
  }
}
