/** The transport session: numbered, sealed packets one way, a replay window the other. */
module Session {
  import opened Bytes
  import opened Words
  import opened Replay

  datatype Error = InvalidEncoding | AuthFailed | Replayed

  datatype Result<+T> = Ok(value: T) | Err(error: Error)

  /** Authenticated encryption under one key and session id, given a number: ciphertext and tag. */
  datatype Cipher = Cipher(
    encrypt: (Word, seq<Byte>) -> seq<Byte>,
    decrypt: (Word, seq<Byte>) -> Option<seq<Byte>>)

  const NUMBER_LEN := 8
  const TAG_LEN := 16

  /** Decryption undoes encryption, and a tag is added. */
  ghost predicate Sound(c: Cipher) {
    forall n: Word, pt: seq<Byte> ::
      |c.encrypt(n, pt)| == |pt| + TAG_LEN && c.decrypt(n, c.encrypt(n, pt)) == Some(pt)
  }

  /** The packet that seals a plaintext under a number. */
  function Sealed(c: Cipher, n: Word, pt: seq<Byte>): seq<Byte> {
    BigEndian(n, NUMBER_LEN) + c.encrypt(n, pt)
  }

  lemma NumberFits(s: seq<Byte>)
    requires |s| == NUMBER_LEN
    ensures FromBigEndian(s) < TWO64
  {
    RadixValues();
  }

  /** The number and plaintext of a packet, if it is long enough and authentic. */
  function Opened(c: Cipher, packet: seq<Byte>): Result<(Word, seq<Byte>)> {
    if |packet| < NUMBER_LEN + TAG_LEN then Err(InvalidEncoding)
    else
      NumberFits(packet[..NUMBER_LEN]);
      var n: Word := FromBigEndian(packet[..NUMBER_LEN]);
      var pt := c.decrypt(n, packet[NUMBER_LEN..]);
      if pt.None? then Err(AuthFailed) else Ok((n, pt.value))
  }

  /** What was sealed opens to the same number and plaintext. */
  lemma OpenSealed(c: Cipher, n: Word, pt: seq<Byte>)
    requires Sound(c)
    ensures Opened(c, Sealed(c, n, pt)) == Ok((n, pt))
  {
    hide BigEndian, FromBigEndian;
    RadixValues();
    BigEndianInverse(n, NUMBER_LEN);
    var packet := Sealed(c, n, pt);
    assert |c.encrypt(n, pt)| == |pt| + TAG_LEN;
    assert packet[..NUMBER_LEN] == BigEndian(n, NUMBER_LEN) && packet[NUMBER_LEN..] == c.encrypt(n, pt);
  }

  /** A packet is its number, most significant octet first, and the ciphertext with its tag. */
  lemma SealedLayout(c: Cipher, n: Word, pt: seq<Byte>, i: nat)
    requires i < NUMBER_LEN
    ensures Sealed(c, n, pt)[i] == n / Radix(7 - i) % 256
    ensures Sealed(c, n, pt)[NUMBER_LEN..] == c.encrypt(n, pt)
  {
    hide BigEndian;
    BigEndianAt(n, NUMBER_LEN, i);
  }

  /** What receiving a packet answers, given the numbers accepted so far. */
  ghost function Received(c: Cipher, accepted: set<Word>, packet: seq<Byte>): Result<seq<Byte>> {
    match Opened(c, packet)
    case Err(e) => Err(e)
    case Ok((n, pt)) => if Fresh(accepted, n) then Ok(pt) else Err(Replayed)
  }

  /** The numbers accepted after receiving a packet: also those of authentic packets just received. */
  ghost function Accepting(c: Cipher, accepted: set<Word>, packet: seq<Byte>): set<Word> {
    match Opened(c, packet)
    case Err(_) => accepted
    case Ok((n, _)) => if Fresh(accepted, n) then accepted + {n} else accepted
  }

  class Aead {
    const cipher: Cipher
    var txSeq: Word

    constructor (cipher: Cipher)
      ensures this.cipher == cipher && txSeq == 0
    {
      this.cipher, txSeq := cipher, 0;
    }

    /** Seals under the next number; None stands for the panic once the counter cannot go up. */
    method Seal(pt: seq<Byte>) returns (r: Option<seq<Byte>>)
      modifies this
      ensures r.None? <==> old(txSeq) + 1 == TWO64
      ensures r.None? ==> txSeq == old(txSeq)
      ensures r.Some? ==> r.value == Sealed(cipher, old(txSeq), pt) && txSeq == old(txSeq) + 1
    {
      var n := txSeq;
      if txSeq + 1 == TWO64 {
        return None;
      }
      txSeq := txSeq + 1;
      return Some(Sealed(cipher, n, pt));
    }
  }

  class Session {
    const tx: Aead
    const rx: Aead
    const window: ReplayWindow

    ghost predicate Valid()
      reads this, window
    {
      tx != rx && window.Valid()
    }

    constructor (txCipher: Cipher, rxCipher: Cipher)
      ensures Valid() && fresh(tx) && fresh(rx) && fresh(window)
      ensures tx.cipher == txCipher && rx.cipher == rxCipher && tx.txSeq == 0 && window.accepted == {}
    {
      tx := new Aead(txCipher);
      rx := new Aead(rxCipher);
      window := new ReplayWindow();
    }

    method Send(pt: seq<Byte>) returns (r: Option<seq<Byte>>)
      requires Valid()
      modifies tx
      ensures Valid()
      ensures r.None? <==> old(tx.txSeq) + 1 == TWO64
      ensures r.None? ==> tx.txSeq == old(tx.txSeq)
      ensures r.Some? ==> r.value == Sealed(tx.cipher, old(tx.txSeq), pt) && tx.txSeq == old(tx.txSeq) + 1
    {
      r := tx.Seal(pt);
    }

    /** A packet that is not authentic leaves the window alone. */
    method Recv(packet: seq<Byte>) returns (r: Result<seq<Byte>>)
      requires Valid()
      modifies window
      ensures Valid()
      ensures r == Received(rx.cipher, old(window.accepted), packet)
      ensures window.accepted == Accepting(rx.cipher, old(window.accepted), packet)
    {
      var o := Opened(rx.cipher, packet);
      if o.Err? {
        return Err(o.error);
      }
      var ok := window.CheckAndMark(o.value.0);
      if !ok {
        return Err(Replayed);
      }
      return Ok(o.value.1);
    }
  }
}
