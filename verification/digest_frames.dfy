/**
 * The frames of the DIGEST-MD5 security layers (RFC 2831, sections 2.3 and 2.4):
 * how one message is sealed, written, recognized and opened.
 */
module DigestFrames {
  import opened Bytes

  const BLOCK: nat := 8
  const MAC_SIZE: nat := 10
  const MAX_SEQUENCE: nat := 0xFFFF_FFFF
  const OVERHEAD: nat := 4 + 10 + 2 + 4
  const DEFAULT_BUFFER: nat := 65536
  const MAX_BUFFER: nat := 0xFF_FFFF

  type Block = s: seq<byte> | |s| == 8 witness [0, 0, 0, 0, 0, 0, 0, 0]
  type Mac = s: seq<byte> | |s| == 10 witness [0, 0, 0, 0, 0, 0, 0, 0, 0, 0]
  type Digest = s: seq<byte> | |s| == 16 witness [0, 0, 0, 0, 0, 0, 0, 0, 0, 0, 0, 0, 0, 0, 0, 0]

  /** The primitives the layer is built on, left abstract. */
  datatype Crypto = Crypto(
    md5: seq<byte> -> Digest,
    mac: (seq<byte>, nat, seq<byte>) -> Mac,      // key, sequence, message
    keystream: (seq<byte>, nat) -> byte,          // RC4 output octet at a position
    blockKey: (Digest, bool) -> seq<byte>,        // DES or two-key triple DES key schedule input
    encrypt: (seq<byte>, Block) -> Block,
    decrypt: (seq<byte>, Block) -> Block
  )

  /** All that is asked of the primitives: decryption undoes encryption. */
  ghost predicate Lawful(c: Crypto) {
    forall key, block :: c.decrypt(key, c.encrypt(key, block)) == block
  }

  datatype Mode = Integrity | Stream | Cbc

  /** One direction of a layer: its keys and the counters that move with each frame. */
  datatype Direction = Direction(
    mode: Mode,
    macKey: seq<byte>,
    sealKey: seq<byte>,
    position: nat,        // RC4 octets used
    iv: Block,            // last CBC ciphertext block
    sequence: nat
  )

  // ----- exclusive or -----

  function Pow2(n: nat): (r: nat)
    ensures r >= 1
  {
    if n == 0 then 1 else 2 * Pow2(n - 1)
  }

  function XorBits(a: nat, b: nat, bits: nat): (r: nat)
    ensures r < Pow2(bits)
  {
    if bits == 0 then 0 else 2 * XorBits(a / 2, b / 2, bits - 1) + (if a % 2 == b % 2 then 0 else 1)
  }

  lemma {:induction false} XorBitsCancels(a: nat, b: nat, bits: nat)
    requires a < Pow2(bits)
    ensures XorBits(XorBits(a, b, bits), b, bits) == a
  {
    if bits > 0 {
      var x := XorBits(a, b, bits);
      assert x / 2 == XorBits(a / 2, b / 2, bits - 1) && x % 2 == if a % 2 == b % 2 then 0 else 1;
      XorBitsCancels(a / 2, b / 2, bits - 1);
    }
  }

  lemma OctetBits()
    ensures Pow2(8) == 256
  {
    assert Pow2(4) == 16;
  }

  function Xor(a: byte, b: byte): byte {
    OctetBits();
    XorBits(a, b, 8)
  }

  lemma XorCancels(a: byte, b: byte)
    ensures Xor(Xor(a, b), b) == a
  {
    OctetBits();
    XorBitsCancels(a, b, 8);
  }

  function XorSeq(a: seq<byte>, b: seq<byte>): (r: seq<byte>)
    requires |a| == |b|
    ensures |r| == |a|
  {
    seq(|a|, i requires 0 <= i < |a| => Xor(a[i], b[i]))
  }

  lemma XorSeqCancels(a: seq<byte>, b: seq<byte>)
    requires |a| == |b|
    ensures XorSeq(XorSeq(a, b), b) == a
  {
    forall i | 0 <= i < |a| ensures XorSeq(XorSeq(a, b), b)[i] == a[i] {
      XorCancels(a[i], b[i]);
    }
  }

  // ----- sealing -----

  function Keystream(c: Crypto, key: seq<byte>, position: nat, size: nat): (r: seq<byte>)
    ensures |r| == size
  {
    seq<byte>(size, i requires 0 <= i < size => c.keystream(key, position + i))
  }

  function CbcEncrypt(c: Crypto, key: seq<byte>, iv: Block, plain: seq<byte>): (r: seq<byte>)
    requires |plain| % 8 == 0
    ensures |r| == |plain|
    decreases |plain|
  {
    if plain == [] then [] else
      var block := c.encrypt(key, XorSeq(plain[..8], iv));
      block + CbcEncrypt(c, key, block, plain[8..])
  }

  function CbcDecrypt(c: Crypto, key: seq<byte>, iv: Block, sealed: seq<byte>): (r: seq<byte>)
    requires |sealed| % 8 == 0
    ensures |r| == |sealed|
    decreases |sealed|
  {
    if sealed == [] then [] else
      XorSeq(c.decrypt(key, sealed[..8]), iv) + CbcDecrypt(c, key, sealed[..8], sealed[8..])
  }

  lemma {:induction false} CbcRoundTrip(c: Crypto, key: seq<byte>, iv: Block, plain: seq<byte>)
    requires Lawful(c) && |plain| % 8 == 0
    ensures CbcDecrypt(c, key, iv, CbcEncrypt(c, key, iv, plain)) == plain
    decreases |plain|
  {
    if plain != [] {
      var first: Block := XorSeq(plain[..8], iv);
      var block := c.encrypt(key, first);
      var sealed := CbcEncrypt(c, key, iv, plain);
      assert sealed[..8] == block && sealed[8..] == CbcEncrypt(c, key, block, plain[8..]);
      XorSeqCancels(plain[..8], iv);
      CbcRoundTrip(c, key, block, plain[8..]);
      assert plain[..8] + plain[8..] == plain;
    }
  }

  predicate Aligned(mode: Mode, size: nat) { mode.Cbc? ==> size % 8 == 0 }

  function Seal(c: Crypto, d: Direction, plain: seq<byte>): (r: seq<byte>)
    requires Aligned(d.mode, |plain|)
    ensures |r| == |plain|
  {
    match d.mode
    case Integrity => plain
    case Stream => XorSeq(plain, Keystream(c, d.sealKey, d.position, |plain|))
    case Cbc => CbcEncrypt(c, d.sealKey, d.iv, plain)
  }

  function Open(c: Crypto, d: Direction, sealed: seq<byte>): (r: seq<byte>)
    requires Aligned(d.mode, |sealed|)
    ensures |r| == |sealed|
  {
    match d.mode
    case Integrity => sealed
    case Stream => XorSeq(sealed, Keystream(c, d.sealKey, d.position, |sealed|))
    case Cbc => CbcDecrypt(c, d.sealKey, d.iv, sealed)
  }

  lemma OpenUndoesSeal(c: Crypto, d: Direction, plain: seq<byte>)
    requires Lawful(c) && Aligned(d.mode, |plain|)
    ensures Open(c, d, Seal(c, d, plain)) == plain
  {
    match d.mode
    case Integrity =>
    case Stream => XorSeqCancels(plain, Keystream(c, d.sealKey, d.position, |plain|));
    case Cbc => CbcRoundTrip(c, d.sealKey, d.iv, plain);
  }

  /** The cipher state after a body has been sealed or opened; both ends compute it from the ciphertext. */
  function Advance(d: Direction, sealed: seq<byte>): (r: Direction)
    requires |sealed| >= 8
    ensures r.mode == d.mode && r.sequence == d.sequence
  {
    match d.mode
    case Integrity => d
    case Stream => d.(position := d.position + |sealed|)
    case Cbc => d.(iv := sealed[|sealed| - 8..])
  }

  // ----- frames -----

  function PaddingLength(mode: Mode, size: nat): (r: nat)
    ensures mode.Cbc? ==> 1 <= r <= 8 && (size + r + MAC_SIZE) % 8 == 0
    ensures !mode.Cbc? ==> r == 0
  {
    if mode.Cbc? then 8 - (size + MAC_SIZE) % 8 else 0
  }

  function Padding(mode: Mode, size: nat): (r: seq<byte>)
    ensures |r| == PaddingLength(mode, size)
    ensures forall i :: 0 <= i < |r| ==> r[i] == |r|
  {
    var n := PaddingLength(mode, size);
    seq(n, i requires 0 <= i < n => n)
  }

  function Body(c: Crypto, d: Direction, message: seq<byte>): (r: seq<byte>)
    ensures |r| == |message| + PaddingLength(d.mode, |message|) + MAC_SIZE
  {
    message + Padding(d.mode, |message|) + c.mac(d.macKey, d.sequence, message)
  }

  function SealedBody(c: Crypto, d: Direction, message: seq<byte>): (r: seq<byte>)
    ensures |r| == |message| + PaddingLength(d.mode, |message|) + MAC_SIZE
  {
    Seal(c, d, Body(c, d, message))
  }

  /** The octets of one frame: length, sealed body, message type 1, sequence number. */
  function Frame(c: Crypto, d: Direction, message: seq<byte>): (r: seq<byte>)
    requires d.sequence <= MAX_SEQUENCE && |message| <= MAX_BUFFER
    ensures |r| == 4 + |message| + PaddingLength(d.mode, |message|) + MAC_SIZE + 6
  {
    var sealed := SealedBody(c, d, message);
    BigEndian32(|sealed| + 6) + (sealed + ([0, 1] + BigEndian32(d.sequence)))
  }

  /** The direction after a frame has been handed over: cipher state moved on, sequence counted up. */
  function Next(c: Crypto, d: Direction, message: seq<byte>): (r: Direction)
    ensures r.mode == d.mode && r.sequence == d.sequence + 1
  {
    var moved := Advance(d, SealedBody(c, d, message));
    moved.(sequence := d.sequence + 1)
  }

  lemma NextIsAdvance(c: Crypto, d: Direction, message: seq<byte>)
    ensures Next(c, d, message) == Advance(d, SealedBody(c, d, message)).(sequence := d.sequence + 1)
  {
  }

  // ----- reading a frame -----

  datatype Error = Exhausted | BadLength | BadType | BadSequence | BadBlocks | BadIntegrity

  /** What readDigestMD5Frame finds at the front of the transport. */
  datatype FrameRead =
    | NeedMore
    | Rejected(error: Error, consumed: nat, after: Direction)
    | Received(message: seq<byte>, consumed: nat, after: Direction)

  /** The padding length in front of the MAC when those octets are well-formed padding, 0 otherwise. */
  function GoodPadding(plain: seq<byte>): (r: nat)
    ensures r > 0 ==> r <= 8 && r + MAC_SIZE <= |plain|
  {
    if |plain| < MAC_SIZE + 1 then 0 else
      var n: int := plain[|plain| - MAC_SIZE - 1];
      if 1 <= n <= 8 && n + MAC_SIZE <= |plain| &&
         forall i :: |plain| - MAC_SIZE - n <= i < |plain| - MAC_SIZE ==> plain[i] == n
      then n else 0
  }

  function OpenBody(c: Crypto, d: Direction, sealed: seq<byte>, consumed: nat): (r: FrameRead)
    requires |sealed| >= MAC_SIZE && Aligned(d.mode, |sealed|)
    ensures !r.NeedMore? && r.consumed == consumed
  {
    var plain := Open(c, d, sealed);
    var after := Advance(d, sealed);
    var padding := if d.mode.Cbc? then GoodPadding(plain) else 0;
    var message := plain[..|plain| - MAC_SIZE - padding];
    if (d.mode.Cbc? && padding == 0) || c.mac(d.macKey, d.sequence, message) != plain[|plain| - MAC_SIZE..]
    then Rejected(BadIntegrity, consumed, after)
    else Received(message, consumed, after.(sequence := d.sequence + 1))
  }

  function ReadFrame(c: Crypto, d: Direction, maxReceive: nat, wire: seq<byte>): (r: FrameRead)
    ensures r.Received? ==> 20 <= r.consumed <= |wire|
    ensures r.Rejected? ==> r.consumed <= |wire|
  {
    if d.sequence > MAX_SEQUENCE then Rejected(Exhausted, 0, d)
    else if |wire| < 4 then NeedMore
    else
      var size := FromBigEndian32(wire[..4]);
      if size < MAC_SIZE + 6 || size > maxReceive then Rejected(BadLength, 4, d)
      else if |wire| < 4 + size then NeedMore
      else
        var payload := wire[4..4 + size];
        var sealed := payload[..size - 6];
        if payload[size - 6..size - 4] != [0, 1] then Rejected(BadType, 4 + size, d)
        else if FromBigEndian32(payload[size - 4..]) != d.sequence then Rejected(BadSequence, 4 + size, d)
        else if d.mode.Cbc? && (|sealed| < 16 || |sealed| % 8 != 0) then Rejected(BadBlocks, 4 + size, d)
        else OpenBody(c, d, sealed, 4 + size)
  }

  lemma BodyOpens(c: Crypto, d: Direction, message: seq<byte>, consumed: nat)
    requires Lawful(c)
    ensures OpenBody(c, d, SealedBody(c, d, message), consumed) == Received(message, consumed, Next(c, d, message))
  {
    var body := Body(c, d, message);
    OpenUndoesSeal(c, d, body);
    var n := PaddingLength(d.mode, |message|);
    assert body[|body| - MAC_SIZE..] == c.mac(d.macKey, d.sequence, message);
    if d.mode.Cbc? {
      assert forall i :: |message| <= i < |message| + n ==> body[i] == Padding(d.mode, |message|)[i - |message|];
      assert GoodPadding(body) == n;
    }
    assert body[..|message|] == message;
  }

  /** A frame read with the direction it was written with gives back its message and the writer's next state. */
  lemma FrameReadBack(c: Crypto, d: Direction, message: seq<byte>, maxReceive: nat, more: seq<byte>)
    requires Lawful(c) && d.sequence <= MAX_SEQUENCE && |message| <= MAX_BUFFER
    requires |Frame(c, d, message)| - 4 <= maxReceive
    requires d.mode.Cbc? ==> |message| > 0
    ensures ReadFrame(c, d, maxReceive, Frame(c, d, message) + more) ==
            Received(message, |Frame(c, d, message)|, Next(c, d, message))
  {
    hide SealedBody, OpenBody, Next, BigEndian32, FromBigEndian32;
    var frame, sealed := Frame(c, d, message), SealedBody(c, d, message);
    var wire := frame + more;
    var size := |sealed| + 6;
    BigEndian32RoundTrip(size);
    BigEndian32RoundTrip(d.sequence);
    assert wire[..4] == BigEndian32(size);
    var payload := wire[4..4 + size];
    assert payload == sealed + ([0, 1] + BigEndian32(d.sequence));
    assert payload[..size - 6] == sealed;
    assert payload[size - 6..size - 4] == [0, 1];
    assert payload[size - 4..] == BigEndian32(d.sequence);
    BodyOpens(c, d, message, 4 + size);
  }

  /** A frame that has only partly arrived is waited for. */
  lemma PartialFrameWaits(c: Crypto, d: Direction, message: seq<byte>, maxReceive: nat, arrived: nat)
    requires d.sequence <= MAX_SEQUENCE && |message| <= MAX_BUFFER
    requires arrived < |Frame(c, d, message)| && |Frame(c, d, message)| - 4 <= maxReceive
    ensures ReadFrame(c, d, maxReceive, Frame(c, d, message)[..arrived]) == NeedMore
  {
    var frame, size := Frame(c, d, message), |SealedBody(c, d, message)| + 6;
    BigEndian32RoundTrip(size);
    if arrived >= 4 {
      assert frame[..arrived][..4] == BigEndian32(size);
    }
  }

  // ----- negotiated buffers -----

  datatype Limits = Limits(maxSend: nat, maxReceive: nat) | InvalidBuffer

  function SendOverhead(mode: Mode): nat {
    match mode
    case Integrity => OVERHEAD
    case Stream => 25
    case Cbc => 29
  }

  /** The buffer checks of both constructors; 0 means the default. */
  function Negotiate(mode: Mode, peerBuffer: nat, localBuffer: nat): Limits {
    var peer := if peerBuffer == 0 then DEFAULT_BUFFER else peerBuffer;
    var local := if localBuffer == 0 then DEFAULT_BUFFER else localBuffer;
    var smallLocal := if mode.Cbc? then local < 4 + 2 * BLOCK + 2 + 4 else local <= OVERHEAD;
    if peer <= SendOverhead(mode) || smallLocal || peer > MAX_BUFFER || local > MAX_BUFFER then InvalidBuffer
    else Limits(peer - SendOverhead(mode), local - 4)
  }

  /**
   * When one end accepts a peer buffer and the other end accepts the same value as
   * its own, the second end takes every frame the first can write, and what fits
   * in a frame is never empty, so each Write iteration makes progress.
   */
  lemma FramesFitBuffer(c: Crypto, d: Direction, buffer: nat, senderLocal: nat, receiverPeer: nat,
                        message: seq<byte>, more: seq<byte>)
    requires Lawful(c) && d.sequence <= MAX_SEQUENCE
    requires Negotiate(d.mode, buffer, senderLocal).Limits? && Negotiate(d.mode, receiverPeer, buffer).Limits?
    requires 1 <= |message| <= Negotiate(d.mode, buffer, senderLocal).maxSend
    ensures ReadFrame(c, d, Negotiate(d.mode, receiverPeer, buffer).maxReceive, Frame(c, d, message) + more) ==
            Received(message, |Frame(c, d, message)|, Next(c, d, message))
  {
    FrameReadBack(c, d, message, Negotiate(d.mode, receiverPeer, buffer).maxReceive, more);
  }

  /** The integrity layer fills the peer's buffer: the largest frame is refused by any smaller limit. */
  lemma IntegrityBufferTight(c: Crypto, d: Direction, buffer: nat, local: nat, message: seq<byte>, limit: nat)
    requires d.mode.Integrity? && d.sequence <= MAX_SEQUENCE
    requires Negotiate(d.mode, buffer, local).Limits?
    requires |message| == Negotiate(d.mode, buffer, local).maxSend
    ensures |Frame(c, d, message)| == if buffer == 0 then DEFAULT_BUFFER else buffer
    ensures limit + 4 < |Frame(c, d, message)| ==>
            ReadFrame(c, d, limit, Frame(c, d, message)) == Rejected(BadLength, 4, d)
  {
    var frame, size := Frame(c, d, message), |SealedBody(c, d, message)| + 6;
    BigEndian32RoundTrip(size);
    assert frame[..4] == BigEndian32(size);
  }
}
