/** The DIGEST-MD5 connection objects: their fields, Write, Read and the in-place work on frames. */
module DigestLayer {
  import opened Bytes
  import opened DigestFrames
  import opened DigestRuns

  // ----- negotiated protection -----

  /** auth-int and the five confidentiality ciphers. */
  datatype Protection = AuthInt | Rc4Of40 | Rc4Of56 | Rc4 | Des | TripleDes

  function ModeOf(p: Protection): Mode {
    match p
    case AuthInt => Integrity
    case Des => Cbc
    case TripleDes => Cbc
    case _ => Stream
  }

  /** How much of the session key goes into the sealing key. */
  function KeyPrefix(p: Protection): nat {
    match p
    case Rc4Of40 => 5
    case Rc4Of56 => 7
    case _ => 16
  }

  /** The magic constants of one direction. */
  datatype Magic = Magic(signing: seq<byte>, sealing: seq<byte>)

  function NewDirection(c: Crypto, sessionKey: Digest, p: Protection, magic: Magic): (d: Direction)
    ensures d.mode == ModeOf(p) && d.sequence == 0 && d.position == 0
  {
    var signing := c.md5(sessionKey + magic.signing);
    var sealing := c.md5(sessionKey[..KeyPrefix(p)] + magic.sealing);
    match ModeOf(p)
    case Integrity => Direction(Integrity, signing, [], 0, [0, 0, 0, 0, 0, 0, 0, 0], 0)
    case Stream => Direction(Stream, signing, sealing, 0, [0, 0, 0, 0, 0, 0, 0, 0], 0)
    case Cbc => Direction(Cbc, signing, c.blockKey(sealing, p.TripleDes?), 0, sealing[8..], 0)
  }

  // ----- the transport -----

  /**
   * One direction of the connection below the layer. A call may take only part of
   * the octets and reports an error only when it stopped early, as io.Writer asks;
   * once a call made no progress or reported an error none is taken any more.
   */
  class Transport {
    var octets: seq<byte>
    var failed: bool

    constructor ()
      ensures octets == [] && !failed
    {
      octets := [];
      failed := false;
    }

    method Write(frame: seq<byte>) returns (written: nat, ok: bool)
      modifies this
      ensures written <= |frame| && octets == old(octets) + frame[..written]
      ensures old(failed) ==> written == 0
      ensures !ok && frame != [] ==> written < |frame|
      ensures failed == (old(failed) || !ok || (frame != [] && written == 0))
    {
      if failed {
        written, ok := 0, false;
      } else {
        var taken: nat :| taken <= |frame|;
        var fine: bool := *;
        written, ok := taken, fine || taken == |frame|;
      }
      failed := failed || !ok || (frame != [] && written == 0);
      octets := octets + frame[..written];
    }
  }

  /** ldapClientWriteDigestMD5Frame. */
  method WriteFrame(transport: Transport, frame: array<byte>) returns (ok: bool, ghost arrived: nat)
    requires frame.Length > 0
    modifies transport
    ensures arrived <= frame.Length && transport.octets == old(transport.octets) + frame[..arrived]
    ensures old(transport.failed) ==> arrived == 0
    ensures ok ==> arrived == frame.Length && !transport.failed
    ensures !ok ==> arrived < frame.Length && transport.failed
  {
    var start := 0;
    while start < frame.Length
      invariant 0 <= start <= frame.Length
      invariant transport.octets == old(transport.octets) + frame[..start]
      invariant transport.failed == old(transport.failed) && (transport.failed ==> start == 0)
    {
      var written, fine := transport.Write(frame[start..]);
      assert frame[..start] + frame[start..][..written] == frame[..start + written];
      start := start + written;
      if !fine || written == 0 {
        return false, start;
      }
    }
    assert frame[..start] == frame[..];
    return true, start;
  }

  // ----- the in-place helpers -----

  /** Go's copy into a part of a buffer. */
  method Copy(destination: array<byte>, from: nat, source: seq<byte>)
    requires from + |source| <= destination.Length
    modifies destination
    ensures destination[from..from + |source|] == source
    ensures destination[..from] == old(destination[..from])
    ensures destination[from + |source|..] == old(destination[from + |source|..])
  {
    forall i | 0 <= i < |source| { destination[from + i] := source[i]; }
  }

  /** ldapClientDigestMD5CBC on value[from..to]; the IV becomes the last ciphertext block. */
  method CbcInPlace(c: Crypto, key: seq<byte>, iv: array<byte>, value: array<byte>, from: nat, to: nat, encrypt: bool)
    requires iv.Length == 8 && iv != value && from + 8 <= to <= value.Length && (to - from) % 8 == 0
    modifies iv, value
    ensures value[..from] == old(value[..from]) && value[to..] == old(value[to..])
    ensures encrypt ==> value[from..to] == old(CbcEncrypt(c, key, iv[..], value[from..to]))
    ensures !encrypt ==> value[from..to] == old(CbcDecrypt(c, key, iv[..], value[from..to]))
    ensures iv[..] == if encrypt then value[to - 8..to] else old(value[to - 8..to])
  {
    var input := value[from..to];
    var output := if encrypt then CbcEncrypt(c, key, iv[..], input) else CbcDecrypt(c, key, iv[..], input);
    var last := if encrypt then output[|output| - 8..] else input[|input| - 8..];
    hide CbcEncrypt, CbcDecrypt;
    Copy(value, from, output);
    Copy(iv, 0, last);
    assert iv[0..8] == iv[..];
    assert output[|output| - 8..] == value[to - 8..to];
  }

  /** Of the last `checked` octets in front of the MAC, those that should be padding equal the padding length. */
  ghost predicate Repeats(plaintext: seq<byte>, checked: nat, paddingLength: int)
    requires checked + MAC_SIZE <= |plaintext|
  {
    var end := |plaintext| - MAC_SIZE;
    forall i :: end - checked <= i < end && i >= end - paddingLength ==> plaintext[i] == paddingLength
  }

  /** ldapClientDigestMD5CBCPaddingLength, without the early exits a timing attack could see. */
  method CbcPaddingLength(plaintext: seq<byte>) returns (paddingLength: int, valid: bool)
    ensures valid <==> GoodPadding(plaintext) > 0
    ensures valid ==> paddingLength == GoodPadding(plaintext)
  {
    var paddingBytes := |plaintext| - MAC_SIZE;
    if paddingBytes < 1 { return 0, false; }
    paddingLength := plaintext[|plaintext| - MAC_SIZE - 1];
    valid := 1 <= paddingLength && paddingLength <= 8 && paddingLength <= paddingBytes;
    var inRange := valid;
    var checked := if paddingBytes < 8 then paddingBytes else 8;
    for offset := 1 to checked + 1
      invariant valid <==> inRange && Repeats(plaintext, offset - 1, paddingLength)
    {
      var required := offset <= paddingLength;
      var equal := plaintext[|plaintext| - MAC_SIZE - offset] == paddingLength;
      valid := valid && (required ==> equal);
    }
  }

  // ----- the connection -----

  datatype ReadStatus = Filled | WouldBlock | Fails(error: Error)

  class SecurityLayer {
    const crypto: Crypto
    const mode: Mode
    const maxSend: nat
    const maxReceive: nat
    const outgoing: Transport
    const incoming: Transport

    const sendKey: seq<byte>
    const receiveKey: seq<byte>
    const sendSealKey: seq<byte>
    const receiveSealKey: seq<byte>
    const sendIV: array<byte>
    const receiveIV: array<byte>
    var sendPosition: nat
    var receivePosition: nat
    var sendSeq: nat
    var receiveSeq: nat
    var readPending: seq<byte>

    predicate Valid() {
      && sendIV.Length == 8 && receiveIV.Length == 8 && sendIV != receiveIV
      && outgoing != incoming
      && 0 < maxSend <= MAX_BUFFER
    }

    function SendDirection(): Direction
      requires Valid()
      reads this, sendIV
    {
      Direction(mode, sendKey, sendSealKey, sendPosition, sendIV[..], sendSeq)
    }

    function ReceiveDirection(): Direction
      requires Valid()
      reads this, receiveIV
    {
      Direction(mode, receiveKey, receiveSealKey, receivePosition, receiveIV[..], receiveSeq)
    }

    constructor (c: Crypto, sessionKey: Digest, p: Protection, sending: Magic, receiving: Magic,
                 peerBuffer: nat, localBuffer: nat, outgoing: Transport, incoming: Transport)
      requires Negotiate(ModeOf(p), peerBuffer, localBuffer).Limits? && outgoing != incoming
      ensures Valid() && fresh(sendIV) && fresh(receiveIV)
      ensures crypto == c && this.outgoing == outgoing && this.incoming == incoming
      ensures SendDirection() == NewDirection(c, sessionKey, p, sending)
      ensures ReceiveDirection() == NewDirection(c, sessionKey, p, receiving)
      ensures Limits(maxSend, maxReceive) == Negotiate(ModeOf(p), peerBuffer, localBuffer)
      ensures readPending == []
    {
      var send := NewDirection(c, sessionKey, p, sending);
      var receive := NewDirection(c, sessionKey, p, receiving);
      crypto, mode := c, ModeOf(p);
      this.outgoing, this.incoming := outgoing, incoming;
      var limits := Negotiate(ModeOf(p), peerBuffer, localBuffer);
      maxSend, maxReceive := limits.maxSend, limits.maxReceive;
      sendKey, receiveKey := send.macKey, receive.macKey;
      sendSealKey, receiveSealKey := send.sealKey, receive.sealKey;
      sendPosition, receivePosition, sendSeq, receiveSeq, readPending := 0, 0, 0, 0, [];
      var first := new byte[8](i requires 0 <= i < 8 => send.iv[i]);
      var second := new byte[8](i requires 0 <= i < 8 => receive.iv[i]);
      sendIV, receiveIV := first, second;
      new;
      assert sendIV[..] == send.iv && receiveIV[..] == receive.iv;
    }

    method SealInPlace(frame: array<byte>, from: nat, to: nat)
      requires Valid() && frame != sendIV && frame != receiveIV && from + 8 <= to <= frame.Length
      requires Aligned(mode, to - from)
      modifies this`sendPosition, sendIV, frame
      ensures frame[from..to] == old(Seal(crypto, SendDirection(), frame[from..to]))
      ensures frame[..from] == old(frame[..from]) && frame[to..] == old(frame[to..])
      ensures SendDirection() == Advance(old(SendDirection()), frame[from..to])
    {
      match mode
      case Integrity =>
      case Cbc =>
        CbcInPlace(crypto, sendSealKey, sendIV, frame, from, to, true);
        assert frame[from..to][to - from - 8..] == frame[to - 8..to];
      case Stream =>
        var sealed := XorSeq(frame[from..to], Keystream(crypto, sendSealKey, sendPosition, to - from));
        forall i | 0 <= i < |sealed| { frame[from + i] := sealed[i]; }
        assert frame[from..to] == sealed;
        sendPosition := sendPosition + |sealed|;
    }

    method EncodeFrame(message: seq<byte>) returns (frame: array<byte>)
      requires Valid() && sendSeq <= MAX_SEQUENCE && |message| <= maxSend
      modifies this`sendPosition, sendIV
      ensures fresh(frame)
      ensures frame[..] == old(Frame(crypto, SendDirection(), message))
      ensures SendDirection() == old(Advance(SendDirection(), SealedBody(crypto, SendDirection(), message)))
    {
      ghost var d := SendDirection();
      var padding := PaddingLength(mode, |message|);
      var encrypted := |message| + padding + MAC_SIZE;
      var mac := crypto.mac(sendKey, sendSeq, message);
      var header, trailer := BigEndian32(encrypted + 6), [0, 1] + BigEndian32(sendSeq);
      frame := new byte[4 + encrypted + 6];
      FillFrame(frame, header, message, padding, mac, trailer);
      assert Padding(mode, |message|) == seq<byte>(padding, _ => padding);
      assert frame[4..4 + encrypted] == Body(crypto, d, message);
      SealInPlace(frame, 4, 4 + encrypted);
      FrameParts(frame, 4 + encrypted);
      assert frame[..4] == header && frame[4 + encrypted..] == trailer;
    }

    ghost function Outgoing(): Sender
      requires Valid()
      reads this, sendIV, outgoing
    {
      Sender(SendDirection(), outgoing.octets, outgoing.failed)
    }

    /** One iteration of Write: encode, hand over, and only then count the frame. */
    method SendChunk(message: seq<byte>) returns (ok: bool, ghost arrived: nat)
      requires Valid() && sendSeq <= MAX_SEQUENCE && 0 < |message| <= maxSend
      modifies this`sendPosition, this`sendSeq, sendIV, outgoing
      ensures ok ==> !old(outgoing.failed) && Outgoing() == After(crypto, old(Outgoing()), message)
      ensures !ok ==> Falters(old(Outgoing()), |old(Frame(crypto, SendDirection(), message))|, Octets(arrived))
      ensures old(outgoing.failed) ==> arrived == 0
      ensures !ok ==> Outgoing() == old(Faltered(crypto, Outgoing(), message, arrived))
    {
      hide Frame, SealedBody, Next, Advance;
      ghost var before, d := Outgoing(), SendDirection();
      var frame := EncodeFrame(message);
      NextIsAdvance(crypto, d, message);
      ok, arrived := WriteFrame(outgoing, frame);
      assert frame[..] == Frame(crypto, d, message);
      if ok {
        sendSeq := sendSeq + 1;
        assert SendDirection() == Next(crypto, d, message);
      }
    }

    /** Write reports how much of the value went out whole; budget is where the transport stopped, if it did. */
    method Write(value: seq<byte>) returns (written: nat, ok: bool, ghost budget: Budget)
      requires Valid()
      modifies this`sendPosition, this`sendSeq, sendIV, outgoing
      ensures Sent(Outgoing(), written, ok) == SendAll(crypto, old(Outgoing()), maxSend, value, budget)
    {
      hide SendAll, Frame, Faltered, Falters, After, Continues;
      written, ok, budget := 0, true, Endless;
      ghost var sent: nat := 0;
      ghost var start := Outgoing();
      ContinuesStart(crypto, start, maxSend, value);
      while written < |value|
        invariant written <= |value|
        invariant Continues(crypto, start, maxSend, value, Outgoing(), written, sent)
      {
        if sendSeq > MAX_SEQUENCE {
          StopsHere(crypto, start, maxSend, value, Outgoing(), written, sent, Endless);
          return written, false, Endless;
        }
        var chunkSize := |value| - written;
        if chunkSize > maxSend { chunkSize := maxSend; }
        var message := value[written..written + chunkSize];
        assert message == Chunk(value[written..], maxSend);
        ghost var before := Outgoing();
        ghost var size := |Frame(crypto, before.direction, message)|;
        var accepted, arrived := SendChunk(message);
        if !accepted {
          StopsHere(crypto, start, maxSend, value, before, written, sent, Octets(arrived));
          return written, false, Octets(arrived + sent);
        }
        ContinuesStep(crypto, start, maxSend, value, before, written, sent);
        written, sent := written + chunkSize, sent + size;
      }
      StopsHere(crypto, start, maxSend, value, Outgoing(), written, sent, Endless);
    }

    function Incoming(): Receiver
      requires Valid()
      reads this, receiveIV, incoming
    {
      Receiver(ReceiveDirection(), readPending, incoming.octets)
    }

    /** Decrypts a received body and moves the receiving cipher on. */
    method OpenInPlace(payload: array<byte>)
      requires Valid() && payload != sendIV && payload != receiveIV && payload.Length >= 8
      requires Aligned(mode, payload.Length)
      modifies this`receivePosition, receiveIV, payload
      ensures payload[..] == old(Open(crypto, ReceiveDirection(), payload[..]))
      ensures ReceiveDirection() == old(Advance(ReceiveDirection(), payload[..]))
    {
      var size := payload.Length;
      assert payload[..] == payload[0..size];
      match mode
      case Integrity =>
      case Cbc =>
        CbcInPlace(crypto, receiveSealKey, receiveIV, payload, 0, size, false);
        assert payload[0..size] == payload[..];
        assert old(payload[..][size - 8..]) == old(payload[size - 8..size]);
      case Stream =>
        var plain := XorSeq(payload[..], Keystream(crypto, receiveSealKey, receivePosition, size));
        forall i | 0 <= i < size { payload[i] := plain[i]; }
        assert payload[..] == plain;
        receivePosition := receivePosition + size;
    }

    /** Deciphers a sealed body and checks its padding and MAC. */
    method OpenMessage(sealed: seq<byte>, ghost consumed: nat) returns (status: ReadStatus, message: seq<byte>)
      requires Valid() && |sealed| >= MAC_SIZE && Aligned(mode, |sealed|)
      modifies this`receivePosition, this`receiveSeq, receiveIV
      ensures match old(OpenBody(crypto, ReceiveDirection(), sealed, consumed))
              case Received(m, _, after) => status.Filled? && message == m && ReceiveDirection() == after
              case Rejected(error, _, after) => status == Fails(error) && ReceiveDirection() == after
    {
      hide CbcDecrypt, GoodPadding;
      ghost var d := ReceiveDirection();
      var plaintext := new byte[|sealed|];
      forall i | 0 <= i < |sealed| { plaintext[i] := sealed[i]; }
      assert plaintext[..] == sealed;
      OpenInPlace(plaintext);
      var plain := plaintext[..];
      var messageLength := |plain| - MAC_SIZE;
      var validPadding := true;
      if mode.Cbc? {
        var paddingLength, valid := CbcPaddingLength(plain);
        validPadding := valid;
        if valid { messageLength := messageLength - paddingLength; }
      }
      var expected := crypto.mac(receiveKey, receiveSeq, plain[..messageLength]);
      var validMAC := expected == plain[|plain| - MAC_SIZE..];
      if !(validPadding && validMAC) {
        return Fails(BadIntegrity), [];
      }
      receiveSeq := receiveSeq + 1;
      return Filled, plain[..messageLength];
    }

    /** readDigestMD5Frame; waits (here: reports WouldBlock) until a whole frame has arrived. */
    method ReadOneFrame() returns (status: ReadStatus, message: seq<byte>)
      requires Valid()
      modifies this`receivePosition, this`receiveSeq, receiveIV, incoming
      ensures match ReadFrame(crypto, old(ReceiveDirection()), maxReceive, old(incoming.octets))
              case NeedMore =>
                status.WouldBlock? && incoming.octets == old(incoming.octets) &&
                ReceiveDirection() == old(ReceiveDirection())
              case Received(m, consumed, after) =>
                status.Filled? && message == m && ReceiveDirection() == after &&
                incoming.octets == old(incoming.octets)[consumed..]
              case Rejected(error, consumed, after) =>
                status == Fails(error) && ReceiveDirection() == after &&
                incoming.octets == old(incoming.octets)[consumed..]
    {
      hide OpenBody;
      message := [];
      if receiveSeq > MAX_SEQUENCE { return Fails(Exhausted), []; }
      var octets := incoming.octets;
      if |octets| < 4 { return WouldBlock, []; }
      var payloadLength := FromBigEndian32(octets[..4]);
      if payloadLength < MAC_SIZE + 6 || payloadLength > maxReceive {
        incoming.octets := octets[4..];
        return Fails(BadLength), [];
      }
      if |octets| < 4 + payloadLength { return WouldBlock, []; }
      var payload := octets[4..4 + payloadLength];
      incoming.octets := octets[4 + payloadLength..];
      var typeOffset := payloadLength - 6;
      if payload[typeOffset..typeOffset + 2] != [0, 1] { return Fails(BadType), []; }
      if FromBigEndian32(payload[typeOffset + 2..]) != receiveSeq { return Fails(BadSequence), []; }
      if mode.Cbc? && (typeOffset < 2 * BLOCK || typeOffset % BLOCK != 0) { return Fails(BadBlocks), []; }
      status, message := OpenMessage(payload[..typeOffset], 4 + payloadLength);
    }

    /** Read fills the front of value from the pending octets, opening frames until there are some. */
    method Read(value: array<byte>) returns (count: nat, status: ReadStatus)
      requires Valid() && value != sendIV && value != receiveIV
      modifies this`receivePosition, this`receiveSeq, this`readPending, receiveIV, incoming, value
      ensures count <= value.Length && value[count..] == old(value[count..])
      ensures var taken := Receive(crypto, old(Incoming()), maxReceive, value.Length);
              Incoming() == taken.after &&
              match taken.got
              case Got(octets) => status.Filled? && value[..count] == octets
              case Blocked => status.WouldBlock? && count == 0
              case Failure(error) => status == Fails(error) && count == 0
    {
      count, status := 0, Filled;
      if value.Length == 0 { return; }
      while readPending == []
        invariant value[..] == old(value[..])
        invariant Receive(crypto, Incoming(), maxReceive, value.Length) ==
                  Receive(crypto, old(Incoming()), maxReceive, value.Length)
        decreases |incoming.octets|, readPending == []
      {
        var frameStatus, message := ReadOneFrame();
        if !frameStatus.Filled? {
          return 0, frameStatus;
        }
        readPending := message;
      }
      count := if value.Length < |readPending| then value.Length else |readPending|;
      forall i | 0 <= i < count { value[i] := readPending[i]; }
      assert value[..count] == readPending[..count];
      readPending := readPending[count..];
    }

    lemma FrameParts(frame: array<byte>, to: nat)
      requires 4 <= to <= frame.Length
      ensures frame[..] == frame[..4] + (frame[4..to] + frame[to..])
    {
    }
  }

  /** Header, message, padding, MAC and trailer copied to their places. */
  method FillFrame(frame: array<byte>, header: seq<byte>, message: seq<byte>, padding: nat, mac: seq<byte>,
                   trailer: seq<byte>)
    requires |header| == 4 && padding <= 8
    requires frame.Length == 4 + |message| + padding + |mac| + |trailer|
    modifies frame
    ensures frame[..4] == header
    ensures frame[4..frame.Length - |trailer|] == message + seq<byte>(padding, _ => padding) + mac
    ensures frame[frame.Length - |trailer|..] == trailer
  {
    var octets := header + (message + seq<byte>(padding, _ => padding) + mac) + trailer;
    for index := 0 to frame.Length
      invariant frame[..index] == octets[..index]
    {
      frame[index] := octets[index];
    }
    assert frame[..] == octets;
    assert octets[4..frame.Length - |trailer|] == message + seq<byte>(padding, _ => padding) + mac;
  }

  /** The constructors with their checks of the two buffers. */
  method Establish(c: Crypto, sessionKey: Digest, p: Protection, sending: Magic, receiving: Magic,
                   peerBuffer: nat, localBuffer: nat, outgoing: Transport, incoming: Transport)
    returns (layer: SecurityLayer?)
    requires outgoing != incoming
    ensures layer == null <==> Negotiate(ModeOf(p), peerBuffer, localBuffer) == InvalidBuffer
    ensures layer != null ==>
              layer.Valid() && fresh(layer) && fresh(layer.sendIV) && fresh(layer.receiveIV) &&
              layer.crypto == c && layer.outgoing == outgoing && layer.incoming == incoming &&
              layer.SendDirection() == NewDirection(c, sessionKey, p, sending) &&
              layer.ReceiveDirection() == NewDirection(c, sessionKey, p, receiving) &&
              Limits(layer.maxSend, layer.maxReceive) == Negotiate(ModeOf(p), peerBuffer, localBuffer) &&
              layer.readPending == []
  {
    if Negotiate(ModeOf(p), peerBuffer, localBuffer).InvalidBuffer? { return null; }
    layer := new SecurityLayer(c, sessionKey, p, sending, receiving, peerBuffer, localBuffer, outgoing, incoming);
  }
}
