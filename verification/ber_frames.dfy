/** Reassembly of LDAP messages from a byte stream, and the BER length octets (X.690, section 8.1.3). */
module BerFrames {
  import opened Bytes
  import opened Text

  const MAX_FRAME_CONTENT: nat := 0x1000_0000   // 256 MiB

  // ----- length octets -----

  function Base256(n: nat): (r: seq<byte>) {
    if n == 0 then [] else Base256(n / 256) + [n % 256]
  }

  function FromBase256(s: seq<byte>): (n: nat) {
    if s == [] then 0 else
      var last: int := s[|s| - 1];
      FromBase256(s[..|s| - 1]) * 256 + last
  }

  lemma {:induction false} Base256RoundTrip(n: nat)
    ensures FromBase256(Base256(n)) == n
    ensures n > 0 ==> Base256(n) != [] && Base256(n)[0] > 0
    ensures |Base256(n)| <= 4 <==> n < TWO32
    ensures n < 0x8000_0000_0000_0000 ==> |Base256(n)| <= 8
    decreases n
  {
    if n > 0 {
      Base256RoundTrip(n / 256);
      assert Base256(n)[..|Base256(n)| - 1] == Base256(n / 256);
      Base256Size(n);
    }
  }

  lemma Base256Size(n: nat)
    ensures |Base256(n)| <= 4 <==> n < TWO32
    ensures n < 0x8000_0000_0000_0000 ==> |Base256(n)| <= 8
  {
    var n1 := n / 256;
    var n2 := n1 / 256;
    var n3 := n2 / 256;
    var n4 := n3 / 256;
    var n5, n6 := n4 / 256, n4 / 256 / 256;
    var n7 := n6 / 256;
    assert n4 == 0 <==> n < TWO32;
    assert n > 0 ==> |Base256(n)| == 1 + |Base256(n1)|;
    assert n1 > 0 ==> |Base256(n1)| == 1 + |Base256(n2)|;
    assert n2 > 0 ==> |Base256(n2)| == 1 + |Base256(n3)|;
    assert n3 > 0 ==> |Base256(n3)| == 1 + |Base256(n4)|;
    assert n4 > 0 ==> |Base256(n4)| == 1 + |Base256(n5)|;
    if n < 0x8000_0000_0000_0000 {
      assert n7 / 256 == 0;
      assert n5 > 0 ==> |Base256(n5)| == 1 + |Base256(n6)|;
      assert n6 > 0 ==> |Base256(n6)| == 1 + |Base256(n7)|;
      assert n7 > 0 ==> |Base256(n7)| == 1 + |Base256(n7 / 256)|;
    }
  }

  /** What appendLDAPBERLength writes. */
  function LengthOctets(n: nat): (r: seq<byte>)
    requires n < 0x8000_0000_0000_0000
    ensures r != []
  {
    if n < 128 then [n] else
      Base256RoundTrip(n);
      [0x80 + |Base256(n)|] + Base256(n)
  }

  class ByteBuffer {
    var data: seq<byte>
  }

  /** ldapBERLengthSize: the number of octets appendLDAPBERLength writes. */
  method LengthSize(length: nat) returns (size: nat)
    requires length < 0x8000_0000_0000_0000
    ensures size == |LengthOctets(length)|
  {
    if length < 128 { return 1; }
    size := 1;
    var value := length;
    while value > 0
      invariant size + |Base256(value)| == 1 + |Base256(length)|
    {
      size := size + 1;
      value := value / 256;
    }
  }

  method AppendLength(buffer: ByteBuffer, length: nat)
    requires length < 0x8000_0000_0000_0000
    modifies buffer
    ensures buffer.data == old(buffer.data) + LengthOctets(length)
  {
    LengthOctetsCases(length);
    hide Base256, LengthOctets;
    if length < 128 {
      buffer.data := buffer.data + [length];
      return;
    }
    var encoded := new byte[8];
    var position := 8;
    var value := length;
    while value > 0
      invariant 0 <= position <= 8
      invariant |Base256(value)| <= position
      invariant Base256(value) + encoded[position..] == Base256(length)
      invariant buffer.data == old(buffer.data)
    {
      Base256Step(value, encoded[position..]);
      ghost var tail := encoded[position..];
      position := position - 1;
      encoded[position] := value % 256;
      assert encoded[position..] == [value % 256] + tail;
      value := value / 256;
    }
    assert encoded[position..] == Base256(length);
    var prefix: byte := 0x80 + (8 - position);
    buffer.data := buffer.data + [prefix];
    buffer.data := buffer.data + encoded[position..];
    Associates(old(buffer.data), [prefix], Base256(length));
    assert LengthOctets(length) == [prefix] + Base256(length);
  }

  lemma LengthOctetsCases(n: nat)
    requires n < 0x8000_0000_0000_0000
    ensures Base256(0) == []
    ensures n < 128 ==> LengthOctets(n) == [n]
    ensures n >= 128 ==> |Base256(n)| <= 8 && LengthOctets(n) == [0x80 + |Base256(n)|] + Base256(n)
  {
    Base256RoundTrip(n);
  }

  lemma Base256Step(n: nat, tail: seq<byte>)
    requires n > 0
    ensures Base256(n) + tail == Base256(n / 256) + ([n % 256] + tail)
    ensures |Base256(n)| == |Base256(n / 256)| + 1
  {
    assert Base256(n) == Base256(n / 256) + [n % 256];
  }

  // ----- frame headers -----

  datatype Header = Short | Bad | Sized(total: nat)

  function FrameHeader(data: seq<byte>): (h: Header)
    ensures h.Sized? ==> h.total >= 2
  {
    if |data| < 2 then Short
    else if data[0] != 0x30 then Bad
    else if data[1] < 0x80 then Sized(2 + data[1])
    else
      var lengthBytes: int := data[1] - 0x80;
      if lengthBytes == 0 || lengthBytes > 4 then Bad
      else if |data| < 2 + lengthBytes then Short
      else
        var content := FromBase256(data[2..2 + lengthBytes]);
        if content > MAX_FRAME_CONTENT then Bad else Sized(2 + lengthBytes + content)
  }

  lemma OneMoreOctet(data: seq<byte>, index: nat)
    requires 2 <= index < |data|
    ensures FromBase256(data[2..index + 1]) == FromBase256(data[2..index]) * 256 + data[index]
  {
    assert data[2..index + 1][..index - 2] == data[2..index];
  }

  /** ldapBERFrameLength. */
  method FrameLength(data: seq<byte>) returns (total: nat, complete: bool, valid: bool)
    ensures valid <==> !FrameHeader(data).Bad?
    ensures complete <==> FrameHeader(data).Sized? && |data| >= FrameHeader(data).total
    ensures FrameHeader(data).Sized? ==> total == FrameHeader(data).total
  {
    if |data| < 2 { return 0, false, true; }
    if data[0] != 0x30 { return 0, false, false; }
    var lengthBytes: int := data[1] % 0x80;
    var header: int := 2;
    var content := 0;
    if data[1] < 0x80 {
      content := data[1];
    } else {
      if lengthBytes == 0 || lengthBytes > 4 { return 0, false, false; }
      if |data| < 2 + lengthBytes { return 0, false, true; }
      header := header + lengthBytes;
      for index := 2 to header
        invariant content == FromBase256(data[2..index])
      {
        OneMoreOctet(data, index);
        var octet: int := data[index];
        content := content * 256 + octet;
      }
    }
    if content > MAX_FRAME_CONTENT { return 0, false, false; }
    total := header + content;
    complete, valid := |data| >= total, true;
  }

  /** More input never changes a header that has been read, nor repairs a bad one. */
  lemma HeaderStable(data: seq<byte>, more: seq<byte>)
    ensures FrameHeader(data).Short? || FrameHeader(data + more) == FrameHeader(data)
  {
    if |data| >= 2 && data[1] >= 0x80 && |data| >= 2 + (data[1] - 0x80) {
      assert (data + more)[2..2 + (data[1] - 0x80)] == data[2..2 + (data[1] - 0x80)];
    }
  }

  /** A definite-length SEQUENCE written with these length octets is read back whole, up to the size limit. */
  lemma LengthOctetsReadBack(content: seq<byte>, more: seq<byte>)
    requires |content| < 0x8000_0000_0000_0000
    ensures var header := FrameHeader([0x30] + LengthOctets(|content|) + content + more);
            header == if |content| <= MAX_FRAME_CONTENT then Sized(1 + |LengthOctets(|content|)| + |content|) else Bad
  {
    var n, octets := |content|, LengthOctets(|content|);
    var data := [0x30] + octets + content + more;
    if n >= 128 {
      Base256RoundTrip(n);
      assert data[1] == octets[0];
      var k := |Base256(n)|;
      assert k > 4 || data[2..2 + k] == Base256(n);
    }
  }

  // ----- the observer -----

  /** What ber.DecodePacketErr makes of a frame, as far as the observer looks. */
  datatype Packet<R> =
    | Undecodable
    | Message(children: nat, messageID: Option<int>, application: bool, tag: int, response: R)

  predicate SearchTag(tag: int) { tag == 4 || tag == 5 || tag == 19 || tag == 25 }

  type Responses<R> = map<int, seq<R>>

  function Record<R>(responses: Responses<R>, searchIDs: seq<int>, packet: Packet<R>): Responses<R> {
    if packet.Undecodable? || packet.children < 2 || packet.messageID.None? then responses
    else
      var id := packet.messageID.value;
      if !packet.application || id !in searchIDs || !SearchTag(packet.tag) then responses
      else responses[id := (if id in responses then responses[id] else []) + [packet.response]]
  }

  datatype Observed<R> = Observed(buffer: seq<byte>, responses: Responses<R>)

  /** consumeFrames on the response side. */
  function Consume<R>(o: Observed<R>, searchIDs: seq<int>, decode: seq<byte> -> Packet<R>): Observed<R>
    decreases |o.buffer|
  {
    var header := FrameHeader(o.buffer);
    if header.Bad? then o.(buffer := [])
    else if header.Short? || |o.buffer| < header.total then o
    else
      Consume(Observed(o.buffer[header.total..], Record(o.responses, searchIDs, decode(o.buffer[..header.total]))),
              searchIDs, decode)
  }

  class Observer<R> {
    var readBuffer: seq<byte>
    var responses: Responses<R>
    var searchIDs: seq<int>

    function State(): Observed<R> reads this { Observed(readBuffer, responses) }

    method HasSearchID(messageID: int) returns (found: bool)
      ensures found <==> messageID in searchIDs
    {
      for index := 0 to |searchIDs|
        invariant messageID !in searchIDs[..index]
      {
        if searchIDs[index] == messageID { return true; }
      }
      assert searchIDs[..|searchIDs|] == searchIDs;
      return false;
    }

    method ObserveRead(data: seq<byte>, decode: seq<byte> -> Packet<R>)
      modifies this`readBuffer, this`responses
      ensures State() == Consume(Observed(old(readBuffer) + data, old(responses)), searchIDs, decode)
    {
      readBuffer := readBuffer + data;
      while true
        invariant Consume(State(), searchIDs, decode) ==
                  Consume(Observed(old(readBuffer) + data, old(responses)), searchIDs, decode)
        decreases |readBuffer|
      {
        var length, complete, valid := FrameLength(readBuffer);
        if !valid {
          readBuffer := [];
          return;
        }
        if !complete { return; }
        var packet := decode(readBuffer[..length]);
        readBuffer := readBuffer[length..];
        if packet.Undecodable? || packet.children < 2 { continue; }
        if packet.messageID.None? { continue; }
        if !packet.application { continue; }
        var messageID := packet.messageID.value;
        var known := HasSearchID(messageID);
        if !known { continue; }
        if !SearchTag(packet.tag) { continue; }
        responses := responses[messageID :=
          (if messageID in responses then responses[messageID] else []) + [packet.response]];
      }
    }
  }

  // ----- chunking -----

  /** Every header met while consuming the stream from its front is well formed. */
  predicate HeadersValid(data: seq<byte>)
    decreases |data|
  {
    var header := FrameHeader(data);
    !header.Bad? && (header.Sized? && |data| >= header.total ==> HeadersValid(data[header.total..]))
  }

  function Feed<R>(o: Observed<R>, chunk: seq<byte>, ids: seq<int>, decode: seq<byte> -> Packet<R>): Observed<R> {
    Consume(Observed(o.buffer + chunk, o.responses), ids, decode)
  }

  function FeedAll<R>(o: Observed<R>, chunks: seq<seq<byte>>, ids: seq<int>, decode: seq<byte> -> Packet<R>)
    : Observed<R>
    decreases |chunks|
  {
    if chunks == [] then o else FeedAll(Feed(o, chunks[0], ids, decode), chunks[1..], ids, decode)
  }

  function Flatten(chunks: seq<seq<byte>>): seq<byte> {
    if chunks == [] then [] else chunks[0] + Flatten(chunks[1..])
  }

  lemma {:induction false} ConsumeAppend<R>(o: Observed<R>, more: seq<byte>, ids: seq<int>,
                                           decode: seq<byte> -> Packet<R>)
    requires HeadersValid(o.buffer + more)
    ensures HeadersValid(Consume(o, ids, decode).buffer + more)
    ensures Feed(Consume(o, ids, decode), more, ids, decode) == Feed(o, more, ids, decode)
    decreases |o.buffer|
  {
    var header := FrameHeader(o.buffer);
    HeaderStable(o.buffer, more);
    if header.Sized? && |o.buffer| >= header.total {
      var rest := Observed(o.buffer[header.total..],
                           Record(o.responses, ids, decode(o.buffer[..header.total])));
      assert (o.buffer + more)[header.total..] == rest.buffer + more;
      assert (o.buffer + more)[..header.total] == o.buffer[..header.total];
      ConsumeAppend(rest, more, ids, decode);
    }
  }

  lemma {:induction false} FeedAllIsFeed<R>(o: Observed<R>, chunks: seq<seq<byte>>, ids: seq<int>,
                                           decode: seq<byte> -> Packet<R>)
    requires HeadersValid(o.buffer + Flatten(chunks))
    requires Consume(o, ids, decode) == o
    ensures FeedAll(o, chunks, ids, decode) == Feed(o, Flatten(chunks), ids, decode)
    decreases |chunks|
  {
    if chunks == [] {
      assert o.buffer + [] == o.buffer;
    } else {
      var all := Observed(o.buffer + chunks[0], o.responses);
      var rest := Flatten(chunks[1..]);
      assert o.buffer + Flatten(chunks) == all.buffer + rest;
      ConsumeAppend(all, rest, ids, decode);
      ConsumeIdempotent(all, ids, decode);
      FeedAllIsFeed(Consume(all, ids, decode), chunks[1..], ids, decode);
    }
  }

  lemma {:induction false} ConsumeIdempotent<R>(o: Observed<R>, ids: seq<int>, decode: seq<byte> -> Packet<R>)
    ensures Consume(Consume(o, ids, decode), ids, decode) == Consume(o, ids, decode)
    decreases |o.buffer|
  {
    var header := FrameHeader(o.buffer);
    if header.Sized? && |o.buffer| >= header.total {
      ConsumeIdempotent(Observed(o.buffer[header.total..],
                                 Record(o.responses, ids, decode(o.buffer[..header.total]))), ids, decode);
    }
  }

  /** However the transport cuts a well-framed stream, the responses and the leftover are those of one read. */
  lemma ChunkingIrrelevant<R>(responses: Responses<R>, chunks: seq<seq<byte>>, ids: seq<int>,
                              decode: seq<byte> -> Packet<R>)
    requires HeadersValid(Flatten(chunks))
    ensures FeedAll(Observed([], responses), chunks, ids, decode) ==
            Feed(Observed([], responses), Flatten(chunks), ids, decode)
  {
    assert [] + Flatten(chunks) == Flatten(chunks);
    FeedAllIsFeed(Observed([], responses), chunks, ids, decode);
  }

  // ----- exactly when the chunks do not matter -----

  lemma {:induction false} ValidPrefix(data: seq<byte>, more: seq<byte>)
    requires HeadersValid(data + more)
    ensures HeadersValid(data)
    decreases |data|
  {
    var header := FrameHeader(data);
    HeaderStable(data, more);
    if header.Sized? && |data| >= header.total {
      assert (data + more)[header.total..] == data[header.total..] + more;
      ValidPrefix(data[header.total..], more);
    }
  }

  /** A malformed header empties the buffer; otherwise what is kept is a well-formed frame still incomplete. */
  lemma {:induction false} ConsumeLeaves<R>(o: Observed<R>, ids: seq<int>, decode: seq<byte> -> Packet<R>)
    ensures !HeadersValid(o.buffer) ==> Consume(o, ids, decode).buffer == []
    ensures HeadersValid(o.buffer) ==> Keeps(Consume(o, ids, decode).buffer)
    decreases |o.buffer|
  {
    var header := FrameHeader(o.buffer);
    if header.Sized? && |o.buffer| >= header.total {
      ConsumeLeaves(Observed(o.buffer[header.total..],
                             Record(o.responses, ids, decode(o.buffer[..header.total]))), ids, decode);
    }
  }

  /** A buffer that waits for more. */
  predicate Keeps(buffer: seq<byte>) {
    var header := FrameHeader(buffer);
    header.Short? || (header.Sized? && |buffer| < header.total)
  }

  /** Reading on after well-formed octets is reading everything at once, whatever follows. */
  lemma {:induction false} ConsumeThenMore<R>(o: Observed<R>, more: seq<byte>, ids: seq<int>,
                                              decode: seq<byte> -> Packet<R>)
    requires HeadersValid(o.buffer)
    ensures Feed(Consume(o, ids, decode), more, ids, decode) == Feed(o, more, ids, decode)
    decreases |o.buffer|
  {
    var header := FrameHeader(o.buffer);
    HeaderStable(o.buffer, more);
    if header.Sized? && |o.buffer| >= header.total {
      var rest := Observed(o.buffer[header.total..],
                           Record(o.responses, ids, decode(o.buffer[..header.total])));
      assert (o.buffer + more)[header.total..] == rest.buffer + more;
      assert (o.buffer + more)[..header.total] == o.buffer[..header.total];
      ConsumeThenMore(rest, more, ids, decode);
    }
  }

  /** What is left of the stream when its last octet is taken away. */
  function AllButLast(data: seq<byte>): seq<byte> { if data == [] then [] else data[..|data| - 1] }

  lemma LastOfTail(a: seq<byte>, b: seq<byte>)
    requires b != []
    ensures AllButLast(a + b) == a + AllButLast(b)
  {
  }

  lemma FirstChunk<R>(o: Observed<R>, chunks: seq<seq<byte>>)
    requires chunks != []
    ensures o.buffer + Flatten(chunks) == o.buffer + chunks[0] + Flatten(chunks[1..])
  {
  }

  lemma EmptyChunk<R>(o: Observed<R>, ids: seq<int>, decode: seq<byte> -> Packet<R>)
    requires Consume(o, ids, decode) == o
    ensures Feed(o, [], ids, decode) == o
  {
    assert o.buffer + [] == o.buffer;
  }

  lemma {:induction false} EmptyChunks<R>(o: Observed<R>, chunks: seq<seq<byte>>, ids: seq<int>,
                                          decode: seq<byte> -> Packet<R>)
    requires Consume(o, ids, decode) == o && Flatten(chunks) == []
    ensures FeedAll(o, chunks, ids, decode) == o
    decreases |chunks|
  {
    if chunks != [] {
      assert |chunks[0]| + |Flatten(chunks[1..])| == 0;
      EmptyChunk(o, ids, decode);
      EmptyChunks(o, chunks[1..], ids, decode);
    }
  }

  /** Only the last octet may complete a malformed header: every chunk but the last non-empty one is well formed. */
  lemma {:induction false} FeedAllUpToLast<R>(o: Observed<R>, chunks: seq<seq<byte>>, ids: seq<int>,
                                              decode: seq<byte> -> Packet<R>)
    requires Consume(o, ids, decode) == o && Flatten(chunks) != []
    requires HeadersValid(AllButLast(o.buffer + Flatten(chunks)))
    ensures FeedAll(o, chunks, ids, decode) == Feed(o, Flatten(chunks), ids, decode)
    decreases |chunks|
  {
    var first, rest := chunks[0], Flatten(chunks[1..]);
    var all := Observed(o.buffer + first, o.responses);
    var next := Feed(o, first, ids, decode);
    FirstChunk(o, chunks);
    assert rest == [] ==> Flatten(chunks) == first by { assert first + [] == first; }
    assert FeedAll(o, chunks, ids, decode) == FeedAll(next, chunks[1..], ids, decode);
    ConsumeIdempotent(all, ids, decode);
    hide Flatten, FeedAll, Consume, HeadersValid, AllButLast;
    if rest == [] {
      EmptyChunks(next, chunks[1..], ids, decode);
    } else {
      var front := AllButLast(rest);
      LastOfTail(all.buffer, rest);
      LastOfTail(next.buffer, rest);
      ValidPrefix(all.buffer, front);
      ConsumeThenMore(all, rest, ids, decode);
      ConsumeAppend(all, front, ids, decode);
      FeedAllUpToLast(next, chunks[1..], ids, decode);
    }
  }

  ghost predicate ChunksDoNotMatter<R>(responses: Responses<R>, data: seq<byte>, ids: seq<int>,
                                             decode: seq<byte> -> Packet<R>)
  {
    forall chunks :: Flatten(chunks) == data ==>
      FeedAll(Observed([], responses), chunks, ids, decode) == Feed(Observed([], responses), data, ids, decode)
  }

  lemma TwoChunks<R>(o: Observed<R>, a: seq<byte>, b: seq<byte>, ids: seq<int>, decode: seq<byte> -> Packet<R>)
    ensures Flatten([a, b]) == a + b
    ensures FeedAll(o, [a, b], ids, decode) == Feed(Feed(o, a, ids, decode), b, ids, decode)
  {
    assert [a, b][1..] == [b] && [b][1..] == [];
    assert Flatten([b]) == b + [] == b;
    var next := Feed(o, a, ids, decode);
    assert FeedAll(o, [a, b], ids, decode) == FeedAll(next, [b], ids, decode);
    assert FeedAll(next, [b], ids, decode) == FeedAll(Feed(next, b, ids, decode), [], ids, decode);
  }

  /** Once a header is malformed the buffer stays empty to the end of the read, whatever is appended to it. */
  lemma {:induction false} MalformedStays<R>(o: Observed<R>, more: seq<byte>, ids: seq<int>,
                                             decode: seq<byte> -> Packet<R>)
    requires !HeadersValid(o.buffer)
    ensures Feed(o, more, ids, decode).buffer == []
    decreases |o.buffer|
  {
    var header := FrameHeader(o.buffer);
    HeaderStable(o.buffer, more);
    if header.Sized? && |o.buffer| >= header.total {
      var rest := Observed(o.buffer[header.total..],
                           Record(o.responses, ids, decode(o.buffer[..header.total])));
      assert (o.buffer + more)[header.total..] == rest.buffer + more;
      assert (o.buffer + more)[..header.total] == o.buffer[..header.total];
      MalformedStays(rest, more, ids, decode);
    }
  }

  /** Cutting off the last octet behind a malformed header leaves that octet waiting. */
  lemma LastOctetWaits<R>(responses: Responses<R>, data: seq<byte>, ids: seq<int>, decode: seq<byte> -> Packet<R>)
    requires data != [] && !HeadersValid(AllButLast(data))
    ensures !ChunksDoNotMatter(responses, data, ids, decode)
  {
    var front, last := AllButLast(data), [data[|data| - 1]];
    assert front + last == data && [] + front == front && [] + data == data && [] + last == last;
    var o, whole := Observed([], responses), Observed(front, responses);
    ConsumeLeaves(whole, ids, decode);
    MalformedStays(whole, last, ids, decode);
    var next := Feed(o, front, ids, decode);
    assert Feed(next, last, ids, decode).buffer == last by {
      assert Consume(Observed(last, next.responses), ids, decode).buffer == last;
    }
    hide Consume, HeadersValid, AllButLast, FeedAll, Flatten;
    TwoChunks(o, front, last, ids, decode);
    assert FeedAll(o, [front, last], ids, decode) != Feed(o, data, ids, decode);
  }

  /**
   * The chunks of a stream do not matter exactly when no header is malformed before the last octet: what the
   * observer records and keeps is then the same however the stream is cut.
   */
  lemma ChunksDoNotMatterExactly<R>(responses: Responses<R>, data: seq<byte>, ids: seq<int>,
                                    decode: seq<byte> -> Packet<R>)
    ensures ChunksDoNotMatter(responses, data, ids, decode) <==> data == [] || HeadersValid(data[..|data| - 1])
  {
    var o := Observed([], responses);
    assert Consume(o, ids, decode) == o;
    if data == [] || HeadersValid(AllButLast(data)) {
      forall chunks | Flatten(chunks) == data
        ensures FeedAll(o, chunks, ids, decode) == Feed(o, data, ids, decode)
      {
        assert [] + data == data;
        if data == [] {
          EmptyChunks(o, chunks, ids, decode);
          EmptyChunk(o, ids, decode);
        } else {
          FeedAllUpToLast(o, chunks, ids, decode);
        }
      }
    } else {
      LastOctetWaits(responses, data, ids, decode);
    }
  }

  // ----- what the frames of a stream contribute -----

  function Frame(content: seq<byte>): seq<byte>
    requires |content| <= MAX_FRAME_CONTENT
  {
    [0x30] + LengthOctets(|content|) + content
  }

  function Stream(contents: seq<seq<byte>>): seq<byte>
    requires forall i :: 0 <= i < |contents| ==> |contents[i]| <= MAX_FRAME_CONTENT
  {
    if contents == [] then [] else Frame(contents[0]) + Stream(contents[1..])
  }

  function RecordAll<R>(responses: Responses<R>, contents: seq<seq<byte>>, ids: seq<int>,
                        decode: seq<byte> -> Packet<R>): Responses<R>
    requires forall i :: 0 <= i < |contents| ==> |contents[i]| <= MAX_FRAME_CONTENT
    decreases |contents|
  {
    if contents == [] then responses
    else RecordAll(Record(responses, ids, decode(Frame(contents[0]))), contents[1..], ids, decode)
  }

  lemma {:induction false} StreamConsumed<R>(responses: Responses<R>, contents: seq<seq<byte>>, ids: seq<int>,
                                            decode: seq<byte> -> Packet<R>)
    requires forall i :: 0 <= i < |contents| ==> |contents[i]| <= MAX_FRAME_CONTENT
    ensures HeadersValid(Stream(contents))
    ensures Consume(Observed(Stream(contents), responses), ids, decode) ==
            Observed([], RecordAll(responses, contents, ids, decode))
    decreases |contents|
  {
    if contents != [] {
      var frame, rest := Frame(contents[0]), Stream(contents[1..]);
      LengthOctetsReadBack(contents[0], rest);
      assert Stream(contents)[..|frame|] == frame && Stream(contents)[|frame|..] == rest;
      StreamConsumed(Record(responses, ids, decode(frame)), contents[1..], ids, decode);
    }
  }

  /** Messages framed by the writer arrive once each, in order, with nothing left over, in any chunks. */
  lemma FramesArriveOnce<R>(responses: Responses<R>, contents: seq<seq<byte>>, chunks: seq<seq<byte>>,
                            ids: seq<int>, decode: seq<byte> -> Packet<R>)
    requires forall i :: 0 <= i < |contents| ==> |contents[i]| <= MAX_FRAME_CONTENT
    requires Flatten(chunks) == Stream(contents)
    ensures FeedAll(Observed([], responses), chunks, ids, decode) ==
            Observed([], RecordAll(responses, contents, ids, decode))
  {
    StreamConsumed(responses, contents, ids, decode);
    ChunkingIrrelevant(responses, chunks, ids, decode);
    assert [] + Stream(contents) == Stream(contents);
  }

  /** After a malformed header the observer drops its buffer, so there the chunks do matter. */
  lemma ResynchronizationDependsOnChunks<R>(response: R)
    ensures var decode: seq<byte> -> Packet<R> := _ => Message(2, Some(1), true, 5, response);
            FeedAll(Observed([], map[]), [[0x31, 0], [0x30, 0]], [1], decode).responses == map[1 := [response]] &&
            FeedAll(Observed([], map[]), [[0x31, 0, 0x30, 0]], [1], decode).responses == map[]
  {
    var decode: seq<byte> -> Packet<R> := _ => Message(2, Some(1), true, 5, response);
    var o: Observed<R> := Observed([], map[]);
    assert Feed(o, [0x31, 0], [1], decode) == o;
    var frame: seq<byte> := [0x30, 0];
    assert [] + frame == frame && frame[2..] == [];
    assert Consume(Observed([], map[1 := [response]]), [1], decode).responses == map[1 := [response]];
    assert FrameHeader(frame) == Sized(2) && frame[..2] == frame;
    var ids: seq<int> := [1];
    assert ids[0] == 1 && [] + [response] == [response];
    assert Record(o.responses, [1], decode(frame)) == map[1 := [response]];
    assert Feed(o, frame, [1], decode) == Consume(Observed([], map[1 := [response]]), [1], decode);
    assert Feed(o, frame, [1], decode).responses == map[1 := [response]];
    assert FeedAll(o, [[0x31, 0], frame], [1], decode) == FeedAll(o, [frame], [1], decode);
    assert FeedAll(o, [frame], [1], decode) == FeedAll(Feed(o, frame, [1], decode), [], [1], decode);
    assert Feed(o, [0x31, 0, 0x30, 0], [1], decode) == o;
  }
}
