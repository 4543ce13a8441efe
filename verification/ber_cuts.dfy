/** When the cuts of a BER stream cannot change what the observer records, whatever becomes of the leftover. */
module BerCuts {
  import opened Bytes
  import opened Text
  import opened BerFrames

  /** This packet is recorded. */
  predicate IsResponse<R>(packet: Packet<R>, ids: seq<int>) {
    packet.Message? && packet.children >= 2 && packet.messageID.Some? && packet.application &&
    packet.messageID.value in ids && SearchTag(packet.tag)
  }

  /** The octets start with a whole frame that is recorded. */
  predicate StartsResponse<R>(data: seq<byte>, ids: seq<int>, decode: seq<byte> -> Packet<R>) {
    var header := FrameHeader(data);
    header.Sized? && |data| >= header.total && IsResponse(decode(data[..header.total]), ids)
  }

  /** Nowhere behind a malformed header does a frame start that would be recorded. */
  ghost predicate NothingToResume<R>(data: seq<byte>, ids: seq<int>, decode: seq<byte> -> Packet<R>) {
    forall i :: 0 <= i <= |data| && !HeadersValid(data[..i]) ==> !StartsResponse(data[i..], ids, decode)
  }

  ghost predicate CutsKeepResponses<R>(responses: Responses<R>, data: seq<byte>, ids: seq<int>,
                                             decode: seq<byte> -> Packet<R>)
  {
    forall chunks :: Flatten(chunks) == data ==>
      FeedAll(Observed([], responses), chunks, ids, decode).responses ==
      Feed(Observed([], responses), data, ids, decode).responses
  }

  // ----- what one read records -----

  function Recorded<R>(responses: Responses<R>, id: int): nat { if id in responses then |responses[id]| else 0 }

  lemma RecordGrows<R>(responses: Responses<R>, ids: seq<int>, packet: Packet<R>)
    ensures forall id :: Recorded(Record(responses, ids, packet), id) >= Recorded(responses, id)
    ensures IsResponse(packet, ids) ==>
              var id := packet.messageID.value;
              Recorded(Record(responses, ids, packet), id) > Recorded(responses, id)
    ensures !IsResponse(packet, ids) ==> Record(responses, ids, packet) == responses
  {
  }

  lemma {:induction false} ConsumeGrows<R>(o: Observed<R>, ids: seq<int>, decode: seq<byte> -> Packet<R>, id: int)
    ensures Recorded(Consume(o, ids, decode).responses, id) >= Recorded(o.responses, id)
    decreases |o.buffer|
  {
    var header := FrameHeader(o.buffer);
    if header.Sized? && |o.buffer| >= header.total {
      var packet := decode(o.buffer[..header.total]);
      RecordGrows(o.responses, ids, packet);
      ConsumeGrows(Observed(o.buffer[header.total..], Record(o.responses, ids, packet)), ids, decode, id);
    }
  }

  /** What follows a malformed header in one read adds nothing. */
  lemma {:induction false} MalformedEnds<R>(o: Observed<R>, more: seq<byte>, ids: seq<int>,
                                            decode: seq<byte> -> Packet<R>)
    requires !HeadersValid(o.buffer)
    ensures Feed(o, more, ids, decode).responses == Consume(o, ids, decode).responses
    decreases |o.buffer|
  {
    var header := FrameHeader(o.buffer);
    HeaderStable(o.buffer, more);
    if header.Sized? && |o.buffer| >= header.total {
      var rest := Observed(o.buffer[header.total..], Record(o.responses, ids, decode(o.buffer[..header.total])));
      assert (o.buffer + more)[header.total..] == rest.buffer + more;
      assert (o.buffer + more)[..header.total] == o.buffer[..header.total];
      MalformedEnds(rest, more, ids, decode);
    }
  }

  // ----- a cut in front of a response -----

  lemma StartRecorded<R>(responses: Responses<R>, data: seq<byte>, ids: seq<int>, decode: seq<byte> -> Packet<R>)
    returns (id: int)
    requires StartsResponse(data, ids, decode)
    ensures Recorded(Consume(Observed(data, responses), ids, decode).responses, id) > Recorded(responses, id)
  {
    var header := FrameHeader(data);
    var packet := decode(data[..header.total]);
    id := packet.messageID.value;
    RecordGrows(responses, ids, packet);
    ConsumeGrows(Observed(data[header.total..], Record(responses, ids, packet)), ids, decode, id);
  }

  lemma CutOnce<R>(responses: Responses<R>, front: seq<byte>, back: seq<byte>, ids: seq<int>,
                   decode: seq<byte> -> Packet<R>)
    requires CutsKeepResponses(responses, front + back, ids, decode)
    ensures Consume(Observed(Consume(Observed(front, responses), ids, decode).buffer + back,
                             Consume(Observed(front, responses), ids, decode).responses), ids, decode).responses ==
            Consume(Observed(front + back, responses), ids, decode).responses
  {
    assert [] + front == front && [] + (front + back) == front + back;
    hide Consume, FeedAll, Flatten;
    TwoChunks(Observed([], responses), front, back, ids, decode);
  }

  lemma CutResumes<R>(responses: Responses<R>, data: seq<byte>, i: nat, ids: seq<int>, decode: seq<byte> -> Packet<R>)
    requires i <= |data| && !HeadersValid(data[..i]) && StartsResponse(data[i..], ids, decode)
    ensures !CutsKeepResponses(responses, data, ids, decode)
  {
    hide Consume, HeadersValid, StartsResponse, CutsKeepResponses;
    var front, back := data[..i], data[i..];
    var whole := Observed(front, responses);
    var next := Consume(whole, ids, decode);
    assert front + back == data && [] + back == back;
    ConsumeLeaves(whole, ids, decode);
    MalformedEnds(whole, back, ids, decode);
    var id := StartRecorded(next.responses, back, ids, decode);
    if CutsKeepResponses(responses, data, ids, decode) { CutOnce(responses, front, back, ids, decode); }
  }

  // ----- nothing to resume -----

  /** From j on, data holds no response to start with, and i octets of it have been read. */
  ghost predicate Quiet<R>(data: seq<byte>, j: nat, ids: seq<int>, decode: seq<byte> -> Packet<R>) {
    forall k :: j <= k <= |data| ==> !StartsResponse(data[k..], ids, decode)
  }

  lemma StartStays<R>(data: seq<byte>, j: nat, i: nat, ids: seq<int>, decode: seq<byte> -> Packet<R>)
    requires j <= i <= |data| && StartsResponse(data[j..i], ids, decode)
    ensures StartsResponse(data[j..], ids, decode)
  {
    assert data[j..i] + data[i..] == data[j..];
    HeaderStable(data[j..i], data[i..]);
    var total := FrameHeader(data[j..i]).total;
    assert data[j..i][..total] == data[j..][..total];
  }

  lemma ConsumeUnfolds<R>(o: Observed<R>, ids: seq<int>, decode: seq<byte> -> Packet<R>)
    ensures var header := FrameHeader(o.buffer);
            Consume(o, ids, decode) ==
            if header.Bad? then o.(buffer := [])
            else if header.Short? || |o.buffer| < header.total then o
            else Consume(Observed(o.buffer[header.total..],
                                  Record(o.responses, ids, decode(o.buffer[..header.total]))), ids, decode)
  {
  }

  /** A frame at the front of a quiet stretch is not recorded. */
  lemma QuietFrame<R>(responses: Responses<R>, data: seq<byte>, j: nat, i: nat, ids: seq<int>,
                      decode: seq<byte> -> Packet<R>)
    requires j <= i <= |data| && Quiet(data, j, ids, decode)
    ensures var header := FrameHeader(data[j..i]);
            header.Sized? && i - j >= header.total ==>
              Record(responses, ids, decode(data[j..i][..header.total])) == responses
  {
    hide FrameHeader;
    var header := FrameHeader(data[j..i]);
    if header.Sized? && i - j >= header.total {
      var packet := decode(data[j..i][..header.total]);
      RecordGrows(responses, ids, packet);
      if IsResponse(packet, ids) { StartStays(data, j, i, ids, decode); }
    }
  }

  /** Reading a quiet stretch records nothing and leaves a later part of it. */
  lemma {:induction false} QuietRead<R>(responses: Responses<R>, data: seq<byte>, j: nat, i: nat, ids: seq<int>,
                                        decode: seq<byte> -> Packet<R>)
    returns (next: nat)
    requires j <= i <= |data| && Quiet(data, j, ids, decode)
    ensures j <= next <= i
    ensures Consume(Observed(data[j..i], responses), ids, decode) == Observed(data[next..i], responses)
    decreases i - j
  {
    hide Consume, Record, StartsResponse;
    var buffer := data[j..i];
    var header := FrameHeader(buffer);
    ConsumeUnfolds(Observed(buffer, responses), ids, decode);
    next := j;
    if header.Bad? {
      next := i;
    } else if header.Sized? && |buffer| >= header.total {
      QuietFrame(responses, data, j, i, ids, decode);
      assert buffer[header.total..] == data[j + header.total..i];
      hide FrameHeader;
      next := QuietRead(responses, data, j + header.total, i, ids, decode);
    }
  }

  /** Behind a malformed header no further read records anything. */
  lemma {:induction false} QuietReads<R>(responses: Responses<R>, data: seq<byte>, j: nat, i: nat,
                                         chunks: seq<seq<byte>>, ids: seq<int>, decode: seq<byte> -> Packet<R>)
    requires j <= i <= |data| && Quiet(data, j, ids, decode) && Flatten(chunks) == data[i..]
    ensures FeedAll(Observed(data[j..i], responses), chunks, ids, decode).responses == responses
    decreases |chunks|
  {
    if chunks != [] {
      var o, i' := Observed(data[j..i], responses), i + |chunks[0]|;
      assert chunks[0] + Flatten(chunks[1..]) == data[i..];
      assert data[i..i'] == chunks[0] && data[i'..] == Flatten(chunks[1..]);
      assert data[j..i] + chunks[0] == data[j..i'];
      var next := QuietRead(responses, data, j, i', ids, decode);
      QuietReads(responses, data, next, i', chunks[1..], ids, decode);
      hide Consume, StartsResponse;
    }
  }

  lemma QuietBehind<R>(data: seq<byte>, i: nat, ids: seq<int>, decode: seq<byte> -> Packet<R>)
    requires i <= |data| && !HeadersValid(data[..i]) && NothingToResume(data, ids, decode)
    ensures Quiet(data, i, ids, decode)
  {
    forall k | i <= k <= |data| ensures !HeadersValid(data[..k]) {
      if HeadersValid(data[..k]) {
        assert data[..i] + data[i..k] == data[..k];
        ValidPrefix(data[..i], data[i..k]);
      }
    }
    hide HeadersValid, StartsResponse;
  }

  /** With i octets read and no malformed header yet, the rest may come in any chunks. */
  lemma {:induction false} CutsAgree<R>(responses: Responses<R>, data: seq<byte>, i: nat, chunks: seq<seq<byte>>,
                                        ids: seq<int>, decode: seq<byte> -> Packet<R>)
    requires NothingToResume(data, ids, decode)
    requires i <= |data| && HeadersValid(data[..i]) && Flatten(chunks) == data[i..]
    ensures FeedAll(Consume(Observed(data[..i], responses), ids, decode), chunks, ids, decode).responses ==
            Consume(Observed(data, responses), ids, decode).responses
    decreases |chunks|
  {
    var front := Observed(data[..i], responses);
    var o := Consume(front, ids, decode);
    if chunks == [] {
      assert data[..i] == data;
    } else {
      var i' := i + |chunks[0]|;
      assert chunks[0] + Flatten(chunks[1..]) == data[i..];
      assert data[i..i'] == chunks[0] && data[i'..] == Flatten(chunks[1..]);
      assert data[..i] + chunks[0] == data[..i'] && data[..i'] + data[i'..] == data;
      ConsumeThenMore(front, chunks[0], ids, decode);
      var now := Observed(data[..i'], responses);
      assert Feed(o, chunks[0], ids, decode) == Consume(now, ids, decode);
      hide Consume, HeadersValid, NothingToResume, Flatten;
      if HeadersValid(data[..i']) {
        CutsAgree(responses, data, i', chunks[1..], ids, decode);
      } else {
        ConsumeLeaves(now, ids, decode);
        MalformedEnds(now, data[i'..], ids, decode);
        QuietBehind(data, i', ids, decode);
        assert data[i'..i'] == [];
        QuietReads(Consume(now, ids, decode).responses, data, i', i', chunks[1..], ids, decode);
      }
    }
  }

  /**
   * The recorded responses are the same however a stream is cut exactly when nowhere behind a malformed header a
   * frame starts that would be recorded.
   */
  lemma CutsKeepResponsesExactly<R>(responses: Responses<R>, data: seq<byte>, ids: seq<int>,
                                    decode: seq<byte> -> Packet<R>)
    ensures CutsKeepResponses(responses, data, ids, decode) <==> NothingToResume(data, ids, decode)
  {
    if NothingToResume(data, ids, decode) {
      forall chunks | Flatten(chunks) == data
        ensures FeedAll(Observed([], responses), chunks, ids, decode).responses ==
                Feed(Observed([], responses), data, ids, decode).responses
      {
        assert data[..0] == [] && data[0..] == data && [] + data == data;
        CutsAgree(responses, data, 0, chunks, ids, decode);
      }
    } else {
      var i :| 0 <= i <= |data| && !HeadersValid(data[..i]) && StartsResponse(data[i..], ids, decode);
      CutResumes(responses, data, i, ids, decode);
    }
  }
}
