/** Whole runs of Write and Read over one direction of a DIGEST-MD5 layer. */
module DigestRuns {
  import opened Bytes
  import opened DigestFrames

  // ----- one Write call -----

  /** How many more octets the transport takes before it fails. */
  datatype Budget = Endless | Octets(left: nat)

  datatype Sender = Sender(direction: Direction, wire: seq<byte>, failed: bool)

  datatype Sent = Sent(after: Sender, count: nat, ok: bool)

  function Chunk(value: seq<byte>, maxSend: nat): (r: seq<byte>)
    requires maxSend > 0 && value != []
    ensures 0 < |r| <= maxSend && r <= value
  {
    if |value| > maxSend then value[..maxSend] else value
  }

  predicate Falters(s: Sender, size: nat, budget: Budget) {
    s.failed || (budget.Octets? && budget.left < size)
  }

  /** Write: frame after frame until the value is sent, the sequence space is used up or the transport fails. */
  function SendAll(c: Crypto, s: Sender, maxSend: nat, value: seq<byte>, budget: Budget): (r: Sent)
    requires 0 < maxSend <= MAX_BUFFER
    ensures r.count <= |value|
    decreases |value|
  {
    if value == [] then Sent(s, 0, true)
    else if s.direction.sequence > MAX_SEQUENCE then Sent(s, 0, false)
    else
      var chunk := Chunk(value, maxSend);
      var frame := Frame(c, s.direction, chunk);
      if Falters(s, |frame|, budget) then
        Sent(Faltered(c, s, chunk, if s.failed then 0 else budget.left), 0, false)
      else
        var left := if budget.Endless? then Endless else Octets(budget.left - |frame|);
        var rest := SendAll(c, Sender(Next(c, s.direction, chunk), s.wire + frame, false), maxSend,
                            value[|chunk|..], left);
        Sent(rest.after, |chunk| + rest.count, rest.ok)
  }

  function Plus(budget: Budget, octets: nat): Budget {
    match budget
    case Endless => Endless
    case Octets(left) => Octets(left + octets)
  }

  /** The Write that began in state `start` has sent `written` octets of the value in `octets` transport octets. */
  ghost predicate Continues(c: Crypto, start: Sender, maxSend: nat, value: seq<byte>,
                            now: Sender, written: nat, octets: nat)
    requires 0 < maxSend <= MAX_BUFFER && written <= |value|
  {
    forall budget :: Resumes(c, start, maxSend, value, now, written, octets, budget)
  }

  ghost predicate Resumes(c: Crypto, start: Sender, maxSend: nat, value: seq<byte>,
                          now: Sender, written: nat, octets: nat, budget: Budget)
    requires 0 < maxSend <= MAX_BUFFER && written <= |value|
  {
    SendAll(c, start, maxSend, value, Plus(budget, octets)) ==
    Later(written, SendAll(c, now, maxSend, value[written..], budget))
  }

  function Later(written: nat, sent: Sent): Sent {
    sent.(count := written + sent.count)
  }

  lemma ContinuesStart(c: Crypto, start: Sender, maxSend: nat, value: seq<byte>)
    requires 0 < maxSend <= MAX_BUFFER
    ensures Continues(c, start, maxSend, value, start, 0, 0)
  {
    hide SendAll;
    assert value[0..] == value;
  }

  function After(c: Crypto, s: Sender, chunk: seq<byte>): Sender
    requires s.direction.sequence <= MAX_SEQUENCE && |chunk| <= MAX_BUFFER
  {
    Sender(Next(c, s.direction, chunk), s.wire + Frame(c, s.direction, chunk), false)
  }

  lemma ContinuesStep(c: Crypto, start: Sender, maxSend: nat, value: seq<byte>, now: Sender, written: nat, octets: nat)
    requires 0 < maxSend <= MAX_BUFFER && written < |value| && now.direction.sequence <= MAX_SEQUENCE && !now.failed
    requires Continues(c, start, maxSend, value, now, written, octets)
    ensures var chunk := Chunk(value[written..], maxSend);
            Continues(c, start, maxSend, value, After(c, now, chunk),
                      written + |chunk|, octets + |Frame(c, now.direction, chunk)|)
  {
    var chunk := Chunk(value[written..], maxSend);
    var size := |Frame(c, now.direction, chunk)|;
    var next := After(c, now, chunk);
    hide Frame, Next, Advance, SealedBody, SendAll, After, Chunk;
    assert value[written..][|chunk|..] == value[written + |chunk|..];
    var written', octets' := written + |chunk|, octets + size;
    forall budget ensures Resumes(c, start, maxSend, value, next, written', octets', budget) {
      assert Resumes(c, start, maxSend, value, now, written, octets, Plus(budget, size));
      assert Plus(budget, octets') == Plus(Plus(budget, size), octets);
      SendOneFrame(c, now, maxSend, value[written..], budget);
    }
  }

  lemma StopsHere(c: Crypto, start: Sender, maxSend: nat, value: seq<byte>, now: Sender, written: nat, octets: nat,
                  budget: Budget)
    requires 0 < maxSend <= MAX_BUFFER && written <= |value|
    requires Continues(c, start, maxSend, value, now, written, octets)
    ensures SendAll(c, start, maxSend, value, Plus(budget, octets)) ==
            Later(written, SendAll(c, now, maxSend, value[written..], budget))
    ensures written == |value| ==>
              SendAll(c, start, maxSend, value, Plus(budget, octets)) == Sent(now, written, true)
    ensures written < |value| && now.direction.sequence > MAX_SEQUENCE ==>
              SendAll(c, start, maxSend, value, Plus(budget, octets)) == Sent(now, written, false)
    ensures written < |value| && now.direction.sequence <= MAX_SEQUENCE ==>
              var chunk := Chunk(value[written..], maxSend);
              Falters(now, |Frame(c, now.direction, chunk)|, budget) ==>
              SendAll(c, start, maxSend, value, Plus(budget, octets)) ==
              Sent(Faltered(c, now, chunk, if now.failed then 0 else budget.left), written, false)
  {
    hide SendAll, Frame, Faltered, Falters;
    SendNoMore(c, now, maxSend, value[written..], budget);
    assert Resumes(c, start, maxSend, value, now, written, octets, budget);
  }

  /** A frame the transport takes whole is followed by the rest of the value. */
  lemma SendOneFrame(c: Crypto, s: Sender, maxSend: nat, value: seq<byte>, budget: Budget)
    requires 0 < maxSend <= MAX_BUFFER && value != [] && s.direction.sequence <= MAX_SEQUENCE && !s.failed
    ensures var chunk := Chunk(value, maxSend);
            SendAll(c, s, maxSend, value, Plus(budget, |Frame(c, s.direction, chunk)|)) ==
            Later(|chunk|, SendAll(c, After(c, s, chunk), maxSend, value[|chunk|..], budget))
  {
    hide Frame, Next, Advance, SealedBody, Chunk;
    var size := |Frame(c, s.direction, Chunk(value, maxSend))|;
    match budget
    case Endless =>
    case Octets(left) => assert left + size - size == left;
  }

  /** The transport failed after `arrived` octets of the frame: cipher state moved on, sequence number not. */
  function Faltered(c: Crypto, s: Sender, chunk: seq<byte>, arrived: nat): Sender
    requires s.direction.sequence <= MAX_SEQUENCE && |chunk| <= MAX_BUFFER
    requires s.failed || arrived <= |Frame(c, s.direction, chunk)|
  {
    var frame := Frame(c, s.direction, chunk);
    Sender(Advance(s.direction, SealedBody(c, s.direction, chunk)),
           s.wire + frame[..if s.failed then 0 else arrived], true)
  }

  /** A Write stops here when the value is sent, the sequence space is used up or the transport fails. */
  lemma SendNoMore(c: Crypto, s: Sender, maxSend: nat, value: seq<byte>, budget: Budget)
    requires 0 < maxSend <= MAX_BUFFER
    ensures value == [] ==> SendAll(c, s, maxSend, value, budget) == Sent(s, 0, true)
    ensures value != [] && s.direction.sequence > MAX_SEQUENCE ==>
              SendAll(c, s, maxSend, value, budget) == Sent(s, 0, false)
    ensures value != [] && s.direction.sequence <= MAX_SEQUENCE ==>
              var chunk := Chunk(value, maxSend);
              Falters(s, |Frame(c, s.direction, chunk)|, budget) ==>
              SendAll(c, s, maxSend, value, budget) ==
              Sent(Faltered(c, s, chunk, if s.failed then 0 else budget.left), 0, false)
  {
    hide Frame, Next, Advance, SealedBody, Chunk;
  }

  // ----- one Read call -----

  datatype Receiver = Receiver(direction: Direction, pending: seq<byte>, wire: seq<byte>)

  /** Blocked: the next frame has not arrived in full. */
  datatype Got = Got(octets: seq<byte>) | Blocked | Failure(error: Error)

  datatype Taken = Taken(after: Receiver, got: Got)

  function Receive(c: Crypto, r: Receiver, maxReceive: nat, size: nat): Taken
    decreases |r.wire|
  {
    if size == 0 then Taken(r, Got([]))
    else if r.pending != [] then
      var n := if size < |r.pending| then size else |r.pending|;
      Taken(r.(pending := r.pending[n..]), Got(r.pending[..n]))
    else
      match ReadFrame(c, r.direction, maxReceive, r.wire)
      case NeedMore => Taken(r, Blocked)
      case Rejected(error, consumed, after) => Taken(Receiver(after, [], r.wire[consumed..]), Failure(error))
      case Received(message, consumed, after) =>
        Receive(c, Receiver(after, message, r.wire[consumed..]), maxReceive, size)
  }

  // ----- the link between two mirrored ends -----

  datatype Link = Link(sender: Direction, failed: bool, wire: seq<byte>, receiver: Direction, pending: seq<byte>)

  datatype Event = WriteCall(value: seq<byte>, budget: Budget) | ReadCall(size: nat)

  /** A link with the octets its writers were told were written and those its readers were given. */
  datatype History = History(link: Link, accepted: seq<byte>, delivered: seq<byte>, refusal: Refusal)

  datatype Refusal = NoRefusal | Refused(error: Error)

  function Step(c: Crypto, maxSend: nat, maxReceive: nat, h: History, event: Event): History
    requires 0 < maxSend <= MAX_BUFFER
  {
    var l := h.link;
    match event
    case WriteCall(value, budget) =>
      var sent := SendAll(c, Sender(l.sender, l.wire, l.failed), maxSend, value, budget);
      h.(link := l.(sender := sent.after.direction, wire := sent.after.wire, failed := sent.after.failed),
         accepted := h.accepted + value[..sent.count])
    case ReadCall(size) =>
      var taken := Receive(c, Receiver(l.receiver, l.pending, l.wire), maxReceive, size);
      var link := l.(receiver := taken.after.direction, pending := taken.after.pending, wire := taken.after.wire);
      match taken.got
      case Got(octets) => h.(link := link, delivered := h.delivered + octets)
      case Blocked => h.(link := link)
      case Failure(error) => h.(link := link, refusal := if h.refusal.Refused? then h.refusal else Refused(error))
  }

  function Run(c: Crypto, maxSend: nat, maxReceive: nat, h: History, events: seq<Event>): History
    requires 0 < maxSend <= MAX_BUFFER
    decreases |events|
  {
    if events == [] then h
    else Run(c, maxSend, maxReceive, Step(c, maxSend, maxReceive, h, events[0]), events[1..])
  }

  /** Both ends new, with the same keys for this direction. */
  function Fresh(d: Direction): History {
    History(Link(d, false, [], d, []), [], [], NoRefusal)
  }

  // ----- frames in flight -----

  ghost predicate Fits(c: Crypto, d: Direction, message: seq<byte>, maxSend: nat, maxReceive: nat) {
    0 < |message| <= maxSend <= MAX_BUFFER &&
    |message| + PaddingLength(d.mode, |message|) + MAC_SIZE + 6 <= maxReceive
  }

  /** The wire holds exactly these messages, framed one after another from direction d on. */
  ghost predicate Carries(c: Crypto, d: Direction, maxSend: nat, maxReceive: nat,
                          messages: seq<seq<byte>>, wire: seq<byte>, end: Direction, tail: seq<byte>)
    decreases |messages|
  {
    if messages == [] then wire == tail && end == d
    else
      d.sequence <= MAX_SEQUENCE && Fits(c, d, messages[0], maxSend, maxReceive) &&
      Frame(c, d, messages[0]) <= wire &&
      Carries(c, Next(c, d, messages[0]), maxSend, maxReceive, messages[1..],
              wire[|Frame(c, d, messages[0])|..], end, tail)
  }

  function Concat(messages: seq<seq<byte>>): seq<byte> {
    if messages == [] then [] else messages[0] + Concat(messages[1..])
  }

  lemma {:induction false} ConcatSnoc(messages: seq<seq<byte>>, last: seq<byte>)
    ensures Concat(messages + [last]) == Concat(messages) + last
    decreases |messages|
  {
    if messages != [] {
      assert (messages + [last])[1..] == messages[1..] + [last];
      ConcatSnoc(messages[1..], last);
    } else {
      assert (messages + [last])[1..] == [];
      assert last + [] == last;
    }
  }

  /** One more frame written behind those in flight. */
  lemma {:induction false} CarriesSnoc(c: Crypto, d: Direction, maxSend: nat, maxReceive: nat,
                                       messages: seq<seq<byte>>, wire: seq<byte>, end: Direction, message: seq<byte>)
    requires Carries(c, d, maxSend, maxReceive, messages, wire, end, [])
    requires end.sequence <= MAX_SEQUENCE && Fits(c, end, message, maxSend, maxReceive)
    ensures Carries(c, d, maxSend, maxReceive, messages + [message], wire + Frame(c, end, message),
                    Next(c, end, message), [])
    decreases |messages|
  {
    var frame := Frame(c, end, message);
    if messages == [] {
      assert wire + frame == frame && frame[|frame|..] == [];
      assert ([message])[1..] == [];
    } else {
      var first := Frame(c, d, messages[0]);
      assert (messages + [message])[1..] == messages[1..] + [message];
      assert (wire + frame)[|first|..] == wire[|first|..] + frame;
      CarriesSnoc(c, Next(c, d, messages[0]), maxSend, maxReceive, messages[1..], wire[|first|..], end, message);
    }
  }

  /** A last frame of which only the first octets got through. */
  lemma {:induction false} CarriesTail(c: Crypto, d: Direction, maxSend: nat, maxReceive: nat,
                                       messages: seq<seq<byte>>, wire: seq<byte>, end: Direction, tail: seq<byte>)
    requires Carries(c, d, maxSend, maxReceive, messages, wire, end, [])
    ensures Carries(c, d, maxSend, maxReceive, messages, wire + tail, end, tail)
    decreases |messages|
  {
    if messages == [] {
      assert wire + tail == tail;
    } else {
      var first := Frame(c, d, messages[0]);
      assert (wire + tail)[|first|..] == wire[|first|..] + tail;
      CarriesTail(c, Next(c, d, messages[0]), maxSend, maxReceive, messages[1..], wire[|first|..], end, tail);
    }
  }

  // ----- the invariant of every run -----

  /** tail is what arrived of the frame during which the transport failed, if it did. */
  ghost predicate Stalled(c: Crypto, end: Direction, maxSend: nat, maxReceive: nat, tail: seq<byte>) {
    tail == [] ||
    (end.sequence <= MAX_SEQUENCE &&
     exists message :: Fits(c, end, message, maxSend, maxReceive) &&
       |tail| < |Frame(c, end, message)| && tail == Frame(c, end, message)[..|tail|])
  }

  ghost predicate InStep(c: Crypto, maxSend: nat, maxReceive: nat, h: History, mode: Mode,
                         messages: seq<seq<byte>>, end: Direction, tail: seq<byte>)
  {
    var l := h.link;
    && l.sender.mode == mode && l.receiver.mode == mode
    && Carries(c, l.receiver, maxSend, maxReceive, messages, l.wire, end, tail)
    && h.accepted == h.delivered + l.pending + Concat(messages)
    && end.sequence == l.sender.sequence <= MAX_SEQUENCE + 1
    && (if l.failed then Stalled(c, end, maxSend, maxReceive, tail) else tail == [] && end == l.sender)
    && (h.refusal.Refused? ==> h.refusal.error.Exhausted?)
  }

  ghost predicate Good(c: Crypto, maxSend: nat, maxReceive: nat, h: History, mode: Mode) {
    exists messages, end, tail :: InStep(c, maxSend, maxReceive, h, mode, messages, end, tail)
  }

  /** The limits of two ends that agree on a buffer (see FramesFitBuffer). */
  predicate Agreed(mode: Mode, maxSend: nat, maxReceive: nat) {
    0 < maxSend <= MAX_BUFFER && maxSend + (if mode.Cbc? then 8 else 0) + MAC_SIZE + 6 <= maxReceive
  }

  lemma NegotiatedAgree(mode: Mode, buffer: nat, senderLocal: nat, receiverPeer: nat)
    requires Negotiate(mode, buffer, senderLocal).Limits? && Negotiate(mode, receiverPeer, buffer).Limits?
    ensures Agreed(mode, Negotiate(mode, buffer, senderLocal).maxSend, Negotiate(mode, receiverPeer, buffer).maxReceive)
  {
  }

  lemma {:induction false} SendKeeps(c: Crypto, maxSend: nat, maxReceive: nat, h: History, mode: Mode,
                                     value: seq<byte>, budget: Budget)
    requires Agreed(mode, maxSend, maxReceive) && Good(c, maxSend, maxReceive, h, mode)
    ensures Good(c, maxSend, maxReceive, Step(c, maxSend, maxReceive, h, WriteCall(value, budget)), mode)
    decreases |value|
  {
    hide Frame, SealedBody, Next, Advance, Carries, Concat, PaddingLength, SendAll, Receive;
    var messages, end, tail :| InStep(c, maxSend, maxReceive, h, mode, messages, end, tail);
    var l := h.link;
    var s := Sender(l.sender, l.wire, l.failed);
    var after := Step(c, maxSend, maxReceive, h, WriteCall(value, budget));
    SendNoMore(c, s, maxSend, value, budget);
    if value == [] || l.sender.sequence > MAX_SEQUENCE {
      assert h.accepted + value[..0] == h.accepted;
      assert InStep(c, maxSend, maxReceive, after, mode, messages, end, tail);
    } else {
      var chunk := Chunk(value, maxSend);
      var frame := Frame(c, l.sender, chunk);
      if Falters(s, |frame|, budget) {
        assert h.accepted + value[..0] == h.accepted;
        if l.failed {
          assert l.wire + frame[..0] == l.wire;
          assert InStep(c, maxSend, maxReceive, after, mode, messages, end, tail);
        } else {
          var arrived := frame[..budget.left];
          CarriesTail(c, l.receiver, maxSend, maxReceive, messages, l.wire, end, arrived);
          assert Fits(c, end, chunk, maxSend, maxReceive);
          assert InStep(c, maxSend, maxReceive, after, mode, messages, end, arrived);
        }
      } else {
        var left := if budget.Endless? then Endless else Octets(budget.left - |frame|);
        assert Plus(left, |frame|) == budget;
        SendOneFrame(c, s, maxSend, value, left);
        var h' := Handed(c, h, chunk);
        HandedInStep(c, maxSend, maxReceive, h, mode, messages, end, chunk);
        var rest := value[|chunk|..];
        SendKeeps(c, maxSend, maxReceive, h', mode, rest, left);
        var sent := SendAll(c, Sender(h'.link.sender, h'.link.wire, false), maxSend, rest, left);
        assert value[..|chunk| + sent.count] == chunk + rest[..sent.count];
        assert h.accepted + value[..|chunk| + sent.count] == h'.accepted + rest[..sent.count];
        assert after == Step(c, maxSend, maxReceive, h', WriteCall(rest, left));
      }
    }
  }

  /** The history after one frame more went out whole. */
  function Handed(c: Crypto, h: History, chunk: seq<byte>): History
    requires h.link.sender.sequence <= MAX_SEQUENCE && |chunk| <= MAX_BUFFER
  {
    var l := h.link;
    var after := After(c, Sender(l.sender, l.wire, l.failed), chunk);
    h.(link := l.(sender := after.direction, wire := after.wire),
       accepted := h.accepted + chunk)
  }

  lemma HandedInStep(c: Crypto, maxSend: nat, maxReceive: nat, h: History, mode: Mode,
                     messages: seq<seq<byte>>, end: Direction, chunk: seq<byte>)
    requires Agreed(mode, maxSend, maxReceive) && 0 < |chunk| <= maxSend
    requires !h.link.failed && h.link.sender.sequence <= MAX_SEQUENCE
    requires InStep(c, maxSend, maxReceive, h, mode, messages, end, [])
    ensures InStep(c, maxSend, maxReceive, Handed(c, h, chunk), mode, messages + [chunk], Next(c, end, chunk), [])
  {
    hide Frame, SealedBody, Next, Advance, Carries, Concat;
    var l := h.link;
    CarriesSnoc(c, l.receiver, maxSend, maxReceive, messages, l.wire, end, chunk);
    ConcatSnoc(messages, chunk);
    assert h.accepted + chunk == h.delivered + l.pending + Concat(messages + [chunk]);
  }

  lemma ReadFrameKeeps(c: Crypto, maxSend: nat, maxReceive: nat, h: History, mode: Mode, size: nat,
                       messages: seq<seq<byte>>, end: Direction, tail: seq<byte>)
    requires Lawful(c) && Agreed(mode, maxSend, maxReceive)
    requires InStep(c, maxSend, maxReceive, h, mode, messages, end, tail)
    requires size > 0 && h.link.pending == [] && messages != []
    ensures InStep(c, maxSend, maxReceive, Step(c, maxSend, maxReceive, h, ReadCall(size)), mode,
                   messages[1..], end, tail)
  {
    hide Frame, SealedBody, Next, Advance, ReadFrame, PaddingLength, SendAll;
    var l := h.link;
    var message := messages[0];
    FirstFrameReadable(c, l.receiver, maxSend, maxReceive, messages, l.wire, end, tail);
    var n := if size < |message| then size else |message|;
    var r' := Receiver(Next(c, l.receiver, message), message, l.wire[|Frame(c, l.receiver, message)|..]);
    assert Receive(c, Receiver(l.receiver, [], l.wire), maxReceive, size) == Receive(c, r', maxReceive, size);
    assert Receive(c, r', maxReceive, size) == Taken(r'.(pending := message[n..]), Got(message[..n]));
    assert message == message[..n] + message[n..];
    assert h.delivered + [] + Concat(messages) == h.delivered + message[..n] + message[n..] + Concat(messages[1..]);
  }

  lemma ReadKeeps(c: Crypto, maxSend: nat, maxReceive: nat, h: History, mode: Mode, size: nat)
    requires Lawful(c) && Agreed(mode, maxSend, maxReceive) && Good(c, maxSend, maxReceive, h, mode)
    ensures Good(c, maxSend, maxReceive, Step(c, maxSend, maxReceive, h, ReadCall(size)), mode)
  {
    hide Frame, SealedBody, Next, Advance, ReadFrame, Carries, Concat, SendAll;
    var messages, end, tail :| InStep(c, maxSend, maxReceive, h, mode, messages, end, tail);
    var l := h.link;
    var after := Step(c, maxSend, maxReceive, h, ReadCall(size));
    if size > 0 && l.pending == [] && messages != [] {
      ReadFrameKeeps(c, maxSend, maxReceive, h, mode, size, messages, end, tail);
    } else if size > 0 && l.pending != [] {
      var n := if size < |l.pending| then size else |l.pending|;
      assert h.delivered + l.pending == h.delivered + l.pending[..n] + l.pending[n..];
      assert InStep(c, maxSend, maxReceive, after, mode, messages, end, tail);
    } else if size > 0 {
      assert l.wire == tail && end == l.receiver by {
        CarriesNothing(c, l.receiver, maxSend, maxReceive, l.wire, end, tail);
      }
      NothingToRead(c, maxSend, maxReceive, l.receiver, tail);
      assert l.wire[0..] == l.wire;
      assert InStep(c, maxSend, maxReceive, after, mode, messages, end, tail);
    } else {
      assert h.delivered + [] == h.delivered;
      assert InStep(c, maxSend, maxReceive, after, mode, messages, end, tail);
    }
  }

  lemma CarriesNothing(c: Crypto, d: Direction, maxSend: nat, maxReceive: nat, wire: seq<byte>, end: Direction,
                       tail: seq<byte>)
    requires Carries(c, d, maxSend, maxReceive, [], wire, end, tail)
    ensures wire == tail && end == d
  {
  }

  /** With no frame in flight a reader waits, or finds the sequence space used up. */
  lemma NothingToRead(c: Crypto, maxSend: nat, maxReceive: nat, d: Direction, tail: seq<byte>)
    requires Stalled(c, d, maxSend, maxReceive, tail)
    ensures ReadFrame(c, d, maxReceive, tail) ==
            if d.sequence > MAX_SEQUENCE then Rejected(Exhausted, 0, d) else NeedMore
  {
    if tail != [] {
      var message :| Fits(c, d, message, maxSend, maxReceive) &&
        |tail| < |Frame(c, d, message)| && tail == Frame(c, d, message)[..|tail|];
      PartialFrameWaits(c, d, message, maxReceive, |tail|);
    }
  }

  lemma {:induction false} RunKeeps(c: Crypto, maxSend: nat, maxReceive: nat, h: History, mode: Mode,
                                    events: seq<Event>)
    requires Lawful(c) && Agreed(mode, maxSend, maxReceive) && Good(c, maxSend, maxReceive, h, mode)
    ensures Good(c, maxSend, maxReceive, Run(c, maxSend, maxReceive, h, events), mode)
    decreases |events|
  {
    if events != [] {
      match events[0] {
        case WriteCall(value, budget) => SendKeeps(c, maxSend, maxReceive, h, mode, value, budget);
        case ReadCall(size) => ReadKeeps(c, maxSend, maxReceive, h, mode, size);
      }
      RunKeeps(c, maxSend, maxReceive, Step(c, maxSend, maxReceive, h, events[0]), mode, events[1..]);
    }
  }

  lemma FreshIsGood(c: Crypto, maxSend: nat, maxReceive: nat, d: Direction)
    requires d.sequence == 0
    ensures Good(c, maxSend, maxReceive, Fresh(d), d.mode)
  {
    assert InStep(c, maxSend, maxReceive, Fresh(d), d.mode, [], d, []);
  }

  // ----- what every run guarantees -----

  /**
   * For every run of Write and Read calls, whatever the transport cuts off and
   * whatever sizes are read: what was read is a prefix of what was written, no
   * frame is ever refused (only a used-up sequence space is reported), and the
   * sequence counters never pass 2^32.
   */
  lemma ReadsArePrefixOfWrites(c: Crypto, maxSend: nat, maxReceive: nat, d: Direction, events: seq<Event>)
    requires Lawful(c) && Agreed(d.mode, maxSend, maxReceive) && d.sequence == 0
    ensures var h := Run(c, maxSend, maxReceive, Fresh(d), events);
            h.delivered <= h.accepted &&
            (h.refusal.Refused? ==> h.refusal.error == Exhausted) &&
            h.link.receiver.sequence <= h.link.sender.sequence <= MAX_SEQUENCE + 1
  {
    FreshIsGood(c, maxSend, maxReceive, d);
    RunKeeps(c, maxSend, maxReceive, Fresh(d), d.mode, events);
    var h := Run(c, maxSend, maxReceive, Fresh(d), events);
    var messages, end, tail :| InStep(c, maxSend, maxReceive, h, d.mode, messages, end, tail);
    SequencesGrow(c, h.link.receiver, maxSend, maxReceive, messages, h.link.wire, end, tail);
    assert h.accepted == h.delivered + (h.link.pending + Concat(messages));
  }

  lemma {:induction false} SequencesGrow(c: Crypto, d: Direction, maxSend: nat, maxReceive: nat,
                                         messages: seq<seq<byte>>, wire: seq<byte>, end: Direction, tail: seq<byte>)
    requires Carries(c, d, maxSend, maxReceive, messages, wire, end, tail)
    ensures end.sequence == d.sequence + |messages|
    decreases |messages|
  {
    if messages != [] {
      SequencesGrow(c, Next(c, d, messages[0]), maxSend, maxReceive, messages[1..],
                    wire[|Frame(c, d, messages[0])|..], end, tail);
    }
  }

  lemma FirstFrameReadable(c: Crypto, d: Direction, maxSend: nat, maxReceive: nat,
                           messages: seq<seq<byte>>, wire: seq<byte>, end: Direction, tail: seq<byte>)
    requires Lawful(c) && messages != []
    requires Carries(c, d, maxSend, maxReceive, messages, wire, end, tail)
    ensures ReadFrame(c, d, maxReceive, wire) ==
            Received(messages[0], |Frame(c, d, messages[0])|, Next(c, d, messages[0]))
  {
    hide ReadFrame;
    var frame := Frame(c, d, messages[0]);
    FrameReadBack(c, d, messages[0], maxReceive, wire[|frame|..]);
    assert frame + wire[|frame|..] == wire;
  }

  /**
   * When a read finds nothing pending and no complete frame, everything written
   * has been read; and if the transport has not failed, both ends then hold the
   * same keys, sequence number, RC4 position and CBC block.
   */
  lemma DrainedMeansAllRead(c: Crypto, maxSend: nat, maxReceive: nat, d: Direction, events: seq<Event>)
    requires Lawful(c) && Agreed(d.mode, maxSend, maxReceive) && d.sequence == 0
    requires var l := Run(c, maxSend, maxReceive, Fresh(d), events).link;
             l.pending == [] && !ReadFrame(c, l.receiver, maxReceive, l.wire).Received?
    ensures var h := Run(c, maxSend, maxReceive, Fresh(d), events);
            h.delivered == h.accepted &&
            (!h.link.failed ==> h.link.wire == [] && h.link.sender == h.link.receiver)
  {
    FreshIsGood(c, maxSend, maxReceive, d);
    RunKeeps(c, maxSend, maxReceive, Fresh(d), d.mode, events);
    var h := Run(c, maxSend, maxReceive, Fresh(d), events);
    var l := h.link;
    var messages, end, tail :| InStep(c, maxSend, maxReceive, h, d.mode, messages, end, tail);
    if messages != [] {
      FirstFrameReadable(c, l.receiver, maxSend, maxReceive, messages, l.wire, end, tail);
      assert false;
    }
    assert h.delivered + [] + [] == h.delivered;
  }

  /** A reader with room is never left empty-handed while a complete frame or pending octets are there. */
  lemma ReadMakesProgress(c: Crypto, maxSend: nat, maxReceive: nat, d: Direction, events: seq<Event>, size: nat)
    requires Lawful(c) && Agreed(d.mode, maxSend, maxReceive) && d.sequence == 0 && size > 0
    ensures var h := Run(c, maxSend, maxReceive, Fresh(d), events);
            var h' := Step(c, maxSend, maxReceive, h, ReadCall(size));
            if h.delivered == h.accepted then h'.delivered == h.delivered else h.delivered < h'.delivered
  {
    FreshIsGood(c, maxSend, maxReceive, d);
    RunKeeps(c, maxSend, maxReceive, Fresh(d), d.mode, events);
    var h := Run(c, maxSend, maxReceive, Fresh(d), events);
    var l := h.link;
    var messages, end, tail :| InStep(c, maxSend, maxReceive, h, d.mode, messages, end, tail);
    if l.pending == [] {
      if messages == [] {
        NothingToRead(c, maxSend, maxReceive, l.receiver, tail);
        assert h.delivered + [] + [] == h.delivered;
      } else {
        var message := messages[0];
        var frame := Frame(c, l.receiver, message);
        FirstFrameReadable(c, l.receiver, maxSend, maxReceive, messages, l.wire, end, tail);
        var r' := Receiver(Next(c, l.receiver, message), message, l.wire[|frame|..]);
        assert Receive(c, Receiver(l.receiver, [], l.wire), maxReceive, size) == Receive(c, r', maxReceive, size);
        assert |h.accepted| > |h.delivered|;
      }
    } else {
      assert |h.accepted| > |h.delivered|;
    }
  }

  // ----- both directions -----

  datatype Side = ToServer | ToClient

  datatype Call = Call(side: Side, event: Event)

  /** The limits of the sender and of the receiver on one side. */
  datatype Window = Window(maxSend: nat, maxReceive: nat)

  datatype Duplex = Duplex(toServer: History, toClient: History)

  function RunDuplex(c: Crypto, up: Window, down: Window, both: Duplex, calls: seq<Call>): Duplex
    requires 0 < up.maxSend <= MAX_BUFFER && 0 < down.maxSend <= MAX_BUFFER
    decreases |calls|
  {
    if calls == [] then both
    else
      var event := calls[0].event;
      var next := match calls[0].side
                  case ToServer => both.(toServer := Step(c, up.maxSend, up.maxReceive, both.toServer, event))
                  case ToClient => both.(toClient := Step(c, down.maxSend, down.maxReceive, both.toClient, event));
      RunDuplex(c, up, down, next, calls[1..])
  }

  lemma {:induction false} DuplexKeeps(c: Crypto, up: Window, down: Window, both: Duplex, m: Mode, n: Mode,
                                       calls: seq<Call>)
    requires Lawful(c) && Agreed(m, up.maxSend, up.maxReceive) && Agreed(n, down.maxSend, down.maxReceive)
    requires Good(c, up.maxSend, up.maxReceive, both.toServer, m)
    requires Good(c, down.maxSend, down.maxReceive, both.toClient, n)
    ensures var after := RunDuplex(c, up, down, both, calls);
            Good(c, up.maxSend, up.maxReceive, after.toServer, m) &&
            Good(c, down.maxSend, down.maxReceive, after.toClient, n)
    decreases |calls|
  {
    hide Good;
    if calls != [] {
      var event := calls[0].event;
      match calls[0].side {
        case ToServer => RunKeeps(c, up.maxSend, up.maxReceive, both.toServer, m, [event]);
          assert [event][1..] == [];
          assert Run(c, up.maxSend, up.maxReceive, both.toServer, [event]) ==
            Run(c, up.maxSend, up.maxReceive, Step(c, up.maxSend, up.maxReceive, both.toServer, event), []);
          DuplexKeeps(c, up, down,
            both.(toServer := Step(c, up.maxSend, up.maxReceive, both.toServer, event)), m, n, calls[1..]);
        case ToClient => RunKeeps(c, down.maxSend, down.maxReceive, both.toClient, n, [event]);
          assert [event][1..] == [];
          assert Run(c, down.maxSend, down.maxReceive, both.toClient, [event]) ==
            Run(c, down.maxSend, down.maxReceive, Step(c, down.maxSend, down.maxReceive, both.toClient, event), []);
          DuplexKeeps(c, up, down,
            both.(toClient := Step(c, down.maxSend, down.maxReceive, both.toClient, event)), m, n, calls[1..]);
      }
    }
  }

  /** Both directions of two mirrored ends, in any interleaving of their four kinds of call. */
  lemma FullDuplex(c: Crypto, up: Window, down: Window, client: Direction, server: Direction, calls: seq<Call>)
    requires Lawful(c) && client.sequence == 0 && server.sequence == 0
    requires Agreed(client.mode, up.maxSend, up.maxReceive) && Agreed(server.mode, down.maxSend, down.maxReceive)
    ensures var after := RunDuplex(c, up, down, Duplex(Fresh(client), Fresh(server)), calls);
            after.toServer.delivered <= after.toServer.accepted &&
            after.toClient.delivered <= after.toClient.accepted
  {
    FreshIsGood(c, up.maxSend, up.maxReceive, client);
    FreshIsGood(c, down.maxSend, down.maxReceive, server);
    DuplexKeeps(c, up, down, Duplex(Fresh(client), Fresh(server)), client.mode, server.mode, calls);
    var after := RunDuplex(c, up, down, Duplex(Fresh(client), Fresh(server)), calls);
    GoodMeansPrefix(c, up.maxSend, up.maxReceive, after.toServer, client.mode);
    GoodMeansPrefix(c, down.maxSend, down.maxReceive, after.toClient, server.mode);
  }

  lemma GoodMeansPrefix(c: Crypto, maxSend: nat, maxReceive: nat, h: History, mode: Mode)
    requires Good(c, maxSend, maxReceive, h, mode)
    ensures h.delivered <= h.accepted
  {
    var messages, end, tail :| InStep(c, maxSend, maxReceive, h, mode, messages, end, tail);
    assert h.accepted == h.delivered + (h.link.pending + Concat(messages));
  }
}
