// What feeding encoded frames to a packet manager delivers.
module SioReassembly {
  import opened Sequences
  import opened Texts
  import opened SioMessages
  import P = SioPackets
  import opened SioHeaders
  import opened SioPacketManager

  predicate AllTagged(frames: seq<string>) {
    forall frame | frame in frames :: P.IsBinaryMessage(frame)
  }

  // The packet as the decode callback should see it: as it was sent, with its doubles rounded.
  function Delivered(json: P.JsonText, kind: nat, nsp: string, packId: int, message: Message): Fields {
    P.Fields(P.FRAME_MESSAGE, P.WireType(kind, Binaries(message) != []), if nsp == "" then "/" else nsp, packId,
             Rounded(json.round, message), 0, [])
  }

  // A frame that is neither an attachment nor the text of a packet with attachments, and that does not
  // stop the program: it is delivered by itself.
  predicate Passing(json: P.JsonText, payload: string) {
    var o := P.Parse(json, payload, EMPTY);
    !P.IsBinaryMessage(payload) && !o.Halted? && !(P.IsTextMessage(payload) && o.Waiting?)
  }

  // What a frame delivers by itself, and what it attaches to a packet that waits.
  function PassedOne(json: P.JsonText, payload: string): seq<Fields> {
    var o := P.Parse(json, payload, EMPTY);
    if P.IsBinaryMessage(payload) || o.Threw? || o.Halted? then [] else [o.fields]
  }

  function AttachedOne(payload: string): seq<string> {
    if P.IsBinaryMessage(payload) then [payload] else []
  }

  function Passed(json: P.JsonText, payloads: seq<string>): seq<Fields>
    decreases payloads
  {
    if payloads == [] then [] else PassedOne(json, payloads[0]) + Passed(json, payloads[1..])
  }

  function Attached(payloads: seq<string>): seq<string> {
    if payloads == [] then [] else AttachedOne(payloads[0]) + Attached(payloads[1..])
  }

  // While a packet waits, attachments received plus attachments pending stays the same, and frames
  // that pass leave the packet alone.
  lemma FrameWhileWaiting(json: P.JsonText, s: State, payload: string)
    requires !s.stopped && s.partial.Some? && s.partial.value.pending > |AttachedOne(payload)|
    requires P.IsBinaryMessage(payload) || Passing(json, payload)
    ensures var p, fresher := s.partial.value, AttachedOne(payload);
            Put(json, s, payload) ==
            State(Some(p.(buffers := p.buffers + fresher, pending := p.pending - |fresher|)),
                  s.delivered + PassedOne(json, payload), false)
  {
    var p := s.partial.value;
    assert p.buffers + [] == p.buffers && s.delivered + [] == s.delivered;
  }

  // The last attachment completes the packet, whatever passes in between, or stops the program if the
  // packet's text does when it is read with the attachments.
  lemma {:induction false} AttachmentsComplete(json: P.JsonText, p: Fields, delivered: seq<Fields>,
                                               payloads: seq<string>)
    requires p.buffers != [] && payloads != [] && P.IsBinaryMessage(payloads[|payloads| - 1])
    requires forall payload | payload in payloads :: P.IsBinaryMessage(payload) || Passing(json, payload)
    requires p.pending == |Attached(payloads)|
    ensures PutAll(json, State(Some(p), delivered, false), payloads) ==
            match Completion(json, p, Attached(payloads))
            case Read(m) => State(None, delivered + Passed(json, payloads) + [Completed(p, m)], false)
            case Stopped => State(None, delivered + Passed(json, payloads), true)
    decreases |payloads|
  {
    var first, rest := payloads[0], payloads[1..];
    assert first in payloads;
    if rest == [] {
      assert payloads == [first] && Attached(payloads) == [first];
      LastFrame(json, State(Some(p), delivered, false), first);
    } else {
      assert payloads[|payloads| - 1] == rest[|rest| - 1];
      LastAttached(rest);
      var a, d := AttachedOne(first), PassedOne(json, first);
      var q := p.(buffers := p.buffers + a, pending := p.pending - |a|);
      FrameWhileWaiting(json, State(Some(p), delivered, false), first);
      PutFirst(json, State(Some(p), delivered, false), payloads);
      CompletionShift(json, p, a, Attached(rest), q.pending);
      AttachmentsComplete(json, q, delivered + d, rest);
      Regroup(delivered, d, Passed(json, rest));
    }
  }

  lemma PutFirst(json: P.JsonText, s: State, payloads: seq<string>)
    requires payloads != []
    ensures PutAll(json, s, payloads) == PutAll(json, Put(json, s, payloads[0]), payloads[1..])
  {}

  lemma Regroup<T>(a: seq<T>, b: seq<T>, c: seq<T>)
    ensures a + b + c == a + (b + c)
  {}

  // What the waiting packet's JSON text is read as, once the remaining attachments have come.
  function Completion(json: P.JsonText, p: Fields, rest: seq<string>): Reading
    requires p.buffers != []
  {
    var buffers := p.buffers + rest;
    FromJson(json.read(buffers[0]), buffers[1..])
  }

  function Completed(p: Fields, message: Message): Fields { p.(message := message, buffers := [], pending := 0) }

  lemma CompletionShift(json: P.JsonText, p: Fields, first: seq<string>, rest: seq<string>, pending: nat)
    requires p.buffers != []
    ensures Completion(json, p.(buffers := p.buffers + first, pending := pending), rest) ==
            Completion(json, p, first + rest)
  {
    assert p.buffers + first + rest == p.buffers + (first + rest);
  }

  lemma LastFrame(json: P.JsonText, s: State, payload: string)
    requires !s.stopped && s.partial.Some? && s.partial.value.buffers != [] && s.partial.value.pending == 1
    requires P.IsBinaryMessage(payload)
    ensures PutAll(json, s, [payload]) ==
            match Completion(json, s.partial.value, [payload])
            case Read(m) => State(None, s.delivered + Passed(json, [payload]) + [Completed(s.partial.value, m)], false)
            case Stopped => State(None, s.delivered + Passed(json, [payload]), true)
    ensures Attached([payload]) == [payload]
  {
    assert Passed(json, [payload]) == [];
    assert s.delivered + [] == s.delivered;
    PutFirst(json, s, [payload]);
  }

  lemma {:induction false} LastAttached(payloads: seq<string>)
    requires payloads != [] && P.IsBinaryMessage(payloads[|payloads| - 1])
    ensures Attached(payloads) != []
  {
    if |payloads| > 1 {
      LastAttached(payloads[1..]);
    }
  }

  lemma TextIsText(json: P.JsonText, kind: nat, nsp: string, packId: int, message: Message)
    ensures P.IsTextMessage(P.MessageText(json, kind, nsp, packId, message))
  {}

  // Feeding a packet's text and then its attachments, with other frames in between, makes one decode
  // callback for the packet, with equal content but for the rounding of doubles, and leaves nothing
  // waiting.
  lemma PacketDelivered(json: P.JsonText, kind: nat, nsp: string, packId: int, message: Message, s: State,
                        payloads: seq<string>)
    requires P.Faithful(json) && Sendable(kind, nsp, packId, message) && !s.stopped
    requires if Binaries(message) == [] then payloads == []
             else
               && payloads != [] && P.IsBinaryMessage(payloads[|payloads| - 1])
               && Attached(payloads) == Binaries(message)
    requires forall payload | payload in payloads :: P.IsBinaryMessage(payload) || Passing(json, payload)
    ensures PutAll(json, s, [P.MessageText(json, kind, nsp, packId, message)] + payloads) ==
            State(if Binaries(message) == [] then s.partial else None,
                  s.delivered + Passed(json, payloads) + [Delivered(json, kind, nsp, packId, message)], false)
  {
    var text := P.MessageText(json, kind, nsp, packId, message);
    var buffers := Binaries(message);
    TextIsText(json, kind, nsp, packId, message);
    ParseUndoesAccept(json, kind, nsp, packId, message, EMPTY);
    assert ([text] + payloads)[1..] == payloads;
    var t := Put(json, s, text);
    if buffers == [] {
      assert s.delivered + Passed(json, payloads) == s.delivered;
    } else {
      MessageCompleted(json, message, t.partial.value);
      AttachmentsComplete(json, t.partial.value, t.delivered, payloads);
    }
  }

  lemma MessageCompleted(json: P.JsonText, message: Message, p: Fields)
    requires P.Faithful(json) && Proper(message) && !Collides(message) && |Binaries(message)| < 0x8000_0000
    requires p.buffers == [json.write(ToJson(message, 0))]
    ensures Completion(json, p, Binaries(message)) == Read(Rounded(json.round, message))
  {
    var buffers := Binaries(message);
    assert (p.buffers + buffers)[1..] == buffers;
    RoundedRoundTrip(json.round, message, buffers);
  }

  // ----- attachments that do not start with the frame byte

  // What a packet that waits has collected was tagged.
  predicate Consistent(s: State) {
    s.partial.Some? ==>
      var p := s.partial.value;
      p.buffers != [] && AllTagged(p.buffers[1..]) && p.message == NoMessage
  }

  ghost predicate ReadsTagged(o: P.Outcome) {
    match o
    case Threw => true
    case Halted => true
    case Done(f) => AllTagged(Binaries(f.message))
    case Waiting(f) => f.message == NoMessage && |f.buffers| == 1
  }

  lemma ReadTagged(v: Json)
    ensures AllTagged(ReadBinaries(FromJson(v, [])))
  {
    BinariesFromBuffers(v, []);
  }

  lemma NspReadsTagged(json: P.JsonText, payload: string, f: Fields, pos: nat)
    requires f.message == NoMessage && f.buffers == []
    ensures ReadsTagged(P.ParseNsp(json, payload, f, pos))
  {
    forall v: Json
      ensures AllTagged(ReadBinaries(FromJson(v, [])))
    {
      ReadTagged(v);
    }
  }

  lemma ParseReadsTagged(json: P.JsonText, payload: string)
    ensures ReadsTagged(P.Parse(json, payload, EMPTY))
  {
    forall f: Fields, pos: nat | f.message == NoMessage && f.buffers == []
      ensures ReadsTagged(P.ParseNsp(json, payload, f, pos))
    {
      NspReadsTagged(json, payload, f, pos);
    }
  }

  lemma BufferReadsTagged(json: P.JsonText, p: Fields, payload: string)
    requires p.buffers != [] && AllTagged(p.buffers[1..]) && p.message == NoMessage && P.IsBinaryMessage(payload)
    ensures match P.ParseBuffer(json, p, payload)
            case Waiting(f) => f.buffers != [] && AllTagged(f.buffers[1..]) && f.message == NoMessage
            case Done(f) => AllTagged(Binaries(f.message))
            case _ => true
  {
    var buffers := p.buffers + [payload];
    assert buffers[1..] == p.buffers[1..] + [payload];
    var r := FromJson(json.read(buffers[0]), buffers[1..]);
    BinariesFromBuffers(json.read(buffers[0]), buffers[1..]);
    assert AllTagged(ReadBinaries(r));
    assert Binaries(NoMessage) == [];
  }

  // Only tagged binary leaves are ever delivered.
  lemma PutDeliversTagged(json: P.JsonText, s: State, payload: string)
    requires Consistent(s)
    ensures var t := Put(json, s, payload);
            && Consistent(t) && s.delivered <= t.delivered
            && forall f | f in t.delivered[|s.delivered|..] :: AllTagged(Binaries(f.message))
  {
    ParseReadsTagged(json, payload);
    if P.IsBinaryMessage(payload) && s.partial.Some? {
      BufferReadsTagged(json, s.partial.value, payload);
    }
  }

  lemma {:induction false} OnlyTaggedDelivered(json: P.JsonText, s: State, payloads: seq<string>)
    requires Consistent(s)
    ensures var t := PutAll(json, s, payloads);
            && s.delivered <= t.delivered
            && forall f | f in t.delivered[|s.delivered|..] :: AllTagged(Binaries(f.message))
    decreases |payloads|
  {
    if payloads != [] {
      var t := Put(json, s, payloads[0]);
      PutDeliversTagged(json, s, payloads[0]);
      OnlyTaggedDelivered(json, t, payloads[1..]);
      var end := PutAll(json, s, payloads).delivered;
      assert end[|s.delivered|..] == t.delivered[|s.delivered|..] + end[|t.delivered|..];
    }
  }

  lemma {:induction false} TaggedAttached(payloads: seq<string>, json: P.JsonText)
    requires AllTagged(payloads)
    ensures Attached(payloads) == payloads && Passed(json, payloads) == []
  {
    if payloads != [] {
      assert payloads[0] in payloads;
      TaggedAttached(payloads[1..], json);
    }
  }

  // A packet's own frames deliver it exactly when each of its attachments starts with the frame byte.
  lemma DeliveredIffTagged(json: P.JsonText, kind: nat, nsp: string, packId: int, message: Message, s: State)
    requires P.Faithful(json) && Sendable(kind, nsp, packId, message) && Consistent(s) && !s.stopped
    ensures var t := PutAll(json, s, [P.MessageText(json, kind, nsp, packId, message)] + Binaries(message));
            && s.delivered <= t.delivered
            && (Delivered(json, kind, nsp, packId, message) in t.delivered[|s.delivered|..]
                <==> AllTagged(Binaries(message)))
  {
    var frames := [P.MessageText(json, kind, nsp, packId, message)] + Binaries(message);
    OnlyTaggedDelivered(json, s, frames);
    RoundedBinaries(json.round, message);
    if AllTagged(Binaries(message)) {
      TaggedAttached(Binaries(message), json);
      PacketDelivered(json, kind, nsp, packId, message, s, Binaries(message));
    }
  }

  // A packet that is not delivered: its attachment is taken for a packet of its own, and the packet
  // goes on waiting.
  lemma UntaggedIsLost(json: P.JsonText)
    requires P.Faithful(json)
    ensures var frames := [P.MessageText(json, P.TYPE_EVENT, "", -1, Binary("x")), "x"];
            var t := PutAll(json, State(None, [], false), frames);
            t.partial.Some? && |t.delivered| == 1 && t.delivered[0].message == NoMessage
  {
    var text := P.MessageText(json, P.TYPE_EVENT, "", -1, Binary("x"));
    var s := State(None, [], false);
    TextIsText(json, P.TYPE_EVENT, "", -1, Binary("x"));
    ParseUndoesAccept(json, P.TYPE_EVENT, "", -1, Binary("x"), EMPTY);
    PutFirst(json, s, [text, "x"]);
    PutFirst(json, Put(json, s, text), ["x"]);
    assert [text, "x"][1..] == ["x"] && ["x"][1..] == [];
    FindNothing("x", P.JSON_MARKS + {'/'}, 1);
  }
}
