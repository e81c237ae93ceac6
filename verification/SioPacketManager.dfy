// Packets as objects, and the manager that encodes them to frames and puts received frames back together.
module SioPacketManager {
  import opened Sequences
  import opened Texts
  import opened SioMessages
  import P = SioPackets
  import opened SioHeaders

  type Fields = P.Fields

  const EMPTY: Fields := P.Fields(0, P.TYPE_UNDETERMINED, "", -1, NoMessage, 0, [])

  // How a call on a packet ends.
  datatype Result = Complete | Incomplete | Exception | Assertion

  class Packet {
    var frame: int
    var kind: int
    var nsp: string
    var packId: int
    var message: Message
    var pendingBuffers: nat
    var buffers: seq<string>

    function Value(): Fields
      reads this
    {
      P.Fields(frame, kind, nsp, packId, message, pendingBuffers, buffers)
    }

    constructor Event(nsp: string, message: Message, packId: int, isAck: bool)
      requires isAck ==> packId >= 0
      ensures Value() == P.Fields(P.FRAME_MESSAGE, (if isAck then P.TYPE_ACK else P.TYPE_EVENT) + P.TYPE_UNDETERMINED,
                                  nsp, packId, message, 0, [])
    {
      frame, kind := P.FRAME_MESSAGE, (if isAck then P.TYPE_ACK else P.TYPE_EVENT) + P.TYPE_UNDETERMINED;
      this.nsp, this.packId, this.message, pendingBuffers, buffers := nsp, packId, message, 0, [];
    }

    constructor Typed(kind: int, nsp: string, message: Message)
      ensures Value() == P.Fields(P.FRAME_MESSAGE, kind, nsp, -1, message, 0, [])
    {
      frame, this.kind, this.nsp, packId, this.message := P.FRAME_MESSAGE, kind, nsp, -1, message;
      pendingBuffers, buffers := 0, [];
    }

    constructor ()
      ensures Value() == EMPTY
    {
      frame, kind, nsp, packId, message, pendingBuffers, buffers := 0, P.TYPE_UNDETERMINED, "", -1, NoMessage, 0, [];
    }

    // The header after the frame digit, as it goes through the string stream.
    method WriteHead(count: nat, hasMessage: bool) returns (ss: string)
      requires kind >= 0
      ensures ss == Decimal(kind) + (if count > 0 then Decimal(count) + "-" else "")
                    + P.NspText(nsp, hasMessage || packId >= 0) + (if packId >= 0 then Decimal(packId) else "")
    {
      ss := Decimal(kind);
      if count > 0 {
        ss := ss + (Decimal(count) + "-");
      }
      if |nsp| > 0 && nsp != "/" {
        ss := ss + (nsp + if hasMessage || packId >= 0 then "," else "");
      }
      if packId >= 0 {
        ss := ss + Decimal(packId);
      }
    }

    // Appends the packet's text and collects its attachments.
    method Accept(json: P.JsonText) returns (payload: string, attachments: seq<string>, hasBinary: bool)
      requires 0 <= frame <= 6 && kind >= 0 && (message != NoMessage ==> Proper(message))
      modifies this
      ensures old(frame) != P.FRAME_MESSAGE ==>
                payload == [DigitChar(old(frame))] && attachments == [] && unchanged(this)
      ensures old(frame) == P.FRAME_MESSAGE ==>
                && payload == P.MessageText(json, old(kind), old(nsp), old(packId), old(message))
                && attachments == Binaries(old(message))
                && Value() == old(Value()).(kind := P.WireType(old(kind), attachments != []))
      ensures hasBinary <==> attachments != []
    {
      payload, attachments := [DigitChar(frame)], [];
      if frame != P.FRAME_MESSAGE {
        return payload, attachments, false;
      }
      var hasMessage := message != NoMessage;
      var doc := JNull;
      if hasMessage {
        var out := new Attachments();
        doc := out.AcceptMessage(message);
        attachments := out.buffers;
      }
      hasBinary := |attachments| > 0;
      kind := P.WireType(kind, hasBinary);
      var ss := WriteHead(|attachments|, hasMessage);
      payload := payload + ss;
      if hasMessage {
        payload := payload + json.write(doc);
      }
    }

    // Reads the text of a packet. Attachments must follow, or parsing is done, threw an exception, or
    // stopped the program.
    method Parse(json: P.JsonText, payload: string) returns (result: Result)
      modifies this
      ensures Agrees(P.Parse(json, payload, old(Value())), result)
    {
      frame := P.At(payload, 0) - '0' as int;
      message, packId, buffers, pendingBuffers := NoMessage, -1, [], 0;
      var pos := 1;
      if frame == P.FRAME_MESSAGE {
        kind := P.At(payload, pos) - '0' as int;
        if kind < 0 || kind > P.TYPE_MAX {
          return Complete;
        }
        pos := 2;
        if kind == P.TYPE_BINARY_EVENT || kind == P.TYPE_BINARY_ACK {
          result := ParseCount(json, payload);
          return;
        }
      }
      result := ParseRest(json, payload, pos);
    }

    // The number of attachments, and what comes behind it.
    method ParseCount(json: P.JsonText, payload: string) returns (result: Result)
      requires packId == -1 && message == NoMessage && buffers == [] && |payload| >= 2
      modifies this
      ensures Agrees(P.ParseCount(json, payload, old(Value())), result)
    {
      var pos := 2;
      var dash := FindFirstOf(payload, {'-'}, 0);
      var count := Stoul(if dash.Some? && dash.value >= pos then payload[pos..dash.value] else payload[pos..]);
      if count == None {
        return Exception;
      }
      pendingBuffers := count.value % 0x1_0000_0000;
      pos := if dash.Some? then dash.value + 1 else 0;
      result := ParseRest(json, payload, pos);
    }

    // What an outcome of the specification means for the packet.
    ghost predicate Agrees(o: P.Outcome, result: Result)
      reads this
    {
      match o
      case Threw => result == Exception
      case Halted => result == Assertion
      case Waiting(f) => result == Incomplete && Value() == f
      case Done(f) => result == Complete && Value() == f
    }

    method ParseRest(json: P.JsonText, payload: string, start: nat) returns (result: Result)
      requires packId == -1 && message == NoMessage && buffers == []
      modifies this
      ensures Agrees(P.ParseNsp(json, payload, old(Value()), start), result)
    {
      var pos := start;
      var nspOrJson := FindFirstOf(payload, P.JSON_MARKS + {'/'}, pos);
      if nspOrJson == None {
        nsp := "/";
        return Complete;
      }
      var jsonPos := nspOrJson.value;
      if payload[jsonPos] == '/' {
        var comma := FindFirstOf(payload, {','}, 0);
        if comma == None {
          nsp := payload[jsonPos..];
          return Complete;
        }
        nsp := if comma.value < jsonPos then payload[jsonPos..] else payload[jsonPos..comma.value];
        pos := comma.value + 1;
        var found := FindFirstOf(payload, P.JSON_MARKS, pos);
        if found == None {
          return Complete;
        }
        jsonPos := found.value;
      } else {
        nsp := "/";
      }
      result := ParseTail(json, payload, pos, jsonPos);
    }

    // The id, if there is one, and the JSON text.
    method ParseTail(json: P.JsonText, payload: string, pos: nat, jsonPos: nat) returns (result: Result)
      requires packId == -1 && message == NoMessage && buffers == [] && jsonPos < |payload|
      modifies this
      ensures Agrees(P.ParseTail(json, payload, old(Value()), pos, jsonPos), result)
    {
      if pos < jsonPos {
        var id := Stoi(payload[pos..jsonPos]);
        if id == None {
          return Exception;
        }
        packId := id.value;
      }
      if frame == P.FRAME_MESSAGE && (kind == P.TYPE_BINARY_EVENT || kind == P.TYPE_BINARY_ACK) {
        buffers := [payload[jsonPos..]];
        return Incomplete;
      }
      match FromJson(json.read(payload[jsonPos..]), []) {
        case Stopped => return Assertion;
        case Read(read) =>
          message := read;
          return Complete;
      }
    }

    method ParseBuffer(json: P.JsonText, payload: string) returns (result: Result)
      modifies this
      ensures Agrees(P.ParseBuffer(json, old(Value()), payload), result)
    {
      if pendingBuffers > 0 {
        buffers := buffers + [payload];
        pendingBuffers := pendingBuffers - 1;
        if pendingBuffers == 0 {
          var doc := json.read(buffers[0]);
          buffers := buffers[1..];
          match FromJson(doc, buffers) {
            case Stopped => return Assertion;
            case Read(read) => message := read;
          }
          buffers := [];
          return Complete;
        }
        return Incomplete;
      }
      return Complete;
    }
  }

  // ----- frames in a row

  // What the manager holds, the packets it has handed to the decode callback, and whether a failed
  // assertion has stopped the program.
  datatype State = State(partial: Option<Fields>, delivered: seq<Fields>, stopped: bool)

  function Deliver(s: State, f: Fields): State { s.(delivered := s.delivered + [f]) }

  function Put(json: P.JsonText, s: State, payload: string): State {
    if s.stopped then s
    else if P.IsTextMessage(payload) then
      match P.Parse(json, payload, EMPTY)
      case Threw => s
      case Halted => s.(stopped := true)
      case Waiting(f) => s.(partial := Some(f))
      case Done(f) => Deliver(s, f)
    else if P.IsBinaryMessage(payload) then
      if s.partial == None then s
      else
        match P.ParseBuffer(json, s.partial.value, payload)
        case Threw => s
        case Halted => s.(partial := None, stopped := true)
        case Waiting(f) => s.(partial := Some(f))
        case Done(f) => Deliver(s.(partial := None), f)
    else
      match P.Parse(json, payload, EMPTY)
      case Threw => s
      case Halted => s.(stopped := true)
      case Waiting(f) => Deliver(s, f)
      case Done(f) => Deliver(s, f)
  }

  function PutAll(json: P.JsonText, s: State, payloads: seq<string>): State
    decreases payloads
  {
    if payloads == [] then s else PutAll(json, Put(json, s, payloads[0]), payloads[1..])
  }

  class PacketManager {
    const json: P.JsonText
    var partialPacket: Packet?
    var delivered: seq<Fields>
    var stopped: bool

    constructor (json: P.JsonText)
      ensures this.json == json && Value() == State(None, [], false)
    {
      this.json, partialPacket, delivered, stopped := json, null, [], false;
    }

    function Value(): State
      reads this, partialPacket
    {
      State(if partialPacket == null then None else Some(partialPacket.Value()), delivered, stopped)
    }

    method Reset()
      modifies this
      ensures Value() == old(Value()).(partial := None)
    {
      partialPacket := null;
    }

    // The frames handed to the encode callback: the text, then the attachments.
    method Encode(pack: Packet) returns (frames: seq<string>)
      requires 0 <= pack.frame <= 6 && pack.kind >= 0 && (pack.message != NoMessage ==> Proper(pack.message))
      modifies pack
      ensures frames == if old(pack.frame) != P.FRAME_MESSAGE then [[DigitChar(old(pack.frame))]]
                        else [P.MessageText(json, old(pack.kind), old(pack.nsp), old(pack.packId), old(pack.message))]
                             + Binaries(old(pack.message))
    {
      var payload, attachments, hasBinary := pack.Accept(json);
      frames := [payload];
      assert attachments == [] ==> frames == [payload] + attachments;
      if hasBinary {
        for i := 0 to |attachments|
          invariant frames == [payload] + attachments[..i]
        {
          frames := frames + [attachments[i]];
        }
        assert attachments[..|attachments|] == attachments;
      }
    }

    // One received frame. When it completes a packet, the packet goes to the decode callback.
    method PutPayload(payload: string) returns (threw: bool)
      modifies this, partialPacket
      ensures Value() == Put(json, old(Value()), payload)
      ensures threw <==> !old(stopped) && !P.IsBinaryMessage(payload) && P.Parse(json, payload, EMPTY).Threw?
    {
      threw := false;
      if stopped { return; }
      if P.IsBinaryMessage(payload) {
        if partialPacket != null {
          PutAttachment(payload);
        }
      } else {
        threw := PutText(payload, P.IsTextMessage(payload));
      }
    }

    // The text of a packet; only a message can wait for attachments.
    method PutText(payload: string, isMessage: bool) returns (threw: bool)
      requires !stopped
      modifies this
      ensures threw == P.Parse(json, payload, EMPTY).Threw?
      ensures Value() == match P.Parse(json, payload, EMPTY)
                         case Threw => old(Value())
                         case Halted => old(Value()).(stopped := true)
                         case Waiting(f) =>
                           if isMessage then old(Value()).(partial := Some(f)) else Deliver(old(Value()), f)
                         case Done(f) => Deliver(old(Value()), f)
    {
      var p := new Packet();
      var result := p.Parse(json, payload);
      threw := result == Exception;
      match result {
        case Exception =>
        case Assertion => stopped := true;
        case Incomplete =>
          if isMessage { partialPacket := p; } else { delivered := delivered + [p.Value()]; }
        case Complete => delivered := delivered + [p.Value()];
      }
    }

    method PutAttachment(payload: string)
      requires !stopped && partialPacket != null && P.IsBinaryMessage(payload)
      modifies this, partialPacket
      ensures Value() == Put(json, old(Value()), payload)
    {
      var p := partialPacket;
      var result := p.ParseBuffer(json, payload);
      match result {
        case Exception => assert false;
        case Assertion => partialPacket, stopped := null, true;
        case Incomplete =>
        case Complete =>
          partialPacket := null;
          delivered := delivered + [p.Value()];
      }
    }
  }
}
