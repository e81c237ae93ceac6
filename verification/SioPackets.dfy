// Socket.IO packets: their text header and attachments, and the manager that puts received frames back together.
module SioPackets {
  import opened Sequences
  import opened Texts
  import opened SioMessages

  // The JSON library: writing a value as text, reading text as a value, and what a double comes back
  // as. The library reads numbers fast rather than exactly.
  datatype JsonText = JsonText(write: Json -> string, read: string -> Json, round: FiniteDouble -> FiniteDouble)

  // Text of an object, array or string starts with its own mark; other text has nothing that the
  // header parser looks for. Reading undoes writing, but for the rounding of doubles.
  ghost predicate Faithful(json: JsonText) {
    forall v: Json {:trigger json.write(v)} ::
      && json.read(json.write(v)) == RoundedJson(json.round, v)
      && (v.JObject? ==> Starts(json.write(v), '{'))
      && (v.JArray? ==> Starts(json.write(v), '['))
      && (v.JString? ==> Starts(json.write(v), '"'))
      && (!v.JObject? && !v.JArray? && !v.JString? ==> Unmarked(json.write(v)))
  }

  predicate Unmarked(text: string) { forall c | c in text :: c !in JSON_MARKS + {'/', ','} }

  predicate Starts(s: string, c: char) { s != [] && s[0] == c }

  const FRAME_MESSAGE: int := 4

  const TYPE_CONNECT: int := 0
  const TYPE_DISCONNECT: int := 1
  const TYPE_EVENT: int := 2
  const TYPE_ACK: int := 3
  const TYPE_BINARY_EVENT: int := 5
  const TYPE_BINARY_ACK: int := 6
  const TYPE_MAX: int := 6
  const TYPE_UNDETERMINED: int := 0x10

  const JSON_MARKS: set<char> := {'"', '[', '{'}

  // The fields of a packet.
  datatype Fields = Fields(frame: int, kind: int, nsp: string, packId: int, message: Message, pending: nat,
                           buffers: seq<string>)

  // Whether parsing is over, waits for attachments, threw, or stopped the program.
  datatype Outcome = Done(fields: Fields) | Waiting(fields: Fields) | Threw | Halted

  // The end of parsing, with the message that was read.
  function Finished(f: Fields, r: Reading): Outcome {
    if r.Stopped? then Halted else Done(f.(message := r.message))
  }

  // Character i, or the terminating zero.
  function At(s: string, i: nat): int {
    if i < |s| then s[i] as int else 0
  }

  predicate IsBinaryMessage(payload: string) { payload != [] && payload[0] as int == FRAME_MESSAGE }

  predicate IsTextMessage(payload: string) { payload != [] && payload[0] as int == FRAME_MESSAGE + '0' as int }

  // ----- writing

  // _type & ~type_undetermined.
  function Determined(kind: nat): nat {
    if kind / TYPE_UNDETERMINED % 2 == 1 then kind - TYPE_UNDETERMINED else kind
  }

  // The flag is cleared, and nothing else changes.
  lemma FlagCleared(kind: nat)
    ensures var d := Determined(kind); d / 16 % 2 == 0 && d % 16 == kind % 16 && d / 32 == kind / 32
  {}

  // The packet type on the wire.
  function WireType(kind: nat, hasBinary: bool): nat {
    var t := Determined(kind);
    if t == TYPE_EVENT && hasBinary then TYPE_BINARY_EVENT
    else if t == TYPE_ACK && hasBinary then TYPE_BINARY_ACK
    else t
  }

  // The namespace part of the header.
  function NspText(nsp: string, followed: bool): string {
    if nsp == "" || nsp == "/" then "" else nsp + if followed then "," else ""
  }

  function Head(kind: nat, count: nat, nsp: string, packId: int, hasMessage: bool): string {
    Decimal(WireType(kind, count > 0))
    + (if count > 0 then Decimal(count) + "-" else "")
    + NspText(nsp, hasMessage || packId >= 0)
    + (if packId >= 0 then Decimal(packId) else "")
  }

  // The text frame of a message packet.
  function MessageText(json: JsonText, kind: nat, nsp: string, packId: int, message: Message): string {
    "4" + Head(kind, |Binaries(message)|, nsp, packId, message != NoMessage)
    + if message == NoMessage then "" else json.write(ToJson(message, 0))
  }

  // ----- reading

  function Parse(json: JsonText, payload: string, before: Fields): Outcome {
    var frame := At(payload, 0) - '0' as int;
    var f := before.(frame := frame, packId := -1, message := NoMessage, pending := 0, buffers := []);
    if frame != FRAME_MESSAGE then ParseNsp(json, payload, f, 1)
    else
      var f := f.(kind := At(payload, 1) - '0' as int);
      if !(0 <= f.kind <= TYPE_MAX) then Done(f)
      else if f.kind != TYPE_BINARY_EVENT && f.kind != TYPE_BINARY_ACK then ParseNsp(json, payload, f, 2)
      else ParseCount(json, payload, f)
  }

  function ParseCount(json: JsonText, payload: string, f: Fields): Outcome {
    var dash := FindFirstOf(payload, {'-'}, 0);
    var digits :=
      if |payload| < 2 then ""
      else if dash.Some? && dash.value >= 2 then payload[2..dash.value]
      else payload[2..];
    match Stoul(digits)
    case None => Threw
    case Some(n) =>
      ParseNsp(json, payload, f.(pending := n % 0x1_0000_0000), if dash.Some? then dash.value + 1 else 0)
  }

  function ParseNsp(json: JsonText, payload: string, f: Fields, pos: nat): Outcome {
    match FindFirstOf(payload, JSON_MARKS + {'/'}, pos)
    case None => Done(f.(nsp := "/"))
    case Some(start) =>
      if payload[start] != '/' then ParseTail(json, payload, f.(nsp := "/"), pos, start)
      else
        match FindFirstOf(payload, {','}, 0)
        case None => Done(f.(nsp := payload[start..]))
        case Some(comma) =>
          var f := f.(nsp := if comma < start then payload[start..] else payload[start..comma]);
          match FindFirstOf(payload, JSON_MARKS, comma + 1)
          case None => Done(f)
          case Some(at) => ParseTail(json, payload, f, comma + 1, at)
  }

  function ParseTail(json: JsonText, payload: string, f: Fields, pos: nat, at: nat): Outcome
    requires at < |payload|
  {
    var id := if pos < at then Stoi(payload[pos..at]) else Some(-1);
    if id == None then Threw
    else
      var f := f.(packId := id.value);
      if f.frame == FRAME_MESSAGE && (f.kind == TYPE_BINARY_EVENT || f.kind == TYPE_BINARY_ACK) then
        Waiting(f.(buffers := [payload[at..]]))
      else Finished(f, FromJson(json.read(payload[at..]), []))
  }

  // One attachment for a packet that waits for some.
  function ParseBuffer(json: JsonText, f: Fields, payload: string): Outcome {
    if f.pending == 0 then Done(f)
    else
      var f := f.(buffers := f.buffers + [payload], pending := f.pending - 1);
      if f.pending > 0 then Waiting(f)
      else Finished(f.(buffers := []), FromJson(json.read(f.buffers[0]), f.buffers[1..]))
  }
}
