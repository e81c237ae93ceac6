// Reading a packet's text undoes writing it.
module SioHeaders {
  import opened Sequences
  import opened Texts
  import opened SioMessages
  import opened SioPackets

  // What the receiver should see of a packet once its text has been read: the attachments are still
  // to come, and doubles are rounded.
  function Received(json: JsonText, kind: nat, nsp: string, packId: int, message: Message): Outcome {
    var count := |Binaries(message)|;
    var f := Fields(FRAME_MESSAGE, WireType(kind, count > 0), if nsp == "" then "/" else nsp, packId,
                    NoMessage, count, []);
    if count > 0 then Waiting(f.(buffers := [json.write(ToJson(message, 0))]))
    else Done(f.(message := Rounded(json.round, message)))
  }

  // Messages whose JSON text starts with a mark that no number starts with.
  predicate Marked(m: Message) {
    m.Array? || m.Object? || m.Str? || m.Binary?
  }

  // Packets that can be written: the types that callers give, an id that is an int, no null children.
  predicate Writable(kind: nat, packId: int, message: Message) {
    && Determined(kind) <= 4
    && INT_MIN <= packId <= INT_MAX
    && (message != NoMessage ==> Proper(message))
  }

  predicate NspReadable(nsp: string) { nsp == "" || (nsp[0] == '/' && ',' !in nsp) }

  // Packets whose text can be read back: see the conditions of each part of the header.
  predicate Readable(kind: nat, nsp: string, packId: int, message: Message) {
    && NspReadable(nsp)
    && -1 <= packId
    && (message == NoMessage ==> packId == -1)
    && (message != NoMessage ==> Marked(message))
    && |Binaries(message)| < 0x1_0000_0000
    && (Binaries(message) != [] ==> Determined(kind) in {TYPE_EVENT, TYPE_ACK})
    && (Binaries(message) == [] ==> !Collides(message))
  }

  // Packets that can be sent: their attachments, too, come back.
  predicate Sendable(kind: nat, nsp: string, packId: int, message: Message) {
    && Writable(kind, packId, message) && Readable(kind, nsp, packId, message)
    && !Collides(message) && |Binaries(message)| < 0x8000_0000
  }

  function IdText(packId: int): (s: string)
    ensures AllDigits(s)
  {
    if packId >= 0 then Decimal(packId) else ""
  }

  lemma NumberRead(n: nat)
    ensures FrontNumber(Decimal(n)) == Some(n)
  {
    FrontNumberDecimal(n, "");
    assert Decimal(n) + "" == Decimal(n);
  }

  // The end of a message: its id, if it has one, and its JSON text.
  lemma ReadTail(json: JsonText, payload: string, at: nat, packId: int, text: string, f: Fields)
    requires -1 <= packId <= INT_MAX && text != ""
    requires var id := IdText(packId);
             Has(payload, at, id) && Has(payload, at + |id|, text) && |payload| == at + |id| + |text|
    ensures ParseTail(json, payload, f, at, at + |IdText(packId)|) ==
            if f.frame == FRAME_MESSAGE && (f.kind == TYPE_BINARY_EVENT || f.kind == TYPE_BINARY_ACK) then
              Waiting(f.(packId := packId, buffers := [text]))
            else Finished(f.(packId := packId), FromJson(json.read(text), []))
  {
    var end := at + |IdText(packId)|;
    assert payload[end..] == payload[end..|payload|] == text;
    if packId >= 0 {
      NumberRead(packId);
    }
  }

  // What the rest of a message is read as, from its namespace on.
  function RestRead(json: JsonText, f: Fields, nsp: string, packId: int, text: string): Outcome {
    var g := f.(packId := packId, nsp := nsp);
    if f.frame == FRAME_MESSAGE && (f.kind == TYPE_BINARY_EVENT || f.kind == TYPE_BINARY_ACK) then
      Waiting(g.(buffers := [text]))
    else Finished(g, FromJson(json.read(text), []))
  }

  predicate TailAt(payload: string, at: nat, id: string, text: string) {
    && Has(payload, at, id) && Has(payload, at + |id|, text) && |payload| == at + |id| + |text|
    && text != "" && text[0] in JSON_MARKS
  }

  lemma TailFound(payload: string, at: nat, id: string, text: string)
    requires TailAt(payload, at, id, text) && AllDigits(id)
    ensures FindFirstOf(payload, JSON_MARKS, at) == Some(at + |id|)
    ensures FindFirstOf(payload, JSON_MARKS + {'/'}, at) == Some(at + |id|) && payload[at + |id|] in JSON_MARKS
  {
    HasNone(payload, at, id, JSON_MARKS + {'/'});
    HasChars(payload, at + |id|, text);
    assert payload[at + |id| + 0] == text[0];
    FindIs(payload, JSON_MARKS, at, at + |id|);
    FindIs(payload, JSON_MARKS + {'/'}, at, at + |id|);
  }

  lemma RestIsRead(json: JsonText, payload: string, at: nat, packId: int, text: string, f: Fields, nsp: string)
    requires -1 <= packId <= INT_MAX && TailAt(payload, at, IdText(packId), text)
    ensures ParseTail(json, payload, f.(nsp := nsp), at, at + |IdText(packId)|) == RestRead(json, f, nsp, packId, text)
  {
    ReadTail(json, payload, at, packId, text, f.(nsp := nsp));
  }

  lemma ReadWithoutNsp(json: JsonText, payload: string, at: nat, packId: int, text: string, f: Fields)
    requires -1 <= packId <= INT_MAX && TailAt(payload, at, IdText(packId), text)
    ensures ParseNsp(json, payload, f, at) == RestRead(json, f, "/", packId, text)
  {
    TailFound(payload, at, IdText(packId), text);
    RestIsRead(json, payload, at, packId, text, f, "/");
  }

  lemma ReadWithNsp(json: JsonText, payload: string, front: string, nsp: string, packId: int, text: string, f: Fields)
    requires -1 <= packId <= INT_MAX
    requires Has(payload, 0, front) && Has(payload, |front|, nsp + ",")
    requires ',' !in front && ',' !in nsp && nsp != "" && nsp[0] == '/'
    requires TailAt(payload, |front| + |nsp| + 1, IdText(packId), text)
    ensures ParseNsp(json, payload, f, |front|) == RestRead(json, f, nsp, packId, text)
  {
    NspFound(payload, front, nsp, nsp + ",");
    NspBefore(json, payload, f, |front|, nsp, packId, text);
  }

  lemma NspBefore(json: JsonText, payload: string, f: Fields, start: nat, nsp: string, packId: int, text: string)
    requires Has(payload, start, nsp) && nsp != "" && nsp[0] == '/' && -1 <= packId <= INT_MAX
    requires FindFirstOf(payload, JSON_MARKS + {'/'}, start) == Some(start)
    requires FindFirstOf(payload, {','}, 0) == Some(start + |nsp|)
    requires TailAt(payload, start + |nsp| + 1, IdText(packId), text)
    ensures ParseNsp(json, payload, f, start) == RestRead(json, f, nsp, packId, text)
  {
    var at := start + |nsp| + 1;
    TailFound(payload, at, IdText(packId), text);
    NspTaken(json, payload, f, start, at - 1, at + |IdText(packId)|, nsp);
    RestIsRead(json, payload, at, packId, text, f, nsp);
  }

  lemma NspTaken(json: JsonText, payload: string, f: Fields, start: nat, comma: nat, at: nat, nsp: string)
    requires Has(payload, start, nsp) && comma == start + |nsp| && nsp != "" && nsp[0] == '/'
    requires FindFirstOf(payload, JSON_MARKS + {'/'}, start) == Some(start)
    requires FindFirstOf(payload, {','}, 0) == Some(comma) && FindFirstOf(payload, JSON_MARKS, comma + 1) == Some(at)
    ensures ParseNsp(json, payload, f, start) == ParseTail(json, payload, f.(nsp := nsp), comma + 1, at)
  {
    assert payload[start..comma] == nsp;
    assert payload[start] == payload[start..comma][0];
  }

  lemma ReadRest(json: JsonText, payload: string, front: string, nsp: string, packId: int, text: string, f: Fields)
    requires ',' !in front && ',' !in nsp && (nsp == "" || nsp[0] == '/') && -1 <= packId <= INT_MAX
    requires text != "" && text[0] in JSON_MARKS
    requires payload == front + (NspText(nsp, true) + (IdText(packId) + text))
    ensures ParseNsp(json, payload, f, |front|) == RestRead(json, f, if nsp == "" then "/" else nsp, packId, text)
  {
    HasParts(front, NspText(nsp, true), IdText(packId), text);
    if nsp == "" || nsp == "/" {
      ReadWithoutNsp(json, payload, |front|, packId, text, f);
    } else {
      ReadWithNsp(json, payload, front, nsp, packId, text, f);
    }
  }

  // A namespace and the comma after it.
  lemma NspFound(payload: string, front: string, nsp: string, nspText: string)
    requires Has(payload, 0, front) && Has(payload, |front|, nspText) && nspText == nsp + ","
    requires ',' !in front && ',' !in nsp && nsp != "" && nsp[0] == '/'
    ensures FindFirstOf(payload, JSON_MARKS + {'/'}, |front|) == Some(|front|) && payload[|front|] == '/'
    ensures FindFirstOf(payload, {','}, 0) == Some(|front| + |nsp|) && Has(payload, |front|, nsp)
  {
    HasChars(payload, |front|, nspText);
    assert payload[|front| + 0] == nspText[0] && payload[|front| + |nsp|] == nspText[|nsp|] == ',';
    FindIs(payload, JSON_MARKS + {'/'}, |front|, |front|);
    HasNone(payload, 0, front, {','});
    forall i | |front| <= i < |front| + |nsp|
      ensures payload[i] != ','
    {
      assert payload[|front| + (i - |front|)] == nspText[i - |front|] == nsp[i - |front|];
    }
    FindIs(payload, {','}, 0, |front| + |nsp|);
    assert payload[|front|..|front| + |nsp|] == nspText[..|nsp|];
  }

  lemma ReadNspOnly(json: JsonText, payload: string, front: string, nsp: string, f: Fields)
    requires payload == front + nsp && ',' !in front && ',' !in nsp && (nsp == "" || nsp[0] == '/')
    ensures ParseNsp(json, payload, f, |front|) == Done(f.(nsp := if nsp == "" then "/" else nsp))
  {
    if nsp == "" {
      FindNothing(payload, JSON_MARKS + {'/'}, |front|);
    } else {
      FindIs(payload, JSON_MARKS + {'/'}, |front|, |front|);
      FindNothing(payload, {','}, 0);
      assert payload[|front|..] == nsp;
    }
  }

  // The frame digit, the type digit and the attachment count.
  function Front(kind: nat, count: nat): string {
    "4" + Decimal(WireType(kind, count > 0)) + if count > 0 then Decimal(count) + "-" else ""
  }

  lemma FrontParts(kind: nat, count: nat)
    requires Determined(kind) <= 4 && (count > 0 ==> Determined(kind) in {TYPE_EVENT, TYPE_ACK})
    ensures var front, t := Front(kind, count), WireType(kind, count > 0);
            && |front| >= 2 && front[0] == '4' && t <= TYPE_MAX && front[1] == DigitChar(t) && ',' !in front
            && (if count == 0 then |front| == 2
                else |front| == 3 + |Decimal(count)| && Has(front, 2, Decimal(count)) && front[|front| - 1] == '-')
  {
    var t := WireType(kind, count > 0);
    assert Decimal(t) == [DigitChar(t)];
    if count > 0 {
      CountParts("4" + [DigitChar(t)], Decimal(count));
    }
  }

  lemma CountParts(a: string, digits: string)
    ensures var front := a + (digits + "-");
            && |front| == |a| + |digits| + 1 && Has(front, |a|, digits) && front[|front| - 1] == '-'
  {
    HasRight(digits, "-", 0, digits);
    HasShift(a, digits + "-", 0, digits);
  }

  lemma ReadType(json: JsonText, payload: string, t: nat, before: Fields)
    requires |payload| >= 2 && t <= TYPE_MAX && payload[0] == '4' && payload[1] == DigitChar(t)
    ensures var f := Fields(FRAME_MESSAGE, t, before.nsp, -1, NoMessage, 0, []);
            Parse(json, payload, before) ==
            if t == TYPE_BINARY_EVENT || t == TYPE_BINARY_ACK then ParseCount(json, payload, f)
            else ParseNsp(json, payload, f, 2)
  {}

  lemma ReadFront(json: JsonText, payload: string, kind: nat, count: nat, before: Fields)
    requires Determined(kind) <= 4 && (count > 0 ==> Determined(kind) in {TYPE_EVENT, TYPE_ACK})
    requires Has(payload, 0, Front(kind, count))
    ensures Parse(json, payload, before) ==
            if count > ULONG_MAX then Threw
            else ParseNsp(json, payload, FrontRead(kind, count, before), |Front(kind, count)|)
  {
    var front, t := Front(kind, count), WireType(kind, count > 0);
    FrontParts(kind, count);
    HasChars(payload, 0, front);
    assert payload[0 + 0] == front[0] && payload[0 + 1] == front[1];
    ReadType(json, payload, t, before);
    if count > 0 {
      ReadCount(json, payload, front, count, Fields(FRAME_MESSAGE, t, before.nsp, -1, NoMessage, 0, []));
    }
  }

  // The fields once the front is read. The count keeps 32 bits.
  function FrontRead(kind: nat, count: nat, before: Fields): Fields {
    Fields(FRAME_MESSAGE, WireType(kind, count > 0), before.nsp, -1, NoMessage, count % 0x1_0000_0000, [])
  }

  lemma ReadCount(json: JsonText, payload: string, front: string, count: nat, f: Fields)
    requires |front| == 3 + |Decimal(count)| && Has(front, 2, Decimal(count))
    requires Has(payload, 0, front) && front[0] == '4' && IsDigit(front[1]) && front[|front| - 1] == '-'
    ensures ParseCount(json, payload, f) ==
            if count > ULONG_MAX then Threw
            else ParseNsp(json, payload, f.(pending := count % 0x1_0000_0000), |front|)
  {
    CountFound(payload, front, count);
  }

  lemma CountFound(payload: string, front: string, count: nat)
    requires |front| == 3 + |Decimal(count)| && Has(front, 2, Decimal(count))
    requires Has(payload, 0, front) && front[0] == '4' && IsDigit(front[1]) && front[|front| - 1] == '-'
    ensures FindFirstOf(payload, {'-'}, 0) == Some(|front| - 1)
    ensures payload[2..|front| - 1] == Decimal(count)
    ensures Stoul(Decimal(count)) == if count > ULONG_MAX then None else Some(count)
  {
    HasChars(payload, 0, front);
    HasNone(front, 2, Decimal(count), {'-'});
    assert forall i | 0 <= i < |front| :: payload[0 + i] == front[i];
    FindIs(payload, {'-'}, 0, |front| - 1);
    assert payload[2..|front| - 1] == front[2..|front| - 1];
    NumberRead(count);
  }

  lemma JsonStarts(json: JsonText, m: Message)
    requires Faithful(json) && Marked(m)
    ensures var text := json.write(ToJson(m, 0)); text != "" && text[0] in JSON_MARKS
  {
    var v := ToJson(m, 0);
    assert v.JObject? || v.JArray? || v.JString?;
  }

  lemma ReadsBack(json: JsonText, m: Message)
    requires Faithful(json) && Proper(m) && Binaries(m) == []
    ensures FromJson(json.read(json.write(ToJson(m, 0))), []) == Read(Rounded(json.round, m)) <==> !Collides(m)
  {
    RoundedRoundTrip(json.round, m, []);
  }

  lemma Regroup(f: string, t: string, c: string, n: string, id: string, text: string)
    ensures f + (t + c + n + id) + text == (f + t + c) + (n + (id + text))
  {}

  // The JSON text of a packet, and whether something follows the namespace.
  function JsonPart(json: JsonText, message: Message): string {
    if message == NoMessage then "" else json.write(ToJson(message, 0))
  }

  predicate Followed(packId: int, message: Message) { message != NoMessage || packId >= 0 }

  // The message text has the front, the namespace, the id and the JSON in a row.
  lemma TextParts(json: JsonText, kind: nat, nsp: string, packId: int, message: Message)
    ensures var front, nspText := Front(kind, |Binaries(message)|), NspText(nsp, Followed(packId, message));
            var payload := MessageText(json, kind, nsp, packId, message);
            payload == front + (nspText + (IdText(packId) + JsonPart(json, message))) && Has(payload, 0, front)
  {
    var count := |Binaries(message)|;
    var t, c := Decimal(WireType(kind, count > 0)), if count > 0 then Decimal(count) + "-" else "";
    var n, id := NspText(nsp, Followed(packId, message)), IdText(packId);
    Regroup("4", t, c, n, id, JsonPart(json, message));
    HasParts(Front(kind, count), n, id, JsonPart(json, message));
  }

  lemma NoTail(front: string, nspText: string, id: string)
    requires id == ""
    ensures front + (nspText + (id + "")) == front + nspText
  {
    assert nspText + (id + "") == nspText;
  }

  // ----- when the text reads back

  // Reading a packet that has a message with a mark, up to its JSON text.
  lemma ReadMarked(json: JsonText, kind: nat, nsp: string, packId: int, message: Message, before: Fields)
    requires Faithful(json) && Writable(kind, packId, message) && NspReadable(nsp) && Marked(message)
    requires var count := |Binaries(message)|;
             count < 0x1_0000_0000 && (count > 0 ==> Determined(kind) in {TYPE_EVENT, TYPE_ACK})
    ensures Parse(json, MessageText(json, kind, nsp, packId, message), before) ==
            RestRead(json, FrontRead(kind, |Binaries(message)|, before), if nsp == "" then "/" else nsp,
                     if packId < 0 then -1 else packId, json.write(ToJson(message, 0)))
  {
    var count := |Binaries(message)|;
    var front, payload := Front(kind, count), MessageText(json, kind, nsp, packId, message);
    TextParts(json, kind, nsp, packId, message);
    ReadFront(json, payload, kind, count, before);
    FrontParts(kind, count);
    JsonStarts(json, message);
    ReadRest(json, payload, front, nsp, if packId < 0 then -1 else packId, json.write(ToJson(message, 0)),
             FrontRead(kind, count, before));
  }

  // Without a mark, everything after the namespace is passed over.
  lemma ReadUnmarked(json: JsonText, payload: string, front: string, nsp: string, tail: string, f: Fields)
    requires ',' !in front && NspReadable(nsp) && Unmarked(tail)
    requires payload == front + (NspText(nsp, true) + tail)
    ensures ParseNsp(json, payload, f, |front|) == Done(f.(nsp := if nsp == "" then "/" else nsp))
  {
    HasParts(front, NspText(nsp, true), tail, "");
    assert tail + "" == tail;
    var at := |front| + |NspText(nsp, true)|;
    HasNone(payload, at, tail, JSON_MARKS + {'/', ','});
    if nsp == "" || nsp == "/" {
      FindNothing(payload, JSON_MARKS + {'/'}, |front|);
    } else {
      NspFound(payload, front, nsp, nsp + ",");
      FindNothing(payload, JSON_MARKS, at);
    }
  }

  lemma ReadWithoutMark(json: JsonText, kind: nat, nsp: string, packId: int, message: Message, before: Fields)
    requires Faithful(json) && Writable(kind, packId, message) && NspReadable(nsp)
    requires !Marked(message) && Followed(packId, message)
    ensures Parse(json, MessageText(json, kind, nsp, packId, message), before) ==
            Done(FrontRead(kind, 0, before).(nsp := if nsp == "" then "/" else nsp))
  {
    var front, payload := Front(kind, 0), MessageText(json, kind, nsp, packId, message);
    var tail := IdText(packId) + JsonPart(json, message);
    TextParts(json, kind, nsp, packId, message);
    ReadFront(json, payload, kind, 0, before);
    FrontParts(kind, 0);
    assert Unmarked(JsonPart(json, message)) by {
      if message != NoMessage {
        var v := ToJson(message, 0);
        assert !v.JObject? && !v.JArray? && !v.JString?;
      }
    }
    assert Unmarked(tail);
    ReadUnmarked(json, payload, front, nsp, tail, FrontRead(kind, 0, before));
  }

  lemma ReadAlone(json: JsonText, kind: nat, nsp: string, packId: int, before: Fields)
    requires Writable(kind, packId, NoMessage) && NspReadable(nsp) && packId < 0
    ensures Parse(json, MessageText(json, kind, nsp, packId, NoMessage), before) ==
            Done(FrontRead(kind, 0, before).(nsp := if nsp == "" then "/" else nsp))
  {
    var front, payload := Front(kind, 0), MessageText(json, kind, nsp, packId, NoMessage);
    TextParts(json, kind, nsp, packId, NoMessage);
    ReadFront(json, payload, kind, 0, before);
    FrontParts(kind, 0);
    NoTail(front, NspText(nsp, false), IdText(packId));
    ReadNspOnly(json, payload, front, NspText(nsp, false), FrontRead(kind, 0, before));
  }

  // The parser gets from a packet's text what the receiver should see.
  predicate ReadBack(json: JsonText, kind: nat, nsp: string, packId: int, message: Message, before: Fields) {
    Parse(json, MessageText(json, kind, nsp, packId, message), before) == Received(json, kind, nsp, packId, message)
  }

  // What parsing from the namespace on leaves alone, and what namespace it finds.
  lemma NspOutcome(json: JsonText, payload: string, f: Fields, pos: nat)
    ensures match ParseNsp(json, payload, f, pos)
            case Done(g) => g.pending == f.pending && Starts(g.nsp, '/')
            case Waiting(g) =>
              g.pending == f.pending && Starts(g.nsp, '/') && f.kind in {TYPE_BINARY_EVENT, TYPE_BINARY_ACK}
            case _ => true
  {}

  // Attachments of a packet whose type has none are not announced.
  lemma TypeWithoutCount(json: JsonText, kind: nat, nsp: string, packId: int, message: Message, before: Fields)
    requires Determined(kind) <= 4 && Determined(kind) !in {TYPE_EVENT, TYPE_ACK}
    ensures !Parse(json, MessageText(json, kind, nsp, packId, message), before).Waiting?
  {
    var count := |Binaries(message)|;
    var payload, t := MessageText(json, kind, nsp, packId, message), WireType(kind, count > 0);
    TextParts(json, kind, nsp, packId, message);
    HasChars(payload, 0, Front(kind, count));
    assert Decimal(t) == [DigitChar(t)];
    assert payload[0 + 0] == '4' && payload[0 + 1] == DigitChar(t);
    ReadType(json, payload, t, before);
    NspOutcome(json, payload, Fields(FRAME_MESSAGE, t, before.nsp, -1, NoMessage, 0, []), 2);
  }

  // The front of a text that is read back, and that its namespace must have the client's form.
  lemma FrontAndNsp(json: JsonText, kind: nat, nsp: string, packId: int, message: Message, before: Fields)
    requires Writable(kind, packId, message)
    requires ReadBack(json, kind, nsp, packId, message, before)
    ensures Binaries(message) != [] ==> Determined(kind) in {TYPE_EVENT, TYPE_ACK}
    ensures |Binaries(message)| < 0x1_0000_0000 && NspReadable(nsp)
  {
    var count := |Binaries(message)|;
    if count > 0 && Determined(kind) !in {TYPE_EVENT, TYPE_ACK} {
      TypeWithoutCount(json, kind, nsp, packId, message, before);
    } else {
      var front, payload := Front(kind, count), MessageText(json, kind, nsp, packId, message);
      TextParts(json, kind, nsp, packId, message);
      ReadFront(json, payload, kind, count, before);
      FrontParts(kind, count);
      NspOutcome(json, payload, FrontRead(kind, count, before), |front|);
      if nsp != "" && nsp[0] == '/' && ',' in nsp {
        CommaRead(json, kind, nsp, packId, message, before);
      }
    }
  }

  // What is read of a packet with a mark is what should be, if its id is written and its message comes back.
  lemma MarkedOutcome(json: JsonText, kind: nat, nsp: string, packId: int, message: Message, before: Fields)
    requires Faithful(json) && Proper(message) && Marked(message) && |Binaries(message)| < 0x1_0000_0000
    requires Determined(kind) <= 4 && (Binaries(message) != [] ==> Determined(kind) in {TYPE_EVENT, TYPE_ACK})
    ensures RestRead(json, FrontRead(kind, |Binaries(message)|, before), if nsp == "" then "/" else nsp,
                     if packId < 0 then -1 else packId, json.write(ToJson(message, 0)))
            == Received(json, kind, nsp, packId, message)
            <==> -1 <= packId && (Binaries(message) == [] ==> !Collides(message))
  {
    if Binaries(message) == [] {
      ReadsBack(json, message);
    }
  }

  lemma UnmarkedOutcome(json: JsonText, kind: nat, nsp: string, packId: int, message: Message, before: Fields)
    requires !Marked(message)
    ensures Done(FrontRead(kind, 0, before).(nsp := if nsp == "" then "/" else nsp))
            == Received(json, kind, nsp, packId, message)
            <==> message == NoMessage && packId == -1
  {
    assert Binaries(message) == [];
  }

  // The rest of a text that is read back.
  lemma IdAndMessage(json: JsonText, kind: nat, nsp: string, packId: int, message: Message, before: Fields)
    requires Faithful(json) && Writable(kind, packId, message) && NspReadable(nsp)
    requires |Binaries(message)| < 0x1_0000_0000
    requires Binaries(message) != [] ==> Determined(kind) in {TYPE_EVENT, TYPE_ACK}
    ensures ReadBack(json, kind, nsp, packId, message, before) <==> Readable(kind, nsp, packId, message)
  {
    if Marked(message) {
      ReadMarked(json, kind, nsp, packId, message, before);
      MarkedOutcome(json, kind, nsp, packId, message, before);
    } else {
      UnmarkedOutcome(json, kind, nsp, packId, message, before);
      UnmarkedReadable(kind, nsp, packId, message);
      if Followed(packId, message) {
        ReadWithoutMark(json, kind, nsp, packId, message, before);
      } else {
        ReadAlone(json, kind, nsp, packId, before);
      }
    }
  }

  lemma UnmarkedReadable(kind: nat, nsp: string, packId: int, message: Message)
    requires !Marked(message) && NspReadable(nsp)
    ensures Readable(kind, nsp, packId, message) <==> message == NoMessage && packId == -1
  {
    assert Binaries(message) == [] && !Collides(message);
  }

  // Reading the text of a packet recovers its type, attachment count, namespace, id and message
  // exactly if each part of the header is in the form that the parser needs.
  lemma ParseUndoesAccept(json: JsonText, kind: nat, nsp: string, packId: int, message: Message, before: Fields)
    requires Faithful(json) && Writable(kind, packId, message)
    ensures ReadBack(json, kind, nsp, packId, message, before) <==> Readable(kind, nsp, packId, message)
  {
    if ReadBack(json, kind, nsp, packId, message, before) {
      FrontAndNsp(json, kind, nsp, packId, message, before);
      IdAndMessage(json, kind, nsp, packId, message, before);
    } else if Readable(kind, nsp, packId, message) {
      IdAndMessage(json, kind, nsp, packId, message, before);
    }
  }

  function FirstComma(s: string): (i: nat)
    requires ',' in s
    ensures i < |s| && s[i] == ',' && forall k | 0 <= k < i :: s[k] != ','
  {
    if s[0] == ',' then 0 else FirstComma(s[1..]) + 1
  }

  lemma CommaCutsNsp(json: JsonText, payload: string, front: string, nsp: string, f: Fields)
    requires Has(payload, 0, front) && Has(payload, |front|, nsp) && ',' !in front && ',' in nsp && nsp[0] == '/'
    ensures var o := ParseNsp(json, payload, f, |front|); o.Threw? || o.Halted? || o.fields.nsp != nsp
  {
    var c := FirstComma(nsp);
    HasChars(payload, |front|, nsp);
    HasNone(payload, 0, front, {','});
    assert payload[|front| + 0] == '/' && payload[|front| + c] == ',';
    FindIs(payload, JSON_MARKS + {'/'}, |front|, |front|);
    forall i | |front| <= i < |front| + c
      ensures payload[i] != ','
    {
      assert payload[|front| + (i - |front|)] == nsp[i - |front|];
    }
    FindIs(payload, {','}, 0, |front| + c);
    assert |payload[|front|..|front| + c]| == c;
  }

  // A namespace in the client's form, starting with a slash, is recovered exactly when it has no
  // comma, even where the message is not; only a message can stop the program.
  lemma NspRecovered(json: JsonText, kind: nat, nsp: string, packId: int, message: Message, before: Fields)
    requires Faithful(json) && Writable(kind, packId, message) && nsp != "" && nsp[0] == '/'
    requires |Binaries(message)| < 0x1_0000_0000
    requires Binaries(message) != [] ==> Determined(kind) in {TYPE_EVENT, TYPE_ACK}
    ensures var o := Parse(json, MessageText(json, kind, nsp, packId, message), before);
            && (!o.Halted? ==> (!o.Threw? && o.fields.nsp == nsp <==> ',' !in nsp))
            && (',' !in nsp && !Collides(message) ==> !o.Halted?)
  {
    if ',' in nsp {
      CommaRead(json, kind, nsp, packId, message, before);
    } else if Marked(message) {
      ReadMarked(json, kind, nsp, packId, message, before);
      if Binaries(message) == [] {
        ReadsBack(json, message);
      }
    } else if Followed(packId, message) {
      ReadWithoutMark(json, kind, nsp, packId, message, before);
    } else {
      ReadAlone(json, kind, nsp, packId, before);
    }
  }

  lemma CommaRead(json: JsonText, kind: nat, nsp: string, packId: int, message: Message, before: Fields)
    requires Writable(kind, packId, message) && nsp != "" && nsp[0] == '/' && ',' in nsp
    requires Binaries(message) != [] ==> Determined(kind) in {TYPE_EVENT, TYPE_ACK}
    ensures var o := Parse(json, MessageText(json, kind, nsp, packId, message), before);
            o.Threw? || o.Halted? || o.fields.nsp != nsp
  {
    var count := |Binaries(message)|;
    var front, payload := Front(kind, count), MessageText(json, kind, nsp, packId, message);
    TextParts(json, kind, nsp, packId, message);
    ReadFront(json, payload, kind, count, before);
    FrontParts(kind, count);
    HasNsp(front, nsp, Followed(packId, message), IdText(packId) + JsonPart(json, message));
    CommaCutsNsp(json, payload, front, nsp, FrontRead(kind, count, before));
  }

  // A namespace that does not come back: the comma in it ends it.
  lemma CommaEndsNsp(json: JsonText, before: Fields)
    requires Faithful(json)
    ensures var o := Parse(json, MessageText(json, TYPE_CONNECT, "/a,b", -1, NoMessage), before);
            o.Done? && o.fields.nsp == "/a"
  {
    var payload := MessageText(json, TYPE_CONNECT, "/a,b", -1, NoMessage);
    assert Decimal(0) == "0";
    assert payload == "40/a,b";
    FindIs(payload, JSON_MARKS + {'/'}, 2, 2);
    FindIs(payload, {','}, 0, 4);
    FindNothing(payload, JSON_MARKS, 5);
    assert payload[2..4] == "/a";
  }

  lemma HasNsp(front: string, nsp: string, followed: bool, rest: string)
    requires nsp != "" && nsp != "/"
    ensures Has(front + (NspText(nsp, followed) + rest), |front|, nsp)
  {
    HasRight(nsp, if followed then "," else "", 0, nsp);
    HasRight(NspText(nsp, followed), rest, 0, nsp);
    HasShift(front, NspText(nsp, followed) + rest, 0, nsp);
  }
}
