// Frames that are no message packets, and frames that the parser refuses.
module SioFrames {
  import opened Sequences
  import opened Texts
  import opened SioMessages
  import P = SioPackets
  import opened SioHeaders
  import opened SioPacketManager

  // The value of a frame character.
  function FrameOf(c: char): int { c as int - '0' as int }

  // The fields of a packet that starts with this character and has nothing but these parts.
  function Plain(c: char, kind: int, nsp: string, packId: int, message: Message): Fields {
    P.Fields(FrameOf(c), kind, nsp, packId, message, 0, [])
  }

  // What a frame with this JSON value is read as.
  ghost predicate ReadAs(o: P.Outcome, json: P.JsonText, v: Json, c: char, kind: int, nsp: string, packId: int) {
    match FromJson(RoundedJson(json.round, v), [])
    case Read(m) => o == P.Done(Plain(c, kind, nsp, packId, m))
    case Stopped => o == P.Halted
  }

  predicate HasMark(v: Json) { v.JObject? || v.JArray? || v.JString? }

  // A frame that is no message, like the handshake, has its JSON value for its message, behind a
  // namespace and an id or without them.
  lemma OtherFrameRead(json: P.JsonText, c: char, nsp: string, packId: int, v: Json, before: Fields)
    requires P.Faithful(json) && c != '4' && HasMark(v) && NspReadable(nsp) && -1 <= packId <= INT_MAX && c != ','
    ensures var payload := [c] + (P.NspText(nsp, true) + (IdText(packId) + json.write(v)));
            ReadAs(P.Parse(json, payload, before), json, v, c, before.kind, if nsp == "" then "/" else nsp, packId)
  {
    var text := json.write(v);
    var payload := [c] + (P.NspText(nsp, true) + (IdText(packId) + text));
    assert text != "" && text[0] in P.JSON_MARKS;
    OtherFrame(json, payload, before);
    ReadRest(json, payload, [c], nsp, packId, text, Plain(c, before.kind, before.nsp, -1, NoMessage));
  }

  lemma OtherFrame(json: P.JsonText, payload: string, before: Fields)
    requires payload != "" && payload[0] != '4'
    ensures P.Parse(json, payload, before) ==
            P.ParseNsp(json, payload, Plain(payload[0], before.kind, before.nsp, -1, NoMessage), 1)
  {}

  // So is one with its value alone.
  lemma BareFrameRead(json: P.JsonText, c: char, v: Json, before: Fields)
    requires P.Faithful(json) && c != '4' && HasMark(v)
    ensures ReadAs(P.Parse(json, [c] + json.write(v), before), json, v, c, before.kind, "/", -1)
  {
    var text := json.write(v);
    var payload := [c] + text;
    var f := before.(frame := FrameOf(c), packId := -1, message := NoMessage, pending := 0, buffers := []);
    assert text != "" && text[0] in P.JSON_MARKS;
    assert Has(payload, 1, "") && payload[1..] == text;
    ReadWithoutNsp(json, payload, 1, -1, text, f);
  }

  // A frame without JSON has no message.
  lemma EmptyFrameRead(json: P.JsonText, c: char, rest: string, before: Fields)
    requires c != '4' && P.Unmarked(rest)
    ensures P.Parse(json, [c] + rest, before) == P.Done(Plain(c, before.kind, "/", -1, NoMessage))
  {
    var payload := [c] + rest;
    assert forall i | 1 <= i < |payload| :: payload[i] == rest[i - 1] && rest[i - 1] in rest;
    FindNothing(payload, P.JSON_MARKS + {'/'}, 1);
  }

  // A program that has stopped does nothing more.
  lemma {:induction false} StoppedStays(json: P.JsonText, s: State, payloads: seq<string>)
    requires s.stopped
    ensures PutAll(json, s, payloads) == s
    decreases |payloads|
  {
    if payloads != [] {
      StoppedStays(json, s, payloads[1..]);
    }
  }

  // Such a frame is delivered at once, whether or not a packet waits, and leaves that packet alone.
  lemma BareFrameDelivered(json: P.JsonText, c: char, v: Json, s: State)
    requires P.Faithful(json) && c != '4' && c as int != 4 && HasMark(v) && !s.stopped
    ensures Put(json, s, [c] + json.write(v)) ==
            match FromJson(RoundedJson(json.round, v), [])
            case Read(m) => State(s.partial, s.delivered + [Plain(c, 0x10, "/", -1, m)], false)
            case Stopped => State(s.partial, s.delivered, true)
  {
    BareFrameRead(json, c, v, EMPTY);
  }

  lemma EmptyFrameDelivered(json: P.JsonText, c: char, rest: string, s: State)
    requires c != '4' && c as int != 4 && P.Unmarked(rest) && !s.stopped
    ensures Put(json, s, [c] + rest) ==
            State(s.partial, s.delivered + [Plain(c, 0x10, "/", -1, NoMessage)], false)
  {
    EmptyFrameRead(json, c, rest, EMPTY);
  }

  // A message without attachments is delivered at once, too, or stops the program.
  lemma BareMessageDelivered(json: P.JsonText, t: nat, v: Json, s: State)
    requires P.Faithful(json) && t < 5 && HasMark(v) && !s.stopped
    ensures Put(json, s, "4" + [DigitChar(t)] + json.write(v)) ==
            match FromJson(RoundedJson(json.round, v), [])
            case Read(m) => State(s.partial, s.delivered + [Plain('4', t, "/", -1, m)], false)
            case Stopped => State(s.partial, s.delivered, true)
  {
    var text := json.write(v);
    var payload := "4" + [DigitChar(t)] + text;
    assert text != "" && text[0] in P.JSON_MARKS;
    assert payload[0] == '4' && payload[1] == DigitChar(t) && Has(payload, 2, "") && payload[2..] == text;
    ReadType(json, payload, t, EMPTY);
    ReadWithoutNsp(json, payload, 2, -1, text, Plain('4', t, EMPTY.nsp, -1, NoMessage));
  }

  // Frames of fewer than two characters have no message; a terminating zero stands for what is missing.
  lemma ShortFrames(json: P.JsonText, before: Fields)
    ensures P.Parse(json, "", before) == P.Done(Plain(0 as char, before.kind, "/", -1, NoMessage))
    ensures P.Parse(json, "4", before) == P.Done(Plain('4', FrameOf(0 as char), before.nsp, -1, NoMessage))
  {
    FindNothing("", P.JSON_MARKS + {'/'}, 1);
  }

  // A text without a dash has no end of its attachment count, and then what stands before the JSON,
  // frame and type included, is taken for the id.
  lemma CountWithoutDash(json: P.JsonText, t: nat, n: nat, id: nat, text: string, before: Fields)
    requires (t == 5 || t == 6) && text != "" && text[0] in P.JSON_MARKS && '-' !in text
    requires Decimal(id) == "4" + [DigitChar(t)] + Decimal(n) && id <= INT_MAX && n <= ULONG_MAX
    ensures P.Parse(json, Decimal(id) + text, before) ==
            P.Waiting(P.Fields(4, t, "/", id, NoMessage, n % 0x1_0000_0000, [text]))
  {
    var payload := Decimal(id) + text;
    assert payload[0] == '4' && payload[1] == DigitChar(t) && payload[2..] == Decimal(n) + text;
    assert Decimal(id)[2..] == Decimal(n) && '-' !in payload;
    FindNothing(payload, {'-'}, 0);
    FrontNumberDecimal(n, text);
    ReadType(json, payload, t, before);
    assert payload[0..] == payload && payload[..|Decimal(id)|] == Decimal(id) && payload[|Decimal(id)|..] == text;
    ReadWithoutNsp(json, payload, 0, id, text, P.Fields(4, t, before.nsp, -1, NoMessage, n % 0x1_0000_0000, []));
  }

  // A comma before the namespace does not end it: then the namespace takes all the rest.
  lemma EarlyCommaIgnored(json: P.JsonText, c: char, a: string, nsp: string, before: Fields)
    requires c != '4' && c != ',' && P.Unmarked(a) && nsp != "" && nsp[0] == '/'
    requires forall i | 0 <= i < |nsp| :: nsp[i] !in P.JSON_MARKS
    ensures P.Parse(json, [c] + a + "," + nsp, before) == P.Done(Plain(c, before.kind, nsp, -1, NoMessage))
  {
    var payload := [c] + a + "," + nsp;
    var comma, start := 1 + |a|, 2 + |a|;
    assert forall i | 1 <= i < comma :: payload[i] == a[i - 1] && a[i - 1] in a;
    assert payload[comma] == ',' && payload[start] == '/' && payload[start..] == nsp;
    assert forall i | start <= i < |payload| :: payload[i] == nsp[i - start];
    FindIs(payload, {','}, 0, comma);
    FindIs(payload, P.JSON_MARKS + {'/'}, 1, start);
    FindNothing(payload, P.JSON_MARKS, start);
  }

  // ----- frames that are refused

  // A message of no known type is a packet without anything.
  lemma UnknownTypeRead(json: P.JsonText, c: char, rest: string, before: Fields)
    requires !('0' <= c <= '6')
    ensures P.Parse(json, "4" + [c] + rest, before) == P.Done(Plain('4', FrameOf(c), before.nsp, -1, NoMessage))
  {
    var payload := "4" + [c] + rest;
    assert payload[0] == '4' && payload[1] == c;
  }

  ghost predicate BadId(id: string) {
    id != "" && P.Unmarked(id)
    && ((forall c | c in id :: !IsDigit(c)) || exists n: nat :: n > INT_MAX && id == Decimal(n))
  }

  // What stands for an id must start with a number that is an int.
  lemma BadIdThrows(json: P.JsonText, t: nat, id: string, text: string, before: Fields)
    requires t < 5 && text != "" && text[0] in P.JSON_MARKS && BadId(id)
    ensures P.Parse(json, "4" + [DigitChar(t)] + (id + text), before) == P.Threw
  {
    var payload := "4" + [DigitChar(t)] + (id + text);
    assert payload[0] == '4' && payload[1] == DigitChar(t);
    forall i | 2 <= i < 2 + |id|
      ensures payload[i] !in P.JSON_MARKS + {'/'}
    {
      assert payload[i] == id[i - 2] && id[i - 2] in id;
    }
    assert payload[2 + |id|] == text[0] && payload[2..2 + |id|] == id;
    FindIs(payload, P.JSON_MARKS + {'/'}, 2, 2 + |id|);
    if forall c | c in id :: !IsDigit(c) {
      NoFrontNumber(id);
    } else {
      var n: nat :| n > INT_MAX && id == Decimal(n);
      NumberRead(n);
    }
    ReadType(json, payload, t, before);
  }

  // What stands for an attachment count must start with a number.
  lemma BadCountThrows(json: P.JsonText, t: nat, count: string, rest: string, before: Fields)
    requires t == 5 || t == 6
    requires forall c | c in count :: !IsDigit(c) && c != '-'
    ensures P.Parse(json, "4" + [DigitChar(t)] + (count + ("-" + rest)), before) == P.Threw
  {
    var payload := "4" + [DigitChar(t)] + (count + ("-" + rest));
    assert payload[0] == '4' && payload[1] == DigitChar(t) && payload[1] != '-';
    var dash := 2 + |count|;
    forall i | 0 <= i < dash
      ensures payload[i] != '-'
    {
      if i >= 2 {
        assert payload[i] == count[i - 2] && count[i - 2] in count;
      }
    }
    assert payload[dash] == '-' && payload[2..dash] == count;
    FindIs(payload, {'-'}, 0, dash);
    NoFrontNumber(count);
    ReadType(json, payload, t, before);
  }

  // A frame that throws changes nothing, and an attachment that no packet waits for is passed over.
  lemma RefusedFrames(json: P.JsonText, s: State, payload: string)
    requires if P.IsBinaryMessage(payload) then s.partial == None else P.Parse(json, payload, EMPTY).Threw?
    ensures Put(json, s, payload) == s
  {}
}
