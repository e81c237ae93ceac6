// Socket.IO messages and their JSON form, in which binary leaves are numbered placeholders.
module SioMessages {
  import opened Sequences
  import opened Texts

  // The bits of a double that is a number: its exponent is not all ones.
  type FiniteDouble = n: nat | n < 0x1_0000_0000_0000_0000 && n / 0x10_0000_0000_0000 % 0x800 != 0x7FF

  type Int64 = i: int | -0x8000_0000_0000_0000 <= i < 0x8000_0000_0000_0000

  // A message pointer; NoMessage is the null pointer. Object entries are in the key order of std::map.
  datatype Message =
    | NoMessage
    | Null
    | Bool(b: bool)
    | Int(i: Int64)
    | Double(d: FiniteDouble)
    | Str(s: string)
    | Binary(data: string)
    | Array(items: seq<Message>)
    | Object(entries: seq<Entry>)

  datatype Entry = Entry(key: string, value: Message)

  datatype Json =
    | JNull
    | JBool(b: bool)
    | JInt(i: int)
    | JDouble(d: FiniteDouble)
    | JString(s: string)
    | JArray(items: seq<Json>)
    | JObject(members: seq<Member>)

  datatype Member = Member(name: string, value: Json)

  const PLACEHOLDER: string := "_placeholder"
  const NUM: string := "num"

  // static_cast<int> of a size.
  function ToInt(n: nat): int {
    (n + 0x8000_0000) % 0x1_0000_0000 - 0x8000_0000
  }

  predicate Less(a: string, b: string) {
    b != [] && (a == [] || a[0] < b[0] || (a[0] == b[0] && Less(a[1..], b[1..])))
  }

  predicate Sorted(entries: seq<Entry>) {
    forall i, j | 0 <= i < j < |entries| :: Less(entries[i].key, entries[j].key)
  }

  // What accept_message may be given: no null pointers, and maps in key order.
  predicate Proper(m: Message) {
    match m
    case NoMessage => false
    case Array(items) => forall i | 0 <= i < |items| :: Proper(items[i])
    case Object(entries) => Sorted(entries) && forall i | 0 <= i < |entries| :: Proper(entries[i].value)
    case _ => true
  }

  // The binary leaves in traversal order.
  function Binaries(m: Message): seq<string>
    decreases m, 1
  {
    match m
    case Binary(data) => [data]
    case Array(items) => Concat(ItemBinaries(items))
    case Object(entries) => Concat(EntryBinaries(entries))
    case _ => []
  }

  function ItemBinaries(items: seq<Message>): (parts: seq<seq<string>>)
    decreases items, 0
  {
    seq(|items|, i requires 0 <= i < |items| => Binaries(items[i]))
  }

  function EntryBinaries(entries: seq<Entry>): seq<seq<string>>
    decreases entries, 0
  {
    seq(|entries|, i requires 0 <= i < |entries| => Binaries(entries[i].value))
  }

  function Placeholder(num: int): Json {
    JObject([Member(PLACEHOLDER, JBool(true)), Member(NUM, JInt(num))])
  }

  // The number of the first binary leaf in the i-th part, when the first of all has number n.
  function Offset(parts: seq<seq<string>>, i: nat, n: nat): nat
    requires i <= |parts|
  {
    n + |Concat(parts[..i])|
  }

  // The JSON of a message whose binary leaves take the numbers from n on.
  function ToJson(m: Message, n: nat): Json
    decreases m, 1
  {
    match m
    case NoMessage => JNull
    case Null => JNull
    case Bool(b) => JBool(b)
    case Int(i) => JInt(i)
    case Double(d) => JDouble(d)
    case Str(s) => JString(s)
    case Binary(_) => Placeholder(ToInt(n))
    case Array(items) => JArray(ItemsToJson(items, n))
    case Object(entries) => JObject(EntriesToJson(entries, n))
  }

  function ItemsToJson(items: seq<Message>, n: nat): seq<Json>
    decreases items, 0
  {
    seq(|items|, i requires 0 <= i < |items| => ToJson(items[i], Offset(ItemBinaries(items), i, n)))
  }

  function EntriesToJson(entries: seq<Entry>, n: nat): (members: seq<Member>)
    decreases entries, 0
  {
    seq(|entries|, i requires 0 <= i < |entries| =>
      Member(entries[i].key, ToJson(entries[i].value, Offset(EntryBinaries(entries), i, n))))
  }

  // The attachment list that accept_message appends to.
  class Attachments {
    var buffers: seq<string>

    constructor ()
      ensures buffers == []
    {
      buffers := [];
    }

    method AcceptBinaryMessage(data: string) returns (value: Json)
      modifies this
      ensures value == Placeholder(ToInt(|old(buffers)|)) && buffers == old(buffers) + [data]
    {
      value := Placeholder(ToInt(|buffers|));
      buffers := buffers + [data];
    }

    method AcceptArrayMessage(items: seq<Message>) returns (children: seq<Json>)
      requires forall i | 0 <= i < |items| :: Proper(items[i])
      modifies this
      ensures children == ItemsToJson(items, |old(buffers)|)
      ensures buffers == old(buffers) + Concat(ItemBinaries(items))
      decreases items, 1
    {
      children := [];
      for i := 0 to |items|
        invariant children == ItemsToJson(items, |old(buffers)|)[..i]
        invariant buffers == old(buffers) + Concat(ItemBinaries(items)[..i])
      {
        ConcatNext(ItemBinaries(items), i);
        var child := AcceptMessage(items[i]);
        children := children + [child];
      }
      assert ItemBinaries(items)[..|items|] == ItemBinaries(items);
    }

    method AcceptObjectMessage(entries: seq<Entry>) returns (members: seq<Member>)
      requires forall i | 0 <= i < |entries| :: Proper(entries[i].value)
      modifies this
      ensures members == EntriesToJson(entries, |old(buffers)|)
      ensures buffers == old(buffers) + Concat(EntryBinaries(entries))
      decreases entries, 1
    {
      members := [];
      for i := 0 to |entries|
        invariant members == EntriesToJson(entries, |old(buffers)|)[..i]
        invariant buffers == old(buffers) + Concat(EntryBinaries(entries)[..i])
      {
        ConcatNext(EntryBinaries(entries), i);
        var child := AcceptMessage(entries[i].value);
        members := members + [Member(entries[i].key, child)];
      }
      assert EntryBinaries(entries)[..|entries|] == EntryBinaries(entries);
    }

    method AcceptMessage(m: Message) returns (value: Json)
      requires Proper(m)
      modifies this
      ensures value == ToJson(m, |old(buffers)|)
      ensures buffers == old(buffers) + Binaries(m)
      decreases m, 0
    {
      match m {
        case NoMessage => assert false;
        case Null => value := JNull;
        case Bool(b) => value := JBool(b);
        case Int(i) => value := JInt(i);
        case Double(d) => value := JDouble(d);
        case Str(s) => value := JString(s);
        case Binary(data) => value := AcceptBinaryMessage(data);
        case Array(items) =>
          var children := AcceptArrayMessage(items);
          value := JArray(children);
        case Object(entries) =>
          var members := AcceptObjectMessage(entries);
          value := JObject(members);
      }
    }
  }

  // std::map's operator[] assignment.
  function Insert(entries: seq<Entry>, key: string, value: Message): seq<Entry> {
    if entries == [] || Less(key, entries[0].key) then [Entry(key, value)] + entries
    else if entries[0].key == key then [Entry(key, value)] + entries[1..]
    else [entries[0]] + Insert(entries[1..], key, value)
  }

  function FindMember(members: seq<Member>, name: string): (i: int)
    ensures -1 <= i < |members|
    ensures if i < 0 then forall k | 0 <= k < |members| :: members[k].name != name
            else members[i].name == name && forall k | 0 <= k < i :: members[k].name != name
  {
    if members == [] then -1
    else if members[0].name == name then 0
    else
      var i := FindMember(members[1..], name);
      if i < 0 then -1 else i + 1
  }

  // What reading comes to: a message pointer, or a failed assertion of the JSON library, which stops
  // the program.
  datatype Reading = Read(message: Message) | Stopped

  // The placeholder member, if there is one, and it is a boolean.
  predicate PlaceholderStops(members: seq<Member>) {
    var at := FindMember(members, PLACEHOLDER);
    at >= 0 && !members[at].value.JBool?
  }

  predicate IsPlaceholder(members: seq<Member>) {
    var at := FindMember(members, PLACEHOLDER);
    at >= 0 && members[at].value == JBool(true)
  }

  // The attachment that a placeholder names; it must have a number that is an int.
  function ReadAttachment(members: seq<Member>, buffers: seq<string>): Reading {
    var at := FindMember(members, NUM);
    if at < 0 || !members[at].value.JInt? || !(INT_MIN <= members[at].value.i <= INT_MAX) then Stopped
    else
      var num := members[at].value.i;
      Read(if 0 <= num < |buffers| then Binary(buffers[num]) else NoMessage)
  }

  function FromJson(v: Json, buffers: seq<string>): Reading
    decreases v, 1
  {
    match v
    case JInt(i) => Read(if -0x8000_0000_0000_0000 <= i < 0x8000_0000_0000_0000 then Int(i) else NoMessage)
    case JDouble(d) => Read(Double(d))
    case JString(s) => Read(Str(s))
    case JArray(items) =>
      var read := FromItems(items, buffers);
      if Stopped in read then Stopped else Read(Array(Messages(read)))
    case JObject(members) =>
      if PlaceholderStops(members) then Stopped
      else if IsPlaceholder(members) then ReadAttachment(members, buffers)
      else
        var read := FromMembers(members, buffers);
        if Stopped in read then Stopped else Read(Object(InsertAll(Assignments(members, Messages(read)))))
    case JBool(b) => Read(Bool(b))
    case JNull => Read(Null)
  }

  function FromItems(items: seq<Json>, buffers: seq<string>): (read: seq<Reading>)
    decreases items, 0
  {
    seq(|items|, i requires 0 <= i < |items| => FromJson(items[i], buffers))
  }

  function FromMembers(members: seq<Member>, buffers: seq<string>): (read: seq<Reading>)
    decreases members, 0
  {
    seq(|members|, i requires 0 <= i < |members| => FromJson(members[i].value, buffers))
  }

  function Messages(read: seq<Reading>): seq<Message>
    requires Stopped !in read
  {
    seq(|read|, i requires 0 <= i < |read| => assert read[i] in read; read[i].message)
  }

  // The assignments to the map, in member order.
  function Assignments(members: seq<Member>, values: seq<Message>): seq<Entry>
    requires |members| == |values|
  {
    seq(|members|, i requires 0 <= i < |members| => Entry(members[i].name, values[i]))
  }

  function InsertAll(assignments: seq<Entry>): seq<Entry> {
    if assignments == [] then []
    else
      var last := assignments[|assignments| - 1];
      Insert(InsertAll(assignments[..|assignments| - 1]), last.key, last.value)
  }

  // Some object maps the placeholder key to something else than false.
  predicate Collides(m: Message) {
    match m
    case Array(items) => exists i :: 0 <= i < |items| && Collides(items[i])
    case Object(entries) =>
      exists i :: 0 <= i < |entries|
                  && ((entries[i].key == PLACEHOLDER && entries[i].value != Bool(false)) || Collides(entries[i].value))
    case _ => false
  }

  // ----- what reading does

  predicate HasKey(entries: seq<Entry>, key: string) { exists i :: 0 <= i < |entries| && entries[i].key == key }

  predicate HasName(members: seq<Member>, name: string) { exists j :: 0 <= j < |members| && members[j].name == name }

  // The entries, in key order, hold these assignments, of which later ones replace earlier ones.
  ghost predicate Holds(entries: seq<Entry>, assignments: seq<Entry>) {
    && Sorted(entries)
    && (forall key :: HasKey(entries, key) <==> HasKey(assignments, key))
    && (forall i, j | 0 <= i < |entries| && 0 <= j < |assignments| && entries[i].key == assignments[j].key
                      && (forall k | j < k < |assignments| :: assignments[k].key != assignments[j].key) ::
          entries[i].value == assignments[j].value)
  }

  lemma {:induction false} LessTotal(a: string, b: string)
    ensures Less(a, b) || a == b || Less(b, a)
  {
    if a != [] && b != [] && a[0] == b[0] {
      LessTotal(a[1..], b[1..]);
      assert a == [a[0]] + a[1..] && b == [b[0]] + b[1..];
    }
  }

  lemma {:induction false} LessTransitive(a: string, b: string, c: string)
    requires Less(a, b) && Less(b, c)
    ensures Less(a, c)
  {
    if a != [] && a[0] == b[0] && b[0] == c[0] {
      LessTransitive(a[1..], b[1..], c[1..]);
    }
  }

  // Inserting keeps the order, sets the value of the key and touches no other.
  ghost predicate Inserted(before: seq<Entry>, after: seq<Entry>, key: string, value: Message) {
    && Sorted(after)
    && (forall e :: e in after <==> e == Entry(key, value) || (e in before && e.key != key))
  }

  lemma {:induction false} InsertSets(entries: seq<Entry>, key: string, value: Message)
    requires Sorted(entries)
    ensures Inserted(entries, Insert(entries, key, value), key, value)
  {
    if entries == [] {
    } else if Less(key, entries[0].key) {
      InsertFront(entries, key, value);
    } else if entries[0].key == key {
      InsertReplace(entries, key, value);
    } else {
      var rest := entries[1..];
      InsertSets(rest, key, value);
      LessTotal(key, entries[0].key);
      InsertBehind(entries[0], rest, Insert(rest, key, value), key, value);
      assert entries == [entries[0]] + rest;
    }
  }

  lemma InsertFront(entries: seq<Entry>, key: string, value: Message)
    requires Sorted(entries) && entries != [] && Less(key, entries[0].key)
    ensures Inserted(entries, [Entry(key, value)] + entries, key, value)
  {
    forall j | 0 <= j < |entries|
      ensures Less(key, entries[j].key) && entries[j].key != key
    {
      if j > 0 {
        LessTransitive(key, entries[0].key, entries[j].key);
      }
      LessAsymmetric(key, entries[j].key);
    }
  }

  lemma InsertReplace(entries: seq<Entry>, key: string, value: Message)
    requires Sorted(entries) && entries != [] && entries[0].key == key
    ensures Inserted(entries, [Entry(key, value)] + entries[1..], key, value)
  {
    forall j | 0 < j < |entries|
      ensures entries[j].key != key
    {
      LessAsymmetric(key, entries[j].key);
    }
  }

  lemma InsertBehind(first: Entry, rest: seq<Entry>, after: seq<Entry>, key: string, value: Message)
    requires Sorted([first] + rest) && Less(first.key, key) && Inserted(rest, after, key, value)
    ensures Inserted([first] + rest, [first] + after, key, value)
  {
    LessAsymmetric(first.key, key);
    forall j | 0 <= j < |after|
      ensures Less(first.key, after[j].key)
    {
      assert after[j] in after;
      if after[j] != Entry(key, value) {
        var k :| 0 <= k < |rest| && rest[k] == after[j];
        var all := [first] + rest;
        assert all[0] == first && all[k + 1] == rest[k];
      }
    }
  }

  lemma {:induction false} InsertAllHolds(assignments: seq<Entry>)
    ensures Holds(InsertAll(assignments), assignments)
  {
    if assignments != [] {
      var n := |assignments| - 1;
      var init, last := assignments[..n], assignments[n];
      InsertAllHolds(init);
      InsertSets(InsertAll(init), last.key, last.value);
      HoldsNext(InsertAll(init), InsertAll(assignments), init, last);
      assert assignments == init + [last];
    }
  }

  lemma HoldsNext(before: seq<Entry>, after: seq<Entry>, init: seq<Entry>, last: Entry)
    requires Holds(before, init) && Inserted(before, after, last.key, last.value)
    ensures Holds(after, init + [last])
  {
    var all := init + [last];
    forall key
      ensures HasKey(after, key) <==> HasKey(all, key)
    {
      KeyNext(before, after, init, last, key);
    }
    forall i, j | 0 <= i < |after| && 0 <= j < |all| && after[i].key == all[j].key
                  && (forall k | j < k < |all| :: all[k].key != all[j].key)
      ensures after[i].value == all[j].value
    {
      assert after[i] in after;
      if j < |init| {
        assert all[|init|] == last && last.key != all[j].key;
        var k :| 0 <= k < |before| && before[k] == after[i];
        assert forall l | j < l < |init| :: init[l].key != init[j].key by {
          assert forall l | j < l < |init| :: all[l] == init[l];
        }
      }
    }
  }

  lemma KeyNext(before: seq<Entry>, after: seq<Entry>, init: seq<Entry>, last: Entry, key: string)
    requires Holds(before, init) && Inserted(before, after, last.key, last.value)
    ensures HasKey(after, key) <==> HasKey(init + [last], key)
  {
    var all := init + [last];
    if HasKey(after, key) {
      var i :| 0 <= i < |after| && after[i].key == key;
      assert after[i] in after;
      if key == last.key {
        assert all[|init|].key == key;
      } else {
        var k :| 0 <= k < |before| && before[k] == after[i];
        assert HasKey(before, key);
        var j :| 0 <= j < |init| && init[j].key == key;
        assert all[j].key == key;
      }
    }
    if HasKey(all, key) {
      if key == last.key {
        assert Entry(key, last.value) in after;
      } else {
        var j :| 0 <= j < |all| && all[j].key == key;
        assert init[j].key == key;
        assert HasKey(init, key);
        var k :| 0 <= k < |before| && before[k].key == key;
        assert before[k] in after;
      }
    }
  }

  // An object that neither stops the reader nor is a placeholder is read as a map: in key order, with
  // exactly the names of its members for keys, and for each the reading of the last member of that name.
  lemma ObjectReadAsMap(members: seq<Member>, buffers: seq<string>)
    requires !PlaceholderStops(members) && !IsPlaceholder(members)
    requires forall i | 0 <= i < |members| :: FromJson(members[i].value, buffers).Read?
    ensures var r := FromJson(JObject(members), buffers);
            && r.Read? && r.message.Object? && Sorted(r.message.entries)
            && (forall key :: HasKey(r.message.entries, key) <==> HasName(members, key))
            && (forall i, j | 0 <= i < |r.message.entries| && 0 <= j < |members|
                              && r.message.entries[i].key == members[j].name
                              && (forall k | j < k < |members| :: members[k].name != members[j].name) ::
                  Read(r.message.entries[i].value) == FromJson(members[j].value, buffers))
  {
    var read := FromMembers(members, buffers);
    assert Stopped !in read;
    var assignments := Assignments(members, Messages(read));
    var entries := InsertAll(assignments);
    InsertAllHolds(assignments);
    forall key
      ensures HasKey(assignments, key) <==> HasName(members, key)
    {
      if HasName(members, key) {
        var j :| 0 <= j < |members| && members[j].name == key;
        assert assignments[j].key == key;
      }
    }
    forall i, j | 0 <= i < |entries| && 0 <= j < |members| && entries[i].key == members[j].name
                  && (forall k | j < k < |members| :: members[k].name != members[j].name)
      ensures Read(entries[i].value) == FromJson(members[j].value, buffers)
    {
      assert entries[i].key == assignments[j].key;
      assert forall k | j < k < |assignments| :: assignments[k].key == members[k].name;
      assert entries[i].value == assignments[j].value == Messages(read)[j];
      assert read[j] in read;
    }
  }

  // The i-th member is the first of this name.
  predicate FirstNamed(members: seq<Member>, name: string, i: int) {
    0 <= i < |members| && members[i].name == name && forall k | 0 <= k < i :: members[k].name != name
  }

  lemma FoundIsFirst(members: seq<Member>, name: string, i: int)
    requires FirstNamed(members, name, i)
    ensures FindMember(members, name) == i
  {}

  // An array is read item by item.
  lemma ArrayReadByItem(items: seq<Json>, buffers: seq<string>, messages: seq<Message>)
    ensures FromJson(JArray(items), buffers) == Read(Array(messages))
            <==> |items| == |messages|
                 && forall i | 0 <= i < |items| :: FromJson(items[i], buffers) == Read(messages[i])
  {
    var read := FromItems(items, buffers);
    MessagesRead(read, messages);
    assert ReadsAs(read, messages) <==>
           |items| == |messages| && forall i | 0 <= i < |items| :: FromJson(items[i], buffers) == Read(messages[i]);
  }

  // A placeholder is read as the attachment of its number, and as a null pointer if there is none.
  lemma PlaceholderReadByNumber(members: seq<Member>, buffers: seq<string>, at: int, numAt: int, num: int)
    requires FirstNamed(members, "_placeholder", at) && members[at].value == JBool(true)
    requires FirstNamed(members, "num", numAt) && members[numAt].value == JInt(num) && INT_MIN <= num <= INT_MAX
    ensures 0 <= num < |buffers| ==> FromJson(JObject(members), buffers) == Read(Binary(buffers[num]))
    ensures !(0 <= num < |buffers|) ==> FromJson(JObject(members), buffers) == Read(NoMessage)
  {
    FoundIsFirst(members, PLACEHOLDER, at);
    FoundIsFirst(members, NUM, numAt);
  }

  // Somewhere in the value, and not within a placeholder, is an object that an assertion stops at: its
  // placeholder member is no boolean, or is true and its number is missing or no int.
  ghost predicate Stops(v: Json) {
    match v
    case JArray(items) => exists i :: 0 <= i < |items| && Stops(items[i])
    case JObject(members) =>
      if Named(members, PLACEHOLDER, JBool(true)) then !HasNumber(members)
      else if Named(members, PLACEHOLDER, JBool(false)) || !HasName(members, PLACEHOLDER) then
        exists i :: 0 <= i < |members| && Stops(members[i].value)
      else true
    case _ => false
  }

  // The first member of this name has this value.
  ghost predicate Named(members: seq<Member>, name: string, value: Json) {
    exists i :: FirstNamed(members, name, i) && members[i].value == value
  }

  ghost predicate HasNumber(members: seq<Member>) {
    exists i :: FirstNamed(members, NUM, i) && members[i].value.JInt? && INT_MIN <= members[i].value.i <= INT_MAX
  }

  // Reading stops the program exactly there.
  lemma {:induction false} StopsExactly(v: Json, buffers: seq<string>)
    ensures FromJson(v, buffers).Stopped? <==> Stops(v)
  {
    match v {
      case JArray(items) =>
        var read := FromItems(items, buffers);
        forall i | 0 <= i < |items|
          ensures read[i].Stopped? <==> Stops(items[i])
        {
          StopsExactly(items[i], buffers);
        }
        StoppedAmong(read);
      case JObject(members) =>
        var read := FromMembers(members, buffers);
        forall i | 0 <= i < |members|
          ensures read[i].Stopped? <==> Stops(members[i].value)
        {
          StopsExactly(members[i].value, buffers);
        }
        StoppedAmong(read);
        ObjectStops(members, buffers);
      case _ =>
    }
  }

  lemma StoppedAmong(read: seq<Reading>)
    ensures Stopped in read <==> exists i :: 0 <= i < |read| && read[i].Stopped?
  {}

  lemma ObjectStops(members: seq<Member>, buffers: seq<string>)
    requires Stopped in FromMembers(members, buffers) <==> exists i :: 0 <= i < |members| && Stops(members[i].value)
    ensures FromJson(JObject(members), buffers).Stopped? <==> Stops(JObject(members))
  {
    var at := FindMember(members, PLACEHOLDER);
    NumberStops(members, buffers);
    OneFirst(members, PLACEHOLDER, at);
    if at >= 0 {
      assert FirstNamed(members, PLACEHOLDER, at);
      assert forall b :: Named(members, PLACEHOLDER, b) <==> b == members[at].value;
    } else {
      assert forall b :: !Named(members, PLACEHOLDER, b);
    }
  }

  lemma OneFirst(members: seq<Member>, name: string, at: int)
    requires at == FindMember(members, name)
    ensures forall i :: FirstNamed(members, name, i) <==> at >= 0 && i == at
    ensures HasName(members, name) <==> at >= 0
  {}

  lemma NumberStops(members: seq<Member>, buffers: seq<string>)
    ensures ReadAttachment(members, buffers).Stopped? <==> !HasNumber(members)
  {
    var n := FindMember(members, NUM);
    OneFirst(members, NUM, n);
    if n >= 0 {
      assert FirstNamed(members, NUM, n);
    }
  }

  // ----- the round trip

  lemma {:induction false} LessAsymmetric(a: string, b: string)
    requires Less(a, b)
    ensures !Less(b, a) && a != b
  {
    if a != [] && a[0] == b[0] {
      LessAsymmetric(a[1..], b[1..]);
    }
  }

  lemma {:induction false} InsertLast(entries: seq<Entry>, key: string, value: Message)
    requires forall i | 0 <= i < |entries| :: Less(entries[i].key, key)
    ensures Insert(entries, key, value) == entries + [Entry(key, value)]
  {
    if entries != [] {
      LessAsymmetric(entries[0].key, key);
      InsertLast(entries[1..], key, value);
      assert entries == [entries[0]] + entries[1..];
    }
  }

  lemma {:induction false} InsertAllSorted(entries: seq<Entry>)
    requires Sorted(entries)
    ensures InsertAll(entries) == entries
  {
    if entries != [] {
      var init, last := entries[..|entries| - 1], entries[|entries| - 1];
      InsertAllSorted(init);
      InsertLast(init, last.key, last.value);
      assert entries == init + [last];
    }
  }

  predicate Window(buffers: seq<string>, n: nat, part: seq<string>) {
    n + |part| <= |buffers| && forall k | 0 <= k < |part| :: buffers[n + k] == part[k]
  }

  lemma {:induction false} WindowPart(buffers: seq<string>, n: nat, parts: seq<seq<string>>, i: nat)
    requires Window(buffers, n, Concat(parts)) && i < |parts|
    ensures Window(buffers, Offset(parts, i, n), parts[i])
    decreases i
  {
    var first, rest := parts[0], parts[1..];
    WindowSplit(buffers, n, first, Concat(rest));
    if i > 0 {
      WindowPart(buffers, n + |first|, rest, i - 1);
      OffsetRest(parts, i, n);
    }
  }

  lemma WindowSplit(buffers: seq<string>, n: nat, a: seq<string>, b: seq<string>)
    requires Window(buffers, n, a + b)
    ensures Window(buffers, n, a) && Window(buffers, n + |a|, b)
  {
    assert forall k | 0 <= k < |a| :: buffers[n + k] == (a + b)[k] == a[k];
    forall k | 0 <= k < |b|
      ensures buffers[n + |a| + k] == b[k]
    {
      assert buffers[n + (|a| + k)] == (a + b)[|a| + k];
    }
  }

  lemma OffsetRest(parts: seq<seq<string>>, i: nat, n: nat)
    requires 0 < i <= |parts|
    ensures Offset(parts, i, n) == Offset(parts[1..], i - 1, n + |parts[0]|)
  {
    assert parts[..i][1..] == parts[1..][..i - 1];
  }

  // Some values are read as these messages.
  predicate ReadsAs(read: seq<Reading>, messages: seq<Message>) {
    |read| == |messages| && forall i | 0 <= i < |read| :: read[i] == Read(messages[i])
  }

  lemma MessagesRead(read: seq<Reading>, messages: seq<Message>)
    ensures ReadsAs(read, messages) <==> Stopped !in read && Messages(read) == messages
  {
    if Stopped !in read && Messages(read) == messages {
      assert forall i | 0 <= i < |read| :: read[i] in read && Messages(read)[i] == messages[i];
    }
    if ReadsAs(read, messages) {
      assert Stopped !in read;
      assert forall i | 0 <= i < |read| :: Messages(read)[i] == messages[i];
    }
  }

  function Values(entries: seq<Entry>): seq<Message> {
    seq(|entries|, i requires 0 <= i < |entries| => entries[i].value)
  }

  // Reading an object that is no placeholder.
  lemma EntriesRead(entries: seq<Entry>, n: nat, read: seq<Reading>)
    requires Sorted(entries) && |read| == |entries| && Stopped !in read
    ensures InsertAll(Assignments(EntriesToJson(entries, n), Messages(read))) == entries
            <==> Messages(read) == Values(entries)
  {
    var settings := Assignments(EntriesToJson(entries, n), Messages(read));
    assert Sorted(settings);
    InsertAllSorted(settings);
    if Messages(read) == Values(entries) {
      assert forall i | 0 <= i < |entries| :: Messages(read)[i] == Values(entries)[i] == entries[i].value;
      assert settings == entries;
    }
    if settings == entries {
      assert forall i | 0 <= i < |entries| :: settings[i].value == entries[i].value;
    }
  }

  // Reading back gives the same message exactly when no object takes the placeholder key for
  // anything but false.
  lemma {:induction false} RoundTrip(m: Message, n: nat, buffers: seq<string>)
    requires Proper(m) && |buffers| < 0x8000_0000 && Window(buffers, n, Binaries(m))
    ensures FromJson(ToJson(m, n), buffers) == Read(m) <==> !Collides(m)
  {
    match m {
      case Array(items) =>
        var parts, back := ItemBinaries(items), FromItems(ItemsToJson(items, n), buffers);
        forall i | 0 <= i < |items|
          ensures back[i] == Read(items[i]) <==> !Collides(items[i])
        {
          WindowPart(buffers, n, parts, i);
          RoundTrip(items[i], Offset(parts, i, n), buffers);
        }
        MessagesRead(back, items);
      case Object(entries) =>
        var parts, back := EntryBinaries(entries), FromMembers(EntriesToJson(entries, n), buffers);
        forall i | 0 <= i < |entries|
          ensures back[i] == Read(Values(entries)[i]) <==> !Collides(entries[i].value)
        {
          WindowPart(buffers, n, parts, i);
          RoundTrip(entries[i].value, Offset(parts, i, n), buffers);
        }
        ObjectRoundTrip(entries, n, buffers);
      case Binary(data) => PlaceholderRead(data, n, buffers);
      case _ =>
    }
  }

  // Some entry has the placeholder key and not the value false.
  predicate TakesPlaceholder(entries: seq<Entry>) {
    exists i :: 0 <= i < |entries| && entries[i].key == PLACEHOLDER && entries[i].value != Bool(false)
  }

  lemma ObjectRoundTrip(entries: seq<Entry>, n: nat, buffers: seq<string>)
    requires Sorted(entries)
    requires var back := FromMembers(EntriesToJson(entries, n), buffers);
             forall i | 0 <= i < |entries| :: back[i] == Read(Values(entries)[i]) <==> !Collides(entries[i].value)
    ensures FromJson(JObject(EntriesToJson(entries, n)), buffers) == Read(Object(entries))
            <==> !Collides(Object(entries))
  {
    ObjectCollides(entries);
    if TakesPlaceholder(entries) {
      PlaceholderTaken(entries, n, buffers);
    } else {
      PlainObjectRead(entries, n, buffers);
      MessagesRead(FromMembers(EntriesToJson(entries, n), buffers), Values(entries));
    }
  }

  lemma ObjectCollides(entries: seq<Entry>)
    ensures Collides(Object(entries)) <==>
              TakesPlaceholder(entries) || exists i :: 0 <= i < |entries| && Collides(entries[i].value)
  {}

  lemma PlaceholderTaken(entries: seq<Entry>, n: nat, buffers: seq<string>)
    requires Sorted(entries) && TakesPlaceholder(entries)
    ensures FromJson(JObject(EntriesToJson(entries, n)), buffers) != Read(Object(entries))
  {
    var members := EntriesToJson(entries, n);
    ObjectRead(entries, n);
    NoObjectRead(members, buffers);
  }

  lemma NoObjectRead(members: seq<Member>, buffers: seq<string>)
    requires PlaceholderStops(members) || IsPlaceholder(members)
    ensures var r := FromJson(JObject(members), buffers); r.Stopped? || r.message.Binary? || r.message.NoMessage?
  {}

  lemma PlainObjectRead(entries: seq<Entry>, n: nat, buffers: seq<string>)
    requires Sorted(entries) && !TakesPlaceholder(entries)
    ensures var back := FromMembers(EntriesToJson(entries, n), buffers);
            FromJson(JObject(EntriesToJson(entries, n)), buffers) == Read(Object(entries)) <==>
            Stopped !in back && Messages(back) == Values(entries)
  {
    var back := FromMembers(EntriesToJson(entries, n), buffers);
    ObjectRead(entries, n);
    if Stopped !in back {
      EntriesRead(entries, n, back);
    }
  }

  lemma PlaceholderRead(data: string, n: nat, buffers: seq<string>)
    requires |buffers| < 0x8000_0000 && Window(buffers, n, [data])
    ensures FromJson(Placeholder(ToInt(n)), buffers) == Read(Binary(data))
  {
    assert buffers[n + 0] == [data][0];
    var members := Placeholder(ToInt(n)).members;
    assert |PLACEHOLDER| != |NUM|;
    assert FindMember(members, PLACEHOLDER) == 0 && FindMember(members, NUM) == 1 && members[1].value == JInt(n);
  }

  lemma OnlyBoolIsBool(m: Message, n: nat)
    ensures ToJson(m, n).JBool? <==> m.Bool?
    ensures m.Bool? ==> ToJson(m, n) == JBool(m.b)
  {}

  lemma OneKey(entries: seq<Entry>, i: nat, j: nat)
    requires Sorted(entries) && i < |entries| && j < |entries| && entries[i].key == entries[j].key
    ensures i == j
  {
    if i < j {
      LessAsymmetric(entries[i].key, entries[j].key);
    } else if j < i {
      LessAsymmetric(entries[j].key, entries[i].key);
    }
  }

  // An object stops the reader exactly when it maps the placeholder key to no boolean, and is taken
  // for a placeholder exactly when it maps it to true.
  lemma ObjectRead(entries: seq<Entry>, n: nat)
    requires Sorted(entries)
    ensures PlaceholderStops(EntriesToJson(entries, n)) <==>
              exists i :: 0 <= i < |entries| && entries[i].key == PLACEHOLDER && !entries[i].value.Bool?
    ensures IsPlaceholder(EntriesToJson(entries, n)) <==>
              exists i :: 0 <= i < |entries| && entries[i].key == PLACEHOLDER && entries[i].value == Bool(true)
    ensures PlaceholderStops(EntriesToJson(entries, n)) || IsPlaceholder(EntriesToJson(entries, n)) <==>
              TakesPlaceholder(entries)
  {
    var members := EntriesToJson(entries, n);
    var at := FindMember(members, PLACEHOLDER);
    forall i | 0 <= i < |entries| && entries[i].key == PLACEHOLDER
      ensures i == at
    {
      assert members[i].name == PLACEHOLDER;
      OneKey(entries, i, at);
    }
    if at >= 0 {
      OnlyBoolIsBool(entries[at].value, Offset(EntryBinaries(entries), at, n));
      assert members[at].value == ToJson(entries[at].value, Offset(EntryBinaries(entries), at, n));
      assert entries[at].key == PLACEHOLDER;
    }
  }

  // Two messages that do not come back. This one stops the reader.
  lemma PlaceholderStopsReader()
    ensures var m := Object([Entry(PLACEHOLDER, Str("x"))]);
            Proper(m) && Collides(m) && FromJson(ToJson(m, 0), []) == Stopped
  {
    var entries := [Entry(PLACEHOLDER, Str("x"))];
    ObjectRead(entries, 0);
    assert entries[0].key == PLACEHOLDER && !entries[0].value.Bool?;
  }

  // And this one is taken for an attachment.
  lemma PlaceholderFoolsReader(data: string)
    ensures var m := Object([Entry(PLACEHOLDER, Bool(true)), Entry(NUM, Int(0))]);
            Proper(m) && Collides(m) && FromJson(ToJson(m, 0), [data]) == Read(Binary(data))
  {
    var entries := [Entry(PLACEHOLDER, Bool(true)), Entry(NUM, Int(0))];
    assert PLACEHOLDER[0] == '_' && NUM[0] == 'n' && Less(PLACEHOLDER, NUM);
    ObjectRead(entries, 0);
    assert entries[0].key == PLACEHOLDER && entries[0].value == Bool(true);
    var members := EntriesToJson(entries, 0);
    assert members[1] == Member(NUM, ToJson(Int(0), Offset(EntryBinaries(entries), 1, 0)));
    assert FindMember(members, NUM) == 1;
    assert ReadAttachment(members, [data]) == Read(Binary(data));
  }

  // ----- rounding

  // A message with all its doubles rounded.
  function Rounded(round: FiniteDouble -> FiniteDouble, m: Message): Message
    decreases m, 1
  {
    match m
    case Double(d) => Double(round(d))
    case Array(items) => Array(RoundedItems(round, items))
    case Object(entries) => Object(RoundedEntries(round, entries))
    case _ => m
  }

  function RoundedItems(round: FiniteDouble -> FiniteDouble, items: seq<Message>): (rounded: seq<Message>)
    decreases items, 0
  {
    seq(|items|, i requires 0 <= i < |items| => Rounded(round, items[i]))
  }

  function RoundedEntries(round: FiniteDouble -> FiniteDouble, entries: seq<Entry>): (rounded: seq<Entry>)
    decreases entries, 0
  {
    seq(|entries|, i requires 0 <= i < |entries| => Entry(entries[i].key, Rounded(round, entries[i].value)))
  }

  // The same for JSON.
  function RoundedJson(round: FiniteDouble -> FiniteDouble, v: Json): Json
    decreases v, 1
  {
    match v
    case JDouble(d) => JDouble(round(d))
    case JArray(items) => JArray(RoundedJsons(round, items))
    case JObject(members) => JObject(RoundedMembers(round, members))
    case _ => v
  }

  function RoundedJsons(round: FiniteDouble -> FiniteDouble, items: seq<Json>): (rounded: seq<Json>)
    decreases items, 0
  {
    seq(|items|, i requires 0 <= i < |items| => RoundedJson(round, items[i]))
  }

  function RoundedMembers(round: FiniteDouble -> FiniteDouble, members: seq<Member>): (rounded: seq<Member>)
    decreases members, 0
  {
    seq(|members|, i requires 0 <= i < |members| => Member(members[i].name, RoundedJson(round, members[i].value)))
  }

  predicate NoDoubles(m: Message) {
    match m
    case Double(_) => false
    case Array(items) => forall i | 0 <= i < |items| :: NoDoubles(items[i])
    case Object(entries) => forall i | 0 <= i < |entries| :: NoDoubles(entries[i].value)
    case _ => true
  }

  // A message without doubles stays as it is.
  lemma {:induction false} RoundedSame(round: FiniteDouble -> FiniteDouble, m: Message)
    requires NoDoubles(m)
    ensures Rounded(round, m) == m
  {
    match m {
      case Array(items) =>
        forall i | 0 <= i < |items|
          ensures RoundedItems(round, items)[i] == items[i]
        {
          RoundedSame(round, items[i]);
        }
      case Object(entries) =>
        forall i | 0 <= i < |entries|
          ensures RoundedEntries(round, entries)[i] == entries[i]
        {
          RoundedSame(round, entries[i].value);
        }
      case _ =>
    }
  }

  // Rounding touches nothing but doubles.
  lemma {:induction false} RoundedBinaries(round: FiniteDouble -> FiniteDouble, m: Message)
    ensures Binaries(Rounded(round, m)) == Binaries(m)
  {
    match m {
      case Array(items) => RoundedItemBinaries(round, items);
      case Object(entries) => RoundedEntryBinaries(round, entries);
      case _ =>
    }
  }

  lemma RoundedItemBinaries(round: FiniteDouble -> FiniteDouble, items: seq<Message>)
    ensures ItemBinaries(RoundedItems(round, items)) == ItemBinaries(items)
  {
    forall i | 0 <= i < |items|
      ensures ItemBinaries(RoundedItems(round, items))[i] == ItemBinaries(items)[i]
    {
      RoundedBinaries(round, items[i]);
    }
  }

  lemma RoundedEntryBinaries(round: FiniteDouble -> FiniteDouble, entries: seq<Entry>)
    ensures EntryBinaries(RoundedEntries(round, entries)) == EntryBinaries(entries)
  {
    forall i | 0 <= i < |entries|
      ensures EntryBinaries(RoundedEntries(round, entries))[i] == EntryBinaries(entries)[i]
    {
      RoundedBinaries(round, entries[i].value);
    }
  }

  lemma {:induction false} RoundedProper(round: FiniteDouble -> FiniteDouble, m: Message)
    requires Proper(m)
    ensures Proper(Rounded(round, m))
  {
    match m {
      case Array(items) =>
        forall i | 0 <= i < |items|
          ensures Proper(RoundedItems(round, items)[i])
        {
          RoundedProper(round, items[i]);
        }
      case Object(entries) =>
        forall i | 0 <= i < |entries|
          ensures Proper(RoundedEntries(round, entries)[i].value)
        {
          RoundedProper(round, entries[i].value);
        }
      case _ =>
    }
  }

  lemma {:induction false} RoundedCollides(round: FiniteDouble -> FiniteDouble, m: Message)
    ensures Collides(Rounded(round, m)) <==> Collides(m)
  {
    match m {
      case Array(items) =>
        forall i | 0 <= i < |items|
          ensures Collides(RoundedItems(round, items)[i]) <==> Collides(items[i])
        {
          RoundedCollides(round, items[i]);
        }
      case Object(entries) =>
        var rounded := RoundedEntries(round, entries);
        forall i | 0 <= i < |entries|
          ensures Collides(rounded[i].value) <==> Collides(entries[i].value)
          ensures rounded[i].key == entries[i].key
          ensures rounded[i].value == Bool(false) <==> entries[i].value == Bool(false)
        {
          RoundedCollides(round, entries[i].value);
        }
        ObjectCollides(entries);
        ObjectCollides(rounded);
      case _ =>
    }
  }

  // Rounding the JSON of a message is rounding the message.
  lemma {:induction false} RoundedToJson(round: FiniteDouble -> FiniteDouble, m: Message, n: nat)
    ensures RoundedJson(round, ToJson(m, n)) == ToJson(Rounded(round, m), n)
    decreases m, 1
  {
    match m {
      case Array(items) => RoundedItemsToJson(round, items, n);
      case Object(entries) => RoundedEntriesToJson(round, entries, n);
      case Binary(_) =>
        var members := Placeholder(ToInt(n)).members;
        assert RoundedMembers(round, members) == members;
      case _ =>
    }
  }

  lemma RoundedItemsToJson(round: FiniteDouble -> FiniteDouble, items: seq<Message>, n: nat)
    ensures RoundedJsons(round, ItemsToJson(items, n)) == ItemsToJson(RoundedItems(round, items), n)
    decreases items, 0
  {
    RoundedItemBinaries(round, items);
    forall i | 0 <= i < |items|
      ensures RoundedJsons(round, ItemsToJson(items, n))[i] == ItemsToJson(RoundedItems(round, items), n)[i]
    {
      RoundedToJson(round, items[i], Offset(ItemBinaries(items), i, n));
    }
  }

  lemma RoundedEntriesToJson(round: FiniteDouble -> FiniteDouble, entries: seq<Entry>, n: nat)
    ensures RoundedMembers(round, EntriesToJson(entries, n)) == EntriesToJson(RoundedEntries(round, entries), n)
    decreases entries, 0
  {
    RoundedEntryBinaries(round, entries);
    forall i | 0 <= i < |entries|
      ensures RoundedMembers(round, EntriesToJson(entries, n))[i] == EntriesToJson(RoundedEntries(round, entries), n)[i]
    {
      RoundedToJson(round, entries[i].value, Offset(EntryBinaries(entries), i, n));
    }
  }

  // Reading back what was rounded gives the rounded message, on the same condition.
  lemma RoundedRoundTrip(round: FiniteDouble -> FiniteDouble, m: Message, buffers: seq<string>)
    requires Proper(m) && |buffers| < 0x8000_0000 && Window(buffers, 0, Binaries(m))
    ensures FromJson(RoundedJson(round, ToJson(m, 0)), buffers) == Read(Rounded(round, m)) <==> !Collides(m)
  {
    RoundedToJson(round, m, 0);
    RoundedBinaries(round, m);
    RoundedProper(round, m);
    RoundedCollides(round, m);
    RoundTrip(Rounded(round, m), 0, buffers);
  }

  // ----- placeholder numbers

  // The numbers of the placeholders in a JSON value, in traversal order.
  function Numbers(v: Json): seq<int>
  {
    match v
    case JArray(items) => Concat(seq(|items|, i requires 0 <= i < |items| => Numbers(items[i])))
    case JObject(members) =>
      if IsPlaceholder(members) then
        var num := FindMember(members, NUM);
        if num >= 0 && members[num].value.JInt? then [members[num].value.i] else []
      else Concat(seq(|members|, i requires 0 <= i < |members| => Numbers(members[i].value)))
    case _ => []
  }

  function Range(n: int, count: nat): seq<int> { seq(count, i => n + i) }

  lemma {:induction false} ConcatRanges(parts: seq<seq<string>>, ranges: seq<seq<int>>, n: nat)
    requires |ranges| == |parts|
    requires forall i | 0 <= i < |parts| :: ranges[i] == Range(Offset(parts, i, n), |parts[i]|)
    ensures Concat(ranges) == Range(n, |Concat(parts)|)
  {
    if parts != [] {
      var rest := parts[1..];
      forall i | 0 <= i < |rest|
        ensures ranges[1..][i] == Range(Offset(rest, i, n + |parts[0]|), |rest[i]|)
      {
        OffsetRest(parts, i + 1, n);
      }
      ConcatRanges(rest, ranges[1..], n + |parts[0]|);
      assert Range(n, |parts[0]|) + Range(n + |parts[0]|, |Concat(rest)|) == Range(n, |Concat(parts)|);
    }
  }

  // The placeholders are numbered in traversal order, one for each binary leaf, from the first free number on.
  lemma {:induction false} PlaceholdersNumbered(m: Message, n: nat)
    requires Proper(m) && !Collides(m) && n + |Binaries(m)| < 0x8000_0000
    ensures Numbers(ToJson(m, n)) == Range(n, |Binaries(m)|)
  {
    match m {
      case Array(items) =>
        var parts, children := ItemBinaries(items), ItemsToJson(items, n);
        var numbers := seq(|children|, i requires 0 <= i < |children| => Numbers(children[i]));
        forall i | 0 <= i < |items|
          ensures numbers[i] == Range(Offset(parts, i, n), |parts[i]|)
        {
          ConcatAround(parts, i);
          PlaceholdersNumbered(items[i], Offset(parts, i, n));
        }
        ConcatRanges(parts, numbers, n);
      case Object(entries) =>
        var parts, members := EntryBinaries(entries), EntriesToJson(entries, n);
        var numbers := seq(|members|, i requires 0 <= i < |members| => Numbers(members[i].value));
        forall i | 0 <= i < |entries|
          ensures numbers[i] == Range(Offset(parts, i, n), |parts[i]|)
        {
          ConcatAround(parts, i);
          PlaceholdersNumbered(entries[i].value, Offset(parts, i, n));
        }
        ConcatRanges(parts, numbers, n);
        ObjectRead(entries, n);
      case Binary(data) => PlaceholderRead(data, n, seq(n, _ => "") + [data]);
      case _ =>
    }
  }

  // ----- where binary leaves come from

  predicate InsertedFrom(entries: seq<Entry>, pool: seq<string>) {
    forall i, data | 0 <= i < |entries| && data in Binaries(entries[i].value) :: data in pool
  }

  lemma {:induction false} InsertFrom(entries: seq<Entry>, key: string, value: Message, pool: seq<string>)
    requires InsertedFrom(entries, pool) && forall data | data in Binaries(value) :: data in pool
    ensures InsertedFrom(Insert(entries, key, value), pool)
  {
    if entries != [] && !Less(key, entries[0].key) && entries[0].key != key {
      InsertFrom(entries[1..], key, value, pool);
    }
  }

  lemma {:induction false} InsertAllFrom(assignments: seq<Entry>, pool: seq<string>)
    requires InsertedFrom(assignments, pool)
    ensures InsertedFrom(InsertAll(assignments), pool)
  {
    if assignments != [] {
      var last := assignments[|assignments| - 1];
      InsertAllFrom(assignments[..|assignments| - 1], pool);
      InsertFrom(InsertAll(assignments[..|assignments| - 1]), last.key, last.value, pool);
    }
  }

  // The binary leaves of what was read.
  function ReadBinaries(r: Reading): seq<string> { if r.Stopped? then [] else Binaries(r.message) }

  // Every binary leaf that is read back is one of the buffers.
  lemma {:induction false} BinariesFromBuffers(v: Json, buffers: seq<string>)
    ensures forall data | data in ReadBinaries(FromJson(v, buffers)) :: data in buffers
  {
    match v {
      case JArray(items) =>
        var read := FromItems(items, buffers);
        if Stopped !in read {
          forall data | data in Concat(ItemBinaries(Messages(read)))
            ensures data in buffers
          {
            var i := ConcatMember(ItemBinaries(Messages(read)), data);
            assert read[i] in read;
            BinariesFromBuffers(items[i], buffers);
          }
        }
      case JObject(members) =>
        if !PlaceholderStops(members) && !IsPlaceholder(members) && Stopped !in FromMembers(members, buffers) {
          forall i | 0 <= i < |members|
            ensures forall data | data in ReadBinaries(FromMembers(members, buffers)[i]) :: data in buffers
          {
            BinariesFromBuffers(members[i].value, buffers);
          }
          SettingsFromBuffers(members, buffers);
        }
      case _ =>
    }
  }

  lemma SettingsFromBuffers(members: seq<Member>, buffers: seq<string>)
    requires Stopped !in FromMembers(members, buffers)
    requires forall i, data | 0 <= i < |members| && data in ReadBinaries(FromMembers(members, buffers)[i]) ::
               data in buffers
    ensures var read := FromMembers(members, buffers);
            var entries := InsertAll(Assignments(members, Messages(read)));
            forall data | data in Concat(EntryBinaries(entries)) :: data in buffers
  {
    var read := FromMembers(members, buffers);
    var settings := Assignments(members, Messages(read));
    forall i | 0 <= i < |members|
      ensures forall data | data in Binaries(settings[i].value) :: data in buffers
    {
      assert read[i] in read;
    }
    InsertAllFrom(settings, buffers);
    forall data | data in Concat(EntryBinaries(InsertAll(settings)))
      ensures data in buffers
    {
      var i := ConcatMember(EntryBinaries(InsertAll(settings)), data);
    }
  }
}
