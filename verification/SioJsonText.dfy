// A JSON text that can be read back, to show that what is asked of JSON text can be met.
module SioJsonText {
  import opened Texts
  import opened SioMessages
  import opened SioPackets

  function Counted(n: nat, rest: string): string { Decimal(n) + (";" + rest) }

  // Text that no text of another value starts with.
  function Write(v: Json): string
    decreases v, 1
  {
    match v
    case JNull => "n"
    case JBool(b) => if b then "t" else "f"
    case JInt(i) => (if i < 0 then "-" else "+") + Counted(if i < 0 then -i else i, "")
    case JDouble(d) => "." + Counted(d, "")
    case JString(s) => ['"'] + Counted(|s|, s)
    case JArray(items) => "[" + Counted(|items|, WriteItems(items))
    case JObject(members) => "{" + Counted(|members|, WriteMembers(members))
  }

  function WriteItems(items: seq<Json>): string
    decreases items, 0
  {
    if items == [] then "" else Write(items[0]) + WriteItems(items[1..])
  }

  function WriteMembers(members: seq<Member>): string
    decreases members, 0
  {
    if members == [] then ""
    else Counted(|members[0].name|, members[0].name) + (Write(members[0].value) + WriteMembers(members[1..]))
  }

  lemma CountedUnique(n: nat, r: string, m: nat, s: string)
    requires Counted(n, r) == Counted(m, s)
    ensures n == m && r == s
  {
    LeadingDigitsStop(Decimal(n), ";" + r);
    LeadingDigitsStop(Decimal(m), ";" + s);
    DecimalValue(n);
    DecimalValue(m);
    TailUnique(Decimal(n), ";" + r, ";" + s);
    assert (";" + r)[1..] == r && (";" + s)[1..] == s;
  }

  lemma TailUnique(a: string, r: string, s: string)
    requires a + r == a + s
    ensures r == s
  {
    assert (a + r)[|a|..] == r && (a + s)[|a|..] == s;
  }

  lemma PartUnique(a: string, r: string, b: string, s: string)
    requires |a| == |b| && a + r == b + s
    ensures a == b && r == s
  {
    assert (a + r)[..|a|] == a && (b + s)[..|a|] == b;
    TailUnique(a, r, s);
  }

  lemma CountedAppend(n: nat, r: string, t: string)
    ensures Counted(n, r) + t == Counted(n, r + t)
  {}

  // The mark of a value, and the rest of its text.
  function Mark(v: Json): char {
    match v
    case JNull => 'n'
    case JBool(b) => if b then 't' else 'f'
    case JInt(i) => if i < 0 then '-' else '+'
    case JDouble(_) => '.'
    case JString(_) => '"'
    case JArray(_) => '['
    case JObject(_) => '{'
  }

  function Body(v: Json): string {
    match v
    case JNull => ""
    case JBool(_) => ""
    case JInt(i) => Counted(if i < 0 then -i else i, "")
    case JDouble(d) => Counted(d, "")
    case JString(s) => Counted(|s|, s)
    case JArray(items) => Counted(|items|, WriteItems(items))
    case JObject(members) => Counted(|members|, WriteMembers(members))
  }

  lemma WriteParts(v: Json, t: string)
    ensures Write(v) + t == [Mark(v)] + (Body(v) + t)
  {}

  // The text of a value says where it ends and which value it is.
  lemma {:induction false} WriteUnique(v: Json, t: string, w: Json, u: string)
    requires Write(v) + t == Write(w) + u
    ensures v == w && t == u
    decreases v, 1
  {
    WriteParts(v, t);
    WriteParts(w, u);
    PartUnique([Mark(v)], Body(v) + t, [Mark(w)], Body(w) + u);
    match v {
      case JNull => PartUnique("", t, "", u);
      case JBool(_) => PartUnique("", t, "", u);
      case JInt(i) =>
        BodyUnique(if i < 0 then -i else i, "", t, if w.i < 0 then -w.i else w.i, "", u);
      case JDouble(d) => BodyUnique(d, "", t, w.d, "", u);
      case JString(s) =>
        BodyUnique(|s|, s, t, |w.s|, w.s, u);
        PartUnique(s, t, w.s, u);
      case JArray(items) =>
        BodyUnique(|items|, WriteItems(items), t, |w.items|, WriteItems(w.items), u);
        ItemsUnique(items, t, w.items, u);
      case JObject(members) =>
        BodyUnique(|members|, WriteMembers(members), t, |w.members|, WriteMembers(w.members), u);
        MembersUnique(members, t, w.members, u);
    }
  }

  lemma BodyUnique(n: nat, r: string, t: string, m: nat, s: string, u: string)
    requires Counted(n, r) + t == Counted(m, s) + u
    ensures n == m && r + t == s + u
    ensures r == s == "" ==> t == u
  {
    CountedAppend(n, r, t);
    CountedAppend(m, s, u);
    CountedUnique(n, r + t, m, s + u);
    assert r == "" ==> r + t == t;
    assert s == "" ==> s + u == u;
  }

  lemma {:induction false} ItemsUnique(xs: seq<Json>, t: string, ys: seq<Json>, u: string)
    requires |xs| == |ys| && WriteItems(xs) + t == WriteItems(ys) + u
    ensures xs == ys && t == u
    decreases xs, 0
  {
    if xs == [] {
      PartUnique("", t, "", u);
    } else {
      var r, s := WriteItems(xs[1..]), WriteItems(ys[1..]);
      assert Write(xs[0]) + r + t == Write(xs[0]) + (r + t) && Write(ys[0]) + s + u == Write(ys[0]) + (s + u);
      WriteUnique(xs[0], r + t, ys[0], s + u);
      ItemsUnique(xs[1..], t, ys[1..], u);
      assert xs == [xs[0]] + xs[1..] && ys == [ys[0]] + ys[1..];
    }
  }

  lemma {:induction false} MembersUnique(xs: seq<Member>, t: string, ys: seq<Member>, u: string)
    requires |xs| == |ys| && WriteMembers(xs) + t == WriteMembers(ys) + u
    ensures xs == ys && t == u
    decreases xs, 0
  {
    if xs == [] {
      PartUnique("", t, "", u);
    } else {
      var x, y := xs[0], ys[0];
      var r, s := WriteMembers(xs[1..]), WriteMembers(ys[1..]);
      MemberText(x, r, t);
      MemberText(y, s, u);
      CountedUnique(|x.name|, x.name + (Write(x.value) + (r + t)), |y.name|, y.name + (Write(y.value) + (s + u)));
      PartUnique(x.name, Write(x.value) + (r + t), y.name, Write(y.value) + (s + u));
      WriteUnique(x.value, r + t, y.value, s + u);
      MembersUnique(xs[1..], t, ys[1..], u);
      assert xs == [x] + xs[1..] && ys == [y] + ys[1..];
    }
  }

  lemma MemberText(x: Member, r: string, t: string)
    ensures Counted(|x.name|, x.name) + (Write(x.value) + r) + t
            == Counted(|x.name|, x.name + (Write(x.value) + (r + t)))
  {
    var w := Write(x.value);
    CountedAppend(|x.name|, x.name, w + r + t);
    assert w + r + t == w + (r + t);
    assert Counted(|x.name|, x.name) + (w + r) + t == Counted(|x.name|, x.name) + (w + r + t);
  }

  // The value with this text.
  ghost function ValueOf(s: string): Json {
    if exists v :: Write(v) == s then var v :| Write(v) == s; v else JNull
  }

  lemma {:induction false} DecimalUnmarked(n: nat)
    ensures Unmarked(Decimal(n))
  {}

  lemma ScalarUnmarked(v: Json)
    requires !v.JObject? && !v.JArray? && !v.JString?
    ensures Unmarked(Write(v))
  {
    match v {
      case JInt(i) => DecimalUnmarked(if i < 0 then -i else i);
      case JDouble(d) => DecimalUnmarked(d);
      case _ =>
    }
  }

  // However doubles are rounded, some JSON text meets all that the other modules ask for.
  lemma FaithfulExists(round: FiniteDouble -> FiniteDouble) returns (json: JsonText)
    ensures Faithful(json) && json.round == round
  {
    json := JsonText(Write, s => RoundedJson(round, ValueOf(s)), round);
    forall v: Json
      ensures json.read(json.write(v)) == RoundedJson(round, v)
      ensures !v.JObject? && !v.JArray? && !v.JString? ==> Unmarked(json.write(v))
    {
      var w := ValueOf(Write(v));
      assert Write(w) == Write(v);
      WriteUnique(v, "", w, "");
      if !v.JObject? && !v.JArray? && !v.JString? {
        ScalarUnmarked(v);
      }
    }
  }
}
