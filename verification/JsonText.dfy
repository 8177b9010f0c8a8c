/** JSON texts by the grammar of RFC 8259, sections 2, 4, 5 and 7, and the bracket scanner on them. */
module JsonText {
  import opened ReactMachine

  /** Section 7: a character of a string, as it is written. */
  datatype StringItem =
    | Unescaped(c: char)
    | Escaped(c: char)
    | Unicode(h1: char, h2: char, h3: char, h4: char)

  datatype Value =
      /** A number or literal name: a text without quotation marks and brackets. */
    | Scalar(text: string)
    | Str(items: seq<StringItem>)
    | Arr(ws: string, elements: Elements)
    | Obj(ws: string, members: Members)

  /** Section 5: the elements of an array, each between white space, separated by commas. */
  datatype Elements = NoElement | Element(before: string, v: Value, after: string, rest: Elements)

  /** Section 4: the members of an object. */
  datatype Members =
    | NoMember
    | Member(before: string, key: seq<StringItem>, afterKey: string, beforeValue: string, v: Value,
             after: string, rest: Members)

  // ----- well-formed texts ------------------------------------------------------------------------------

  predicate IsWhite(s: string) {
    forall c :: c in s ==> c == ' ' || c == '\t' || c == '\n' || c == '\r'
  }

  predicate IsPlain(s: string) {
    forall c :: c in s ==> c != '\"' && c != '{' && c != '[' && c != '}' && c != ']'
  }

  predicate IsHex(c: char) {
    '0' <= c <= '9' || 'a' <= c <= 'f' || 'A' <= c <= 'F'
  }

  predicate WellFormedItem(i: StringItem) {
    match i
    case Unescaped(c) => c >= ' ' && c != '\"' && c != '\\'
    case Escaped(c) => c in "\"\\/bfnrt"
    case Unicode(a, b, c, d) => IsHex(a) && IsHex(b) && IsHex(c) && IsHex(d)
  }

  predicate WellFormedString(items: seq<StringItem>) {
    forall i :: i in items ==> WellFormedItem(i)
  }

  predicate WellFormed(v: Value) {
    match v
    case Scalar(text) => IsPlain(text)
    case Str(items) => WellFormedString(items)
    case Arr(ws, elements) => IsWhite(ws) && WellFormedElements(elements)
    case Obj(ws, members) => IsWhite(ws) && WellFormedMembers(members)
  }

  predicate WellFormedElements(e: Elements) {
    e.NoElement? ||
    (IsWhite(e.before) && WellFormed(e.v) && IsWhite(e.after) && WellFormedElements(e.rest))
  }

  predicate WellFormedMembers(m: Members) {
    m.NoMember? ||
    (IsWhite(m.before) && WellFormedString(m.key) && IsWhite(m.afterKey) && IsWhite(m.beforeValue) &&
     WellFormed(m.v) && IsWhite(m.after) && WellFormedMembers(m.rest))
  }

  // ----- their texts -----------------------------------------------------------------------------------------

  function ItemText(i: StringItem): string {
    match i
    case Unescaped(c) => [c]
    case Escaped(c) => ['\\', c]
    case Unicode(a, b, c, d) => ['\\', 'u', a, b, c, d]
  }

  function ItemsText(items: seq<StringItem>): string {
    if items == [] then "" else ItemText(items[0]) + ItemsText(items[1..])
  }

  function StringText(items: seq<StringItem>): string { ['\"'] + (ItemsText(items) + ['\"']) }

  function Render(v: Value): string {
    match v
    case Scalar(text) => text
    case Str(items) => StringText(items)
    case Arr(ws, elements) => "[" + (ws + (ElementsText(elements) + "]"))
    case Obj(ws, members) => "{" + (ws + (MembersText(members) + "}"))
  }

  function ElementsText(e: Elements): string {
    if e.NoElement? then ""
    else e.before + (Render(e.v) + (e.after + if e.rest.NoElement? then "" else "," + ElementsText(e.rest)))
  }

  function MembersText(m: Members): string {
    if m.NoMember? then ""
    else m.before + (StringText(m.key) + (m.afterKey + (":" + (m.beforeValue + (Render(m.v) +
         (m.after + if m.rest.NoMember? then "" else "," + MembersText(m.rest)))))))
  }

  // ----- the scanner -----------------------------------------------------------------------------------------

  /** Scan until the outermost bracket closes; the second result is the text that was not read. */
  function Scan(j: Json, s: string): (Json, string)
    decreases |s|
  {
    if s == "" || j.stack == "" then (j, s) else Scan(JsonStep(j, s[0]), s[1..])
  }

  predicate Outside(j: Json) { j.stack != "" && !j.inString && !j.escape }

  function Grown(j: Json, s: string): Json { j.(cache := j.cache + s) }

  lemma GrownTwice(j: Json, a: string, b: string)
    ensures Grown(Grown(j, a), b) == Grown(j, a + b) && Grown(j, "") == j
  {
    assert (j.cache + a) + b == j.cache + (a + b);
    assert j.cache + "" == j.cache;
  }

  /** Whatever follows, `s` is added to the blob and leaves the scanner as it is. */
  ghost predicate Reads(j: Json, s: string) {
    forall rest :: Scan(j, s + rest) == Scan(Grown(j, s), rest)
  }

  lemma ReadsNothing(j: Json)
    ensures Reads(j, "")
  {
    GrownTwice(j, "", "");
    assert forall rest: string :: "" + rest == rest;
  }

  lemma ReadsConcat(j: Json, a: string, b: string)
    requires Reads(j, a) && Reads(Grown(j, a), b)
    ensures Reads(j, a + b)
  {
    GrownTwice(j, a, b);
    forall rest ensures Scan(j, (a + b) + rest) == Scan(Grown(j, a + b), rest) {
      assert (a + b) + rest == a + (b + rest);
    }
  }

  lemma ScanOne(j: Json, c: char, rest: string)
    requires j.stack != ""
    ensures Scan(j, [c] + rest) == Scan(JsonStep(j, c), rest)
  {
    assert ([c] + rest)[1..] == rest;
  }

  lemma ReadsOne(j: Json, c: char)
    requires j.stack != "" && JsonStep(j, c) == Grown(j, [c])
    ensures Reads(j, [c])
  {
    forall rest ensures Scan(j, [c] + rest) == Scan(Grown(j, [c]), rest) {
      ScanOne(j, c, rest);
    }
  }

  lemma {:induction false} ReadsPlain(j: Json, s: string)
    requires Outside(j) && IsPlain(s)
    ensures Reads(j, s)
    decreases |s|
  {
    if s == "" {
      ReadsNothing(j);
    } else {
      assert s[0] in s && forall c :: c in s[1..] ==> c in s;
      ReadsOne(j, s[0]);
      ReadsPlain(Grown(j, [s[0]]), s[1..]);
      ReadsConcat(j, [s[0]], s[1..]);
      assert [s[0]] + s[1..] == s;
    }
  }

  // ----- strings ------------------------------------------------------------------------------------------

  predicate InString(j: Json) { j.stack != "" && j.inString && !j.escape }

  lemma ReadsEscape(j: Json, c: char)
    requires InString(j)
    ensures Reads(j, ['\\', c])
  {
    forall rest ensures Scan(j, ['\\', c] + rest) == Scan(Grown(j, ['\\', c]), rest) {
      assert ['\\', c] + rest == ['\\'] + ([c] + rest);
      ScanOne(j, '\\', [c] + rest);
      ScanOne(JsonStep(j, '\\'), c, rest);
      GrownTwice(j, ['\\'], [c]);
      assert ['\\'] + [c] == ['\\', c];
    }
  }

  lemma ReadsHex(j: Json, a: char, b: char)
    requires InString(j) && IsHex(a) && IsHex(b)
    ensures Reads(j, [a, b])
  {
    ReadsOne(j, a);
    ReadsOne(Grown(j, [a]), b);
    ReadsConcat(j, [a], [b]);
    assert [a] + [b] == [a, b];
  }

  lemma ReadsItem(j: Json, i: StringItem)
    requires InString(j) && WellFormedItem(i)
    ensures Reads(j, ItemText(i))
  {
    match i
    case Unescaped(c) => ReadsOne(j, c);
    case Escaped(c) => ReadsEscape(j, c);
    case Unicode(a, b, c, d) =>
      ReadsEscape(j, 'u');
      ReadsHex(Grown(j, ['\\', 'u']), a, b);
      ReadsConcat(j, ['\\', 'u'], [a, b]);
      ReadsHex(Grown(j, ['\\', 'u'] + [a, b]), c, d);
      ReadsConcat(j, ['\\', 'u'] + [a, b], [c, d]);
      assert ['\\', 'u'] + [a, b] + [c, d] == ItemText(i);
  }

  lemma {:induction false} ReadsItems(j: Json, items: seq<StringItem>)
    requires InString(j) && WellFormedString(items)
    ensures Reads(j, ItemsText(items))
    decreases |items|
  {
    if items == [] {
      ReadsNothing(j);
    } else {
      ReadsItem(j, items[0]);
      ReadsItems(Grown(j, ItemText(items[0])), items[1..]);
      ReadsConcat(j, ItemText(items[0]), ItemsText(items[1..]));
    }
  }

  lemma ReadsString(j: Json, items: seq<StringItem>)
    requires Outside(j) && WellFormedString(items)
    ensures Reads(j, StringText(items))
  {
    var inner := ItemsText(items);
    var k := JsonStep(j, '\"');
    ReadsItems(k, items);
    forall rest ensures Scan(j, StringText(items) + rest) == Scan(Grown(j, StringText(items)), rest) {
      assert StringText(items) + rest == ['\"'] + (inner + (['\"'] + rest));
      ScanOne(j, '\"', inner + (['\"'] + rest));
      ScanOne(Grown(k, inner), '\"', rest);
      assert JsonStep(Grown(k, inner), '\"').cache == j.cache + StringText(items);
    }
  }

  // ----- values ---------------------------------------------------------------------------------------------

  /** The scanner inside one more bracket of kind `c`. */
  function Pushed(j: Json, c: char): Json { Json(j.cache + [c], j.stack + [Closer(c)], false, false) }

  lemma ReadsBracket(j: Json, c: char, body: string)
    requires Outside(j) && Opens(c) && Reads(Pushed(j, c), body)
    ensures Reads(j, [c] + (body + [Closer(c)]))
  {
    var text := [c] + (body + [Closer(c)]);
    var k := Grown(Pushed(j, c), body);
    assert k.stack[..|k.stack|-1] == j.stack;
    assert k.cache + [Closer(c)] == j.cache + text;
    assert JsonStep(k, Closer(c)) == Grown(j, text);
    assert JsonStep(j, c) == Pushed(j, c);
    forall rest ensures Scan(j, text + rest) == Scan(Grown(j, text), rest) {
      assert text + rest == [c] + (body + ([Closer(c)] + rest));
      ScanOne(j, c, body + ([Closer(c)] + rest));
      ScanOne(k, Closer(c), rest);
    }
  }

  lemma WhiteIsPlain(s: string)
    requires IsWhite(s)
    ensures IsPlain(s)
  {
  }

  /** Inside a bracket, a whole value is added to the blob and leaves the scanner as it is. */
  lemma {:induction false} ReadsValue(j: Json, v: Value)
    requires Outside(j) && WellFormed(v)
    ensures Reads(j, Render(v))
    decreases v, 1
  {
    match v
    case Scalar(text) => ReadsPlain(j, text);
    case Str(items) => ReadsString(j, items);
    case Arr(ws, elements) =>
      ReadsBody(Pushed(j, '['), v);
      ReadsBracket(j, '[', Body(v));
      assert Render(v) == ['['] + (Body(v) + [']']);
    case Obj(ws, members) =>
      ReadsBody(Pushed(j, '{'), v);
      ReadsBracket(j, '{', Body(v));
      assert Render(v) == ['{'] + (Body(v) + ['}']);
  }

  /** What an array or object has between its brackets. */
  function Body(v: Value): string
    requires v.Arr? || v.Obj?
  {
    v.ws + if v.Arr? then ElementsText(v.elements) else MembersText(v.members)
  }

  lemma {:induction false} ReadsBody(j: Json, v: Value)
    requires Outside(j) && WellFormed(v) && (v.Arr? || v.Obj?)
    ensures Reads(j, Body(v))
    decreases v, 0
  {
    WhiteIsPlain(v.ws);
    ReadsPlain(j, v.ws);
    if v.Arr? {
      ReadsElements(Grown(j, v.ws), v.elements);
      ReadsConcat(j, v.ws, ElementsText(v.elements));
    } else {
      ReadsMembers(Grown(j, v.ws), v.members);
      ReadsConcat(j, v.ws, MembersText(v.members));
    }
  }

  /** A value between white space. */
  lemma {:induction false} ReadsPadded(j: Json, before: string, v: Value, after: string)
    requires Outside(j) && IsWhite(before) && WellFormed(v) && IsWhite(after)
    ensures Reads(j, before + (Render(v) + after))
    decreases v, 2
  {
    WhiteIsPlain(before);
    WhiteIsPlain(after);
    ReadsPlain(j, before);
    ReadsValue(Grown(j, before), v);
    ReadsPlain(Grown(Grown(j, before), Render(v)), after);
    ReadsConcat(Grown(j, before), Render(v), after);
    ReadsConcat(j, before, Render(v) + after);
  }

  lemma {:induction false} ReadsElements(j: Json, e: Elements)
    requires Outside(j) && WellFormedElements(e)
    ensures Reads(j, ElementsText(e))
    decreases e, 0
  {
    if e.NoElement? {
      ReadsNothing(j);
    } else {
      var head := e.before + (Render(e.v) + e.after);
      ReadsPadded(j, e.before, e.v, e.after);
      if e.rest.NoElement? {
        assert ElementsText(e) == head;
      } else {
        var k := Grown(j, head);
        ReadsOne(k, ',');
        ReadsElements(Grown(k, [',']), e.rest);
        ReadsConcat(k, [','], ElementsText(e.rest));
        ReadsConcat(j, head, [','] + ElementsText(e.rest));
        assert ElementsText(e) == head + ([','] + ElementsText(e.rest));
      }
    }
  }

  /** The key of a member, up to and including the colon. */
  function KeyText(m: Members): string
    requires m.Member?
  {
    m.before + (StringText(m.key) + (m.afterKey + ":"))
  }

  lemma ReadsKey(j: Json, m: Members)
    requires Outside(j) && m.Member? && WellFormedMembers(m)
    ensures Reads(j, KeyText(m))
  {
    var k := Grown(j, m.before);
    WhiteIsPlain(m.before);
    ReadsPlain(j, m.before);
    ReadsString(k, m.key);
    ReadsPlain(Grown(k, StringText(m.key)), m.afterKey + ":");
    ReadsConcat(k, StringText(m.key), m.afterKey + ":");
    ReadsConcat(j, m.before, StringText(m.key) + (m.afterKey + ":"));
  }

  lemma MemberText(m: Members)
    requires m.Member?
    ensures MembersText(m) ==
            (KeyText(m) + (m.beforeValue + (Render(m.v) + m.after))) +
            (if m.rest.NoMember? then "" else [','] + MembersText(m.rest))
  {
  }

  lemma {:induction false} ReadsMembers(j: Json, m: Members)
    requires Outside(j) && WellFormedMembers(m)
    ensures Reads(j, MembersText(m))
    decreases m, 0
  {
    if m.NoMember? {
      ReadsNothing(j);
    } else {
      var value := m.beforeValue + (Render(m.v) + m.after);
      var head := KeyText(m) + value;
      MemberText(m);
      ReadsKey(j, m);
      ReadsPadded(Grown(j, KeyText(m)), m.beforeValue, m.v, m.after);
      ReadsConcat(j, KeyText(m), value);
      if m.rest.NoMember? {
        assert head + "" == head;
      } else {
        var k := Grown(j, head);
        ReadsOne(k, ',');
        ReadsMembers(Grown(k, [',']), m.rest);
        ReadsConcat(k, [','], MembersText(m.rest));
        ReadsConcat(j, head, [','] + MembersText(m.rest));
      }
    }
  }

  /** Entered at its opening bracket, the scanner closes exactly at the last character of an object or
      array text, having collected that text, whatever follows. */
  lemma ScanIsExact(v: Value, rest: string)
    requires WellFormed(v) && (v.Arr? || v.Obj?)
    ensures Opens(Render(v)[0])
    ensures Scan(JsonOpen(Render(v)[0]), Render(v)[1..] + rest) == (Json(Render(v), "", false, false), rest)
  {
    var c := if v.Arr? then '[' else '{';
    var j := JsonOpen(c);
    assert Render(v) == [c] + (Body(v) + [Closer(c)]);
    assert Render(v)[1..] + rest == Body(v) + ([Closer(c)] + rest);
    ReadsBody(j, v);
    var k := Grown(j, Body(v));
    ScanOne(k, Closer(c), rest);
    assert k.stack[..|k.stack|-1] == "";
    assert JsonStep(k, Closer(c)).cache == Render(v);
  }
}
