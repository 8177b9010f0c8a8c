/** The override lines a configuration is serialized into, and the configuration read back from them. */
module ConfigText {
  import opened ConfigTree

  // ----- lines -----------------------------------------------------------------------------------------------------

  function Step(prefix: string, key: string): string {
    if prefix == "" then key else prefix + "." + key
  }

  function Extend(prefix: string, path: seq<string>): string
    decreases |path|
  {
    if path == [] then prefix else Extend(Step(prefix, path[0]), path[1..])
  }

  /** An object is written out only if it is empty. */
  function Text(v: Value): string {
    if v.Leaf? then v.text else "{}"
  }

  function Line(prefix: string, o: Out): string {
    Extend(prefix, o.path) + "=" + Text(o.value)
  }

  function Lines(prefix: string, outs: seq<Out>): (r: seq<string>)
    ensures |r| == |outs| && forall i :: 0 <= i < |r| ==> r[i] == Line(prefix, outs[i])
  {
    seq(|outs|, i requires 0 <= i < |outs| => Line(prefix, outs[i]))
  }

  // ----- reading back ----------------------------------------------------------------------------------------------

  /** The keys of a dotted path. */
  function Split(s: string): (r: seq<string>)
    ensures r != []
  {
    if s == "" then [""]
    else if s[0] == '.' then [""] + Split(s[1..])
    else var r := Split(s[1..]); [[s[0]] + r[0]] + r[1..]
  }

  /** The texts before and behind the first equals sign. */
  function Cut(s: string): (string, string) {
    if s == "" then ("", "")
    else if s[0] == '=' then ("", s[1..])
    else var (a, b) := Cut(s[1..]); ([s[0]] + a, b)
  }

  function ReadLine(s: string): Out {
    var (path, text) := Cut(s);
    Out(Split(path), if text == "{}" then Object(Nil) else Leaf(text))
  }

  function ReadLines(lines: seq<string>): (r: seq<Out>)
    ensures |r| == |lines| && forall i :: 0 <= i < |r| ==> r[i] == ReadLine(lines[i])
  {
    seq(|lines|, i requires 0 <= i < |lines| => ReadLine(lines[i]))
  }

  function ReadBack(lines: seq<string>): Value {
    PutAll(Object(Nil), ReadLines(lines))
  }

  /** A key that survives the dotted form. */
  predicate Plain(key: string) {
    '.' !in key && '=' !in key
  }

  predicate PlainKeys(v: Value) {
    v.Object? ==> PlainFields(v.fields)
  }

  predicate PlainFields(fs: Fields) {
    fs.Cons? ==> Plain(fs.key) && PlainKeys(fs.value) && PlainFields(fs.rest)
  }

  lemma {:induction false} SplitAppends(s: string, key: string)
    requires '.' !in key
    ensures Split(key) == [key]
    ensures Split(s + "." + key) == Split(s) + [key]
    decreases |s| + |key|
  {
    if key != "" {
      SplitAppends("", key[1..]);
      assert [key[0]] + key[1..] == key;
    }
    var t := s + "." + key;
    if s == "" {
      assert t[0] == '.' && t[1..] == key;
    } else {
      assert t[0] == s[0] && t[1..] == s[1..] + "." + key;
      SplitAppends(s[1..], key);
    }
  }

  lemma AppendFirst<T>(a: seq<T>, p: seq<T>)
    requires p != []
    ensures a + [p[0]] + p[1..] == a + p
  {
  }

  lemma {:induction false} SplitExtends(prefix: string, path: seq<string>)
    requires prefix != "" && forall k :: k in path ==> Plain(k)
    ensures Split(Extend(prefix, path)) == Split(prefix) + path
    decreases |path|
  {
    if path != [] {
      assert path[0] in path && forall k :: k in path[1..] ==> k in path;
      hide Split;
      SplitAppends(prefix, path[0]);
      SplitExtends(Step(prefix, path[0]), path[1..]);
      AppendFirst(Split(prefix), path);
    }
  }

  lemma {:induction false} ExtendHasNoEquals(prefix: string, path: seq<string>)
    requires '=' !in prefix && forall k :: k in path ==> Plain(k)
    ensures '=' !in Extend(prefix, path)
    decreases |path|
  {
    if path != [] {
      assert path[0] in path && forall k :: k in path[1..] ==> k in path;
      ExtendHasNoEquals(Step(prefix, path[0]), path[1..]);
    }
  }

  lemma {:induction false} CutsAtEquals(a: string, b: string)
    requires '=' !in a
    ensures Cut(a + "=" + b) == (a, b)
  {
    var s := a + "=" + b;
    if a == "" {
      assert s[1..] == b;
    } else {
      assert s[0] == a[0] && s[1..] == a[1..] + "=" + b;
      CutsAtEquals(a[1..], b);
      assert [a[0]] + a[1..] == a;
    }
  }

  /** A value that is pushed as it is: an empty object or a leaf. */
  predicate Written(v: Value) {
    v == Object(Nil) || v.Leaf?
  }

  /** A line is read back as what was written. */
  lemma LineRoundTrip(o: Out)
    requires o.path != [] && o.path[0] != "" && Written(o.value) && forall k :: k in o.path ==> Plain(k)
    ensures ReadLine(Line("", o)) == o
  {
    var k, rest := o.path[0], o.path[1..];
    assert k in o.path && forall x :: x in rest ==> x in o.path;
    ExtendHasNoEquals(k, rest);
    CutsAtEquals(Extend(k, rest), Text(o.value));
    SplitAppends("", k);
    SplitExtends(k, rest);
    assert [k] + rest == o.path;
  }

  // ----- what the serializer accepts -------------------------------------------------------------------------------

  /** Every key is non-empty, also that of an undefined entry, and every defined value has TOML text. */
  predicate Accepted(v: Value) {
    match v
    case Object(fs) => AcceptedFields(fs)
    case Leaf(_) => true
    case Undefined => true
    case Unsupported => false
  }

  predicate AcceptedFields(fs: Fields) {
    fs.Cons? ==> fs.key != "" && Accepted(fs.value) && AcceptedFields(fs.rest)
  }

  lemma {:induction false} AcceptedIsSupported(v: Value)
    requires Accepted(v)
    ensures Supported(v)
    decreases v, 1
  {
    if v.Object? {
      AcceptedFieldsAreSupported(v.fields);
    }
  }

  lemma {:induction false} AcceptedFieldsAreSupported(fs: Fields)
    requires AcceptedFields(fs)
    ensures SupportedFields(fs)
    decreases fs, 0
  {
    if fs.Cons? {
      AcceptedIsSupported(fs.value);
      AcceptedFieldsAreSupported(fs.rest);
    }
  }

  /** Readable after the key it stands under. */
  ghost predicate Readable(o: Out) {
    Written(o.value) && forall k :: k in o.path ==> Plain(k) && k != ""
  }

  lemma {:induction false} PlainTreesAreReadable(v: Value)
    requires Accepted(v) && PlainKeys(Defined(v))
    ensures forall o :: o in Emit(v) ==> Readable(o)
    decreases v, 1
  {
    if v.Object? && v.fields.Cons? {
      PlainFieldsAreReadable(v.fields);
    }
  }

  lemma {:induction false} PlainFieldsAreReadable(fs: Fields)
    requires AcceptedFields(fs) && PlainFields(DefinedFields(fs))
    ensures forall o :: o in EmitFields(fs) ==> Readable(o)
    decreases fs, 0
  {
    if fs.Cons? {
      PlainFieldsAreReadable(fs.rest);
      if !fs.value.Undefined? {
        PlainTreesAreReadable(fs.value);
        var outs := Emit(fs.value);
        forall o | o in Under(fs.key, outs) ensures Readable(o) {
          var i :| 0 <= i < |outs| && o == Under(fs.key, outs)[i];
          assert Readable(outs[i]);
        }
      }
    }
  }

  // ----- keys that are read back are plain -------------------------------------------------------------------------

  lemma {:induction false} CutHasNoEquals(s: string)
    ensures '=' !in Cut(s).0 && forall c :: c in Cut(s).0 ==> c in s
  {
    if s != "" && s[0] != '=' {
      CutHasNoEquals(s[1..]);
    }
  }

  lemma {:induction false} SplitHasNoDots(s: string)
    requires '=' !in s
    ensures forall k :: k in Split(s) ==> Plain(k)
  {
    if s != "" {
      SplitHasNoDots(s[1..]);
      var r := Split(s[1..]);
      assert r[0] in r && forall k :: k in r[1..] ==> k in r;
    }
  }

  lemma {:induction false} PutKeepsPlain(v: Value, path: seq<string>, leaf: Value)
    requires PlainKeys(v) && PlainKeys(leaf) && forall k :: k in path ==> Plain(k)
    ensures PlainKeys(Put(v, path, leaf))
    decreases |path|, 1, Nil
  {
    if path != [] {
      InsertKeepsPlain(if v.Object? then v.fields else Nil, path, leaf);
    }
  }

  lemma {:induction false} InsertKeepsPlain(fs: Fields, path: seq<string>, leaf: Value)
    requires path != [] && PlainFields(fs) && PlainKeys(leaf) && forall k :: k in path ==> Plain(k)
    ensures PlainFields(Insert(fs, path, leaf))
    decreases |path|, 0, fs
  {
    assert path[0] in path && forall k :: k in path[1..] ==> k in path;
    if fs.Nil? {
      PutKeepsPlain(Undefined, path[1..], leaf);
    } else if fs.key == path[0] {
      PutKeepsPlain(fs.value, path[1..], leaf);
    } else {
      InsertKeepsPlain(fs.rest, path, leaf);
    }
  }

  lemma {:induction false} PutAllKeepsPlain(v: Value, outs: seq<Out>)
    requires PlainKeys(v)
    requires forall o :: o in outs ==> PlainKeys(o.value) && forall k :: k in o.path ==> Plain(k)
    ensures PlainKeys(PutAll(v, outs))
    decreases |outs|
  {
    if outs != [] {
      assert outs[0] in outs && forall o :: o in outs[1..] ==> o in outs;
      PutKeepsPlain(v, outs[0].path, outs[0].value);
      PutAllKeepsPlain(Put(v, outs[0].path, outs[0].value), outs[1..]);
    }
  }

  lemma ReadBackIsPlain(lines: seq<string>)
    ensures PlainKeys(ReadBack(lines))
  {
    forall o | o in ReadLines(lines) ensures PlainKeys(o.value) && forall k :: k in o.path ==> Plain(k) {
      var i :| 0 <= i < |lines| && o == ReadLines(lines)[i];
      CutHasNoEquals(lines[i]);
      SplitHasNoDots(Cut(lines[i]).0);
    }
    PutAllKeepsPlain(Object(Nil), ReadLines(lines));
  }

  // ----- the round trip --------------------------------------------------------------------------------------------

  /** With plain keys, reading the lines back gives what is kept of the tree, in the order of its entries. */
  lemma PlainRoundTrip(fs: Fields)
    requires AcceptedFields(fs) && DistinctFields(fs) && PlainFields(DefinedFields(fs))
    ensures ReadBack(Lines("", EmitFields(fs))) == Object(KeptFields(fs))
  {
    var outs := EmitFields(fs);
    PlainFieldsAreReadable(fs);
    PathsBegin(fs);
    forall i | 0 <= i < |outs| ensures ReadLines(Lines("", outs))[i] == outs[i] {
      assert outs[i] in outs && Readable(outs[i]);
      assert outs[i].path[0] in outs[i].path;
      LineRoundTrip(outs[i]);
    }
    assert ReadLines(Lines("", outs)) == outs;
    AcceptedFieldsAreSupported(fs);
    RebuildsFields(Nil, fs);
  }

  /** Reading the lines back loses nothing but undefined entries exactly if every key of a defined entry is free
      of dots and equals signs and no nested object consists of nothing but such entries. */
  lemma RoundTripExactlyWhen(fs: Fields)
    requires AcceptedFields(fs) && DistinctFields(fs)
    ensures ReadBack(Lines("", EmitFields(fs))) == Object(DefinedFields(fs)) <==>
            PlainFields(DefinedFields(fs)) && !HasHollow(fs)
  {
    KeptIsDefinedExactlyWhen(fs);
    ReadBackIsPlain(Lines("", EmitFields(fs)));
    if PlainFields(DefinedFields(fs)) {
      PlainRoundTrip(fs);
    }
  }

  /** With plain keys, distinct entries are written to distinct lines' paths, so that no line overrides another. */
  lemma LinesDoNotOverride(fs: Fields, i: nat, j: nat)
    requires AcceptedFields(fs) && DistinctFields(fs) && PlainFields(DefinedFields(fs))
    requires i < j < |EmitFields(fs)|
    ensures var a, b := ReadLine(Lines("", EmitFields(fs))[i]).path, ReadLine(Lines("", EmitFields(fs))[j]).path;
            !(a <= b) && !(b <= a)
  {
    var outs := EmitFields(fs);
    PlainFieldsAreReadable(fs);
    PathsBegin(fs);
    assert outs[i] in outs && outs[j] in outs && Readable(outs[i]) && Readable(outs[j]);
    assert outs[i].path[0] in outs[i].path && outs[j].path[0] in outs[j].path;
    LineRoundTrip(outs[i]);
    LineRoundTrip(outs[j]);
    FieldPathsAreApart(fs);
  }

  // ----- the serializer --------------------------------------------------------------------------------------------

  lemma LinesUnder(prefix: string, k: string, outs: seq<Out>)
    ensures Lines(prefix, Under(k, outs)) == Lines(Step(prefix, k), outs)
  {
    forall i | 0 <= i < |outs| ensures Lines(prefix, Under(k, outs))[i] == Lines(Step(prefix, k), outs)[i] {
      var path := [k] + outs[i].path;
      assert path[1..] == outs[i].path;
    }
  }

  lemma LinesJoin(prefix: string, a: seq<Out>, b: seq<Out>)
    ensures Lines(prefix, a + b) == Lines(prefix, a) + Lines(prefix, b)
  {
  }

  /** The lines of the entries of a nested value, or of the root if the prefix is empty. */
  function ValueLines(prefix: string, v: Value): seq<string> {
    if v.Object? && prefix == "" then Lines("", EmitFields(v.fields)) else Lines(prefix, Emit(v))
  }

  lemma LinesOfOne(prefix: string, v: Value)
    requires Written(v)
    ensures Lines(prefix, Emit(v)) == [prefix + "=" + Text(v)]
  {
  }

  lemma NoLines(prefix: string)
    ensures Lines(prefix, []) == [] && Lines(prefix, EmitFields(Nil)) == []
  {
  }

  /** One entry's lines come before those of the rest. */
  lemma LinesOfEntry(prefix: string, fs: Fields)
    requires fs.Cons?
    ensures Lines(prefix, EmitFields(fs)) ==
            Lines(Step(prefix, fs.key), Emit(fs.value)) + Lines(prefix, EmitFields(fs.rest))
  {
    LinesJoin(prefix, Under(fs.key, Emit(fs.value)), EmitFields(fs.rest));
    LinesUnder(prefix, fs.key, Emit(fs.value));
  }

  /** A leaf's text, as the renderer of TOML values gives it; nothing if it fails. */
  function ToTomlValue(v: Value): seq<LeafText> {
    if v.Leaf? then [v.text] else []
  }

  /** The list of override lines that the serializer pushes to. */
  class Overrides {
    var lines: seq<string>

    constructor ()
      ensures lines == []
    {
      lines := [];
    }

    /** Push the lines of a value; fails, leaving some lines pushed, if the value is not accepted or is a root that
        is not an object. */
    method Flatten(value: Value, prefix: string) returns (ok: bool)
      modifies this
      ensures ok <==> Accepted(value) && !value.Undefined? && (value.Object? || prefix != "")
      ensures ok ==> lines == old(lines) + ValueLines(prefix, value)
      ensures old(lines) <= lines
      decreases value, 1
    {
      hide Lines, EmitFields;
      if !value.Object? {
        if prefix == "" || ToTomlValue(value) == [] {
          return false;
        }
        LinesOfOne(prefix, value);
        lines := lines + [prefix + "=" + ToTomlValue(value)[0]];
        return true;
      }
      if value.fields.Nil? {
        if prefix != "" {
          LinesOfOne(prefix, value);
          assert prefix + "=" + "{}" == prefix + "={}";
          lines := lines + [prefix + "={}"];
        } else {
          NoLines("");
          assert value.fields == Nil;
        }
        return true;
      }
      ok := FlattenEntries(value.fields, prefix);
    }

    method FlattenEntries(fields: Fields, prefix: string) returns (ok: bool)
      modifies this
      ensures ok <==> AcceptedFields(fields)
      ensures ok ==> lines == old(lines) + Lines(prefix, EmitFields(fields))
      ensures old(lines) <= lines
      decreases fields, 0
    {
      hide Lines, EmitFields, Emit, Step, Accepted, Distinct, Supported, Kept, Vanishes;
      var entries := fields;
      while entries.Cons?
        invariant entries == fields || entries < fields
        invariant AcceptedFields(fields) <==> AcceptedFields(entries)
        invariant old(lines) <= lines
        invariant old(lines) + Lines(prefix, EmitFields(fields)) == lines + Lines(prefix, EmitFields(entries))
        decreases entries
      {
        LinesOfEntry(prefix, entries);
        ok := FlattenEntry(entries.key, entries.value, prefix);
        if !ok {
          return;
        }
        entries := entries.rest;
      }
      ok := true;
      NoLines(prefix);
    }

    /** One entry: an empty key fails even if its value is undefined. */
    method FlattenEntry(key: string, child: Value, prefix: string) returns (ok: bool)
      modifies this
      ensures ok <==> key != "" && Accepted(child)
      ensures ok ==> lines == old(lines) + Lines(Step(prefix, key), Emit(child))
      ensures old(lines) <= lines
      decreases child, 2
    {
      hide Lines, EmitFields;
      if key == "" {
        return false;
      }
      if child.Undefined? {
        NoLines(Step(prefix, key));
        return true;
      }
      var path := if prefix != "" then prefix + "." + key else key;
      if child.Object? {
        ok := Flatten(child, path);
      } else {
        if ToTomlValue(child) == [] {
          return false;
        }
        LinesOfOne(path, child);
        lines := lines + [path + "=" + ToTomlValue(child)[0]];
        ok := true;
      }
    }
  }
}
