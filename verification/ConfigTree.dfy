/** Configuration trees, the paths they are flattened into, and the tree that is built back from the paths. */
module ConfigTree {

  /** The TOML text of a string, number, boolean or array; only an empty object is written as "{}". */
  type LeafText = s: string | s != "{}" witness "0"

  /** A configuration value.  `Leaf` holds the TOML text of a value that is not an object;
      `Unsupported` is a value that has no TOML text, such as null or an infinite number. */
  datatype Value = Undefined | Unsupported | Leaf(text: LeafText) | Object(fields: Fields)

  /** The entries of an object in their order. */
  datatype Fields = Nil | Cons(key: string, value: Value, rest: Fields)

  /** A value together with the keys that lead to it. */
  datatype Out = Out(path: seq<string>, value: Value)

  function Keys(fs: Fields): set<string> {
    if fs.Nil? then {} else {fs.key} + Keys(fs.rest)
  }

  /** No object has two entries with the same key. */
  predicate Distinct(v: Value)
  {
    v.Object? ==> DistinctFields(v.fields)
  }

  predicate DistinctFields(fs: Fields) {
    fs.Cons? ==> fs.key !in Keys(fs.rest) && Distinct(fs.value) && DistinctFields(fs.rest)
  }

  // ----- flattening -----------------------------------------------------------------------------------------------

  function Under(k: string, outs: seq<Out>): (r: seq<Out>)
    ensures |r| == |outs| && forall i :: 0 <= i < |r| ==> r[i] == Out([k] + outs[i].path, outs[i].value)
  {
    seq(|outs|, i requires 0 <= i < |outs| => Out([k] + outs[i].path, outs[i].value))
  }

  /** What flattening a nested value pushes. */
  function Emit(v: Value): seq<Out> {
    match v
    case Undefined => []
    case Unsupported => []
    case Leaf(_) => [Out([], v)]
    case Object(fs) => if fs.Nil? then [Out([], v)] else EmitFields(fs)
  }

  function EmitFields(fs: Fields): seq<Out> {
    if fs.Nil? then [] else Under(fs.key, Emit(fs.value)) + EmitFields(fs.rest)
  }

  // ----- building back ---------------------------------------------------------------------------------------------

  /** Put a value at a path; objects on the way are made where they are missing. */
  function Put(v: Value, path: seq<string>, leaf: Value): Value
    decreases |path|, 1, Nil
  {
    if path == [] then leaf else Object(Insert(if v.Object? then v.fields else Nil, path, leaf))
  }

  function Insert(fs: Fields, path: seq<string>, leaf: Value): Fields
    requires path != []
    decreases |path|, 0, fs
  {
    if fs.Nil? then Cons(path[0], Put(Undefined, path[1..], leaf), Nil)
    else if fs.key == path[0] then Cons(fs.key, Put(fs.value, path[1..], leaf), fs.rest)
    else Cons(fs.key, fs.value, Insert(fs.rest, path, leaf))
  }

  function PutAll(v: Value, outs: seq<Out>): Value
    decreases |outs|
  {
    if outs == [] then v else PutAll(Put(v, outs[0].path, outs[0].value), outs[1..])
  }

  lemma {:induction false} PutAllSplits(v: Value, a: seq<Out>, b: seq<Out>)
    ensures PutAll(v, a + b) == PutAll(PutAll(v, a), b)
    decreases |a|
  {
    if a == [] {
      assert a + b == b;
    } else {
      assert (a + b)[0] == a[0] && (a + b)[1..] == a[1..] + b;
      PutAllSplits(Put(v, a[0].path, a[0].value), a[1..], b);
    }
  }

  function Append(fs: Fields, more: Fields): Fields {
    if fs.Nil? then more else Cons(fs.key, fs.value, Append(fs.rest, more))
  }

  lemma {:induction false} AppendKeys(fs: Fields, more: Fields)
    ensures Keys(Append(fs, more)) == Keys(fs) + Keys(more)
  {
    if fs.Cons? {
      AppendKeys(fs.rest, more);
    }
  }

  lemma {:induction false} AppendTwice(a: Fields, b: Fields, c: Fields)
    ensures Append(Append(a, b), c) == Append(a, Append(b, c))
  {
    if a.Cons? {
      AppendTwice(a.rest, b, c);
    }
  }

  lemma {:induction false} AppendNil(fs: Fields)
    ensures Append(fs, Nil) == fs
  {
    if fs.Cons? {
      AppendNil(fs.rest);
    }
  }

  /** A path under a new key makes a last entry; a path under the last key goes into that entry. */
  lemma {:induction false} InsertLast(done: Fields, v: Value, path: seq<string>, leaf: Value)
    requires path != [] && path[0] !in Keys(done)
    ensures Insert(done, path, leaf) == Append(done, Cons(path[0], Put(Undefined, path[1..], leaf), Nil))
    ensures Insert(Append(done, Cons(path[0], v, Nil)), path, leaf) ==
            Append(done, Cons(path[0], Put(v, path[1..], leaf), Nil))
  {
    if done.Cons? {
      InsertLast(done.rest, v, path, leaf);
    }
  }

  lemma {:induction false} PutAllUnderLast(done: Fields, k: string, v: Value, outs: seq<Out>)
    requires k !in Keys(done)
    ensures PutAll(Object(Append(done, Cons(k, v, Nil))), Under(k, outs)) ==
            Object(Append(done, Cons(k, PutAll(v, outs), Nil)))
    decreases |outs|
  {
    if outs != [] {
      var path := [k] + outs[0].path;
      assert path[1..] == outs[0].path;
      InsertLast(done, v, path, outs[0].value);
      assert Under(k, outs)[1..] == Under(k, outs[1..]);
      PutAllUnderLast(done, k, Put(v, outs[0].path, outs[0].value), outs[1..]);
    }
  }

  /** Everything under a new key goes into one new last entry. */
  lemma PutAllUnderNew(done: Fields, k: string, outs: seq<Out>)
    requires k !in Keys(done) && outs != []
    ensures PutAll(Object(done), Under(k, outs)) == Object(Append(done, Cons(k, PutAll(Undefined, outs), Nil)))
  {
    var path := [k] + outs[0].path;
    assert path[1..] == outs[0].path;
    InsertLast(done, Undefined, path, outs[0].value);
    assert Under(k, outs)[1..] == Under(k, outs[1..]);
    PutAllUnderLast(done, k, Put(Undefined, outs[0].path, outs[0].value), outs[1..]);
  }

  // ----- what is kept ----------------------------------------------------------------------------------------------

  /** The value leaves no trace: it is undefined, or an object with entries none of which leaves a trace. */
  predicate Vanishes(v: Value) {
    v.Undefined? || (v.Object? && v.fields.Cons? && AllVanish(v.fields))
  }

  predicate AllVanish(fs: Fields) {
    fs.Cons? ==> Vanishes(fs.value) && AllVanish(fs.rest)
  }

  /** Every value has TOML text. */
  predicate Supported(v: Value) {
    !v.Unsupported? && (v.Object? ==> SupportedFields(v.fields))
  }

  predicate SupportedFields(fs: Fields) {
    fs.Cons? ==> Supported(fs.value) && SupportedFields(fs.rest)
  }

  lemma {:induction false} VanishingEmitsNothing(v: Value)
    requires Supported(v)
    ensures Vanishes(v) <==> Emit(v) == []
    decreases v, 1
  {
    if v.Object? && v.fields.Cons? {
      AllVanishingEmitNothing(v.fields);
    }
  }

  lemma {:induction false} AllVanishingEmitNothing(fs: Fields)
    requires SupportedFields(fs)
    ensures AllVanish(fs) <==> EmitFields(fs) == []
  {
    if fs.Cons? {
      VanishingEmitsNothing(fs.value);
      AllVanishingEmitNothing(fs.rest);
    }
  }

  /** The tree without what leaves no trace. */
  function Kept(v: Value): Value {
    if v.Object? then Object(KeptFields(v.fields)) else v
  }

  function KeptFields(fs: Fields): Fields {
    if fs.Nil? then Nil
    else if Vanishes(fs.value) then KeptFields(fs.rest)
    else Cons(fs.key, Kept(fs.value), KeptFields(fs.rest))
  }

  lemma {:induction false} PathsBegin(fs: Fields)
    ensures forall o :: o in EmitFields(fs) ==> o.path != [] && o.path[0] in Keys(fs)
  {
    if fs.Cons? {
      PathsBegin(fs.rest);
    }
  }

  /** Building back from what a value pushes gives what is kept of the value. */
  lemma {:induction false} RebuildsValue(v: Value)
    requires Supported(v) && Distinct(v) && !Vanishes(v)
    ensures PutAll(Undefined, Emit(v)) == Kept(v)
    decreases v, 1
  {
    if v.Object? && v.fields.Cons? {
      var outs := EmitFields(v.fields);
      RebuildsFields(Nil, v.fields);
      AllVanishingEmitNothing(v.fields);
      PathsBegin(v.fields);
      assert outs[0] in outs;
      assert Put(Undefined, outs[0].path, outs[0].value) == Put(Object(Nil), outs[0].path, outs[0].value);
    } else {
      assert Emit(v)[1..] == [];
    }
  }

  lemma {:induction false} RebuildsFields(done: Fields, fs: Fields)
    requires SupportedFields(fs) && DistinctFields(fs) && Keys(done) !! Keys(fs)
    ensures PutAll(Object(done), EmitFields(fs)) == Object(Append(done, KeptFields(fs)))
    decreases fs, 0
  {
    if fs.Nil? {
      AppendNil(done);
    } else {
      var outs := Emit(fs.value);
      VanishingEmitsNothing(fs.value);
      PutAllSplits(Object(done), Under(fs.key, outs), EmitFields(fs.rest));
      if Vanishes(fs.value) {
        RebuildsFields(done, fs.rest);
      } else {
        RebuildsValue(fs.value);
        PutAllUnderNew(done, fs.key, outs);
        var entry := Cons(fs.key, Kept(fs.value), Nil);
        AppendKeys(done, entry);
        RebuildsFields(Append(done, entry), fs.rest);
        AppendTwice(done, entry, KeptFields(fs.rest));
      }
    }
  }

  // ----- paths -----------------------------------------------------------------------------------------------------

  /** No path is another one or leads to it. */
  ghost predicate Apart(outs: seq<Out>) {
    forall i, j :: 0 <= i < |outs| && 0 <= j < |outs| && i != j ==> !(outs[i].path <= outs[j].path)
  }

  lemma PrefixUnder(k: string, p: seq<string>, q: seq<string>)
    ensures [k] + p <= [k] + q ==> p <= q
  {
    assert ([k] + p)[1..] == p && ([k] + q)[1..] == q;
  }

  lemma UnderKeepsApart(k: string, outs: seq<Out>)
    requires Apart(outs)
    ensures Apart(Under(k, outs))
  {
    var r := Under(k, outs);
    forall i, j | 0 <= i < |r| && 0 <= j < |r| && i != j ensures !(r[i].path <= r[j].path) {
      PrefixUnder(k, outs[i].path, outs[j].path);
    }
  }

  lemma OtherKeysAreApart(a: seq<Out>, b: seq<Out>, k: string)
    requires Apart(a) && Apart(b)
    requires forall o :: o in a ==> o.path != [] && o.path[0] == k
    requires forall o :: o in b ==> o.path != [] && o.path[0] != k
    ensures Apart(a + b)
  {
    var r := a + b;
    forall i, j | 0 <= i < |r| && 0 <= j < |r| && i != j ensures !(r[i].path <= r[j].path) {
      if (i < |a|) == (j < |a|) {
        assert i >= |a| ==> r[i] == b[i - |a|] && r[j] == b[j - |a|];
      } else {
        assert r[i].path[0] != r[j].path[0];
      }
    }
  }

  /** The pushed paths are distinct, and none is a proper prefix of another. */
  lemma {:induction false} PathsAreApart(v: Value)
    requires Distinct(v)
    ensures Apart(Emit(v))
    decreases v, 1
  {
    if v.Object? {
      FieldPathsAreApart(v.fields);
    }
  }

  lemma {:induction false} FieldPathsAreApart(fs: Fields)
    requires DistinctFields(fs)
    ensures Apart(EmitFields(fs))
    decreases fs, 0
  {
    if fs.Cons? {
      PathsAreApart(fs.value);
      UnderKeepsApart(fs.key, Emit(fs.value));
      FieldPathsAreApart(fs.rest);
      PathsBegin(fs.rest);
      OtherKeysAreApart(Under(fs.key, Emit(fs.value)), EmitFields(fs.rest), fs.key);
    }
  }

  // ----- hollow objects --------------------------------------------------------------------------------------------

  /** The tree without its undefined entries. */
  function Defined(v: Value): Value {
    if v.Object? then Object(DefinedFields(v.fields)) else v
  }

  function DefinedFields(fs: Fields): Fields {
    if fs.Nil? then Nil
    else if fs.value.Undefined? then DefinedFields(fs.rest)
    else Cons(fs.key, Defined(fs.value), DefinedFields(fs.rest))
  }

  /** A nested object has entries, but none that leaves a trace. */
  predicate HasHollow(fs: Fields) {
    fs.Cons? && (HasHollow(fs.rest) || HollowInside(fs.value))
  }

  predicate HollowInside(v: Value) {
    v.Object? && (Vanishes(v) || HasHollow(v.fields))
  }

  function Size(v: Value): nat {
    1 + if v.Object? then SizeFields(v.fields) else 0
  }

  function SizeFields(fs: Fields): nat {
    if fs.Nil? then 0 else Size(fs.value) + SizeFields(fs.rest)
  }

  lemma {:induction false} HollowObjectsAreLost(fs: Fields)
    ensures !HasHollow(fs) ==> KeptFields(fs) == DefinedFields(fs)
    ensures SizeFields(KeptFields(fs)) <= SizeFields(DefinedFields(fs))
    ensures HasHollow(fs) ==> SizeFields(KeptFields(fs)) < SizeFields(DefinedFields(fs))
    decreases fs, 0
  {
    if fs.Cons? {
      HollowObjectsAreLost(fs.rest);
      HollowInsideIsLost(fs.value);
      if !Vanishes(fs.value) {
        assert SizeFields(KeptFields(fs)) == Size(Kept(fs.value)) + SizeFields(KeptFields(fs.rest));
      }
      if fs.value.Undefined? {
        assert Vanishes(fs.value) && !HollowInside(fs.value);
      } else {
        assert SizeFields(DefinedFields(fs)) == Size(Defined(fs.value)) + SizeFields(DefinedFields(fs.rest));
      }
    }
  }

  lemma {:induction false} HollowInsideIsLost(v: Value)
    ensures v.Undefined? || Size(Defined(v)) > 0
    ensures !Vanishes(v) && !HollowInside(v) ==> Kept(v) == Defined(v)
    ensures !Vanishes(v) ==> Size(Kept(v)) <= Size(Defined(v))
    ensures !Vanishes(v) && HollowInside(v) ==> Size(Kept(v)) < Size(Defined(v))
    ensures Vanishes(v) && !HollowInside(v) ==> v.Undefined?
    decreases v, 1
  {
    if v.Object? {
      HollowObjectsAreLost(v.fields);
    }
  }

  /** Only undefined entries are lost exactly if there is no hollow object. */
  lemma KeptIsDefinedExactlyWhen(fs: Fields)
    ensures KeptFields(fs) == DefinedFields(fs) <==> !HasHollow(fs)
  {
    HollowObjectsAreLost(fs);
  }
}
