/** Configurations that do not come back from their override lines. */
module ConfigInputs {
  import opened ConfigTree
  import opened ConfigText

  /** An object whose entries are all undefined leaves no line, while an empty object does. */
  lemma HollowObjectIsLost(k: string, inner: string)
    ensures var fs := Cons(k, Object(Cons(inner, Undefined, Nil)), Nil);
            ReadBack(Lines("", EmitFields(fs))) == Object(Nil) && DefinedFields(fs) == Cons(k, Object(Nil), Nil)
  {
    var fs := Cons(k, Object(Cons(inner, Undefined, Nil)), Nil);
    assert EmitFields(fs.value.fields) == [] && EmitFields(fs) == [];
    assert DefinedFields(fs.value.fields) == Nil && Defined(fs.value) == Object(Nil);
  }

  /** The line of a tree with a single leaf. */
  lemma OneLeafLine(key: string, text: LeafText)
    ensures Lines("", EmitFields(Cons(key, Leaf(text), Nil))) == [key + "=" + text]
  {
    LinesOfEntry("", Cons(key, Leaf(text), Nil));
    LinesOfOne(key, Leaf(text));
    NoLines("");
  }

  /** The tree of a single line. */
  lemma OneLineTree(line: string, path: seq<string>, text: LeafText)
    requires Cut(line).1 == text && Split(Cut(line).0) == path
    ensures ReadBack([line]) == Put(Object(Nil), path, Leaf(text))
  {
    var outs := ReadLines([line]);
    assert outs[0] == Out(path, Leaf(text)) && outs[1..] == [];
    assert PutAll(Object(Nil), outs) == PutAll(Put(Object(Nil), path, Leaf(text)), []);
  }

  lemma PutOne(key: string, leaf: Value)
    ensures Put(Undefined, [key], leaf) == Put(Object(Nil), [key], leaf) == Object(Cons(key, leaf, Nil))
  {
    assert [key][1..] == [];
    assert Insert(Nil, [key], leaf) == Cons(key, Put(Undefined, [], leaf), Nil);
  }

  /** A dotted key comes back as two keys. */
  lemma DottedKeyIsSplit()
    ensures ReadBack(Lines("", EmitFields(Cons("a.b", Leaf("1"), Nil)))) ==
            Object(Cons("a", Object(Cons("b", Leaf("1"), Nil)), Nil))
  {
    OneLeafLine("a.b", "1");
    CutsAtEquals("a.b", "1");
    SplitAppends("a", "b");
    SplitAppends("", "a");
    assert "a" + "." + "b" == "a.b" && ["a"] + ["b"] == ["a", "b"];
    hide Cut, Split;
    OneLineTree("a.b" + "=" + "1", ["a", "b"], "1");
    assert ["a", "b"][1..] == ["b"];
    PutOne("b", Leaf("1"));
    assert Put(Object(Nil), ["a", "b"], Leaf("1")) == Object(Cons("a", Put(Undefined, ["b"], Leaf("1")), Nil));
  }

  /** A key with an equals sign loses what stands behind the sign to the value. */
  lemma EqualsSignIsCut()
    ensures ReadBack(Lines("", EmitFields(Cons("a=b", Leaf("1"), Nil)))) == Object(Cons("a", Leaf("b=1"), Nil))
  {
    OneLeafLine("a=b", "1");
    CutsAtEquals("a", "b=1");
    SplitAppends("", "a");
    assert "a" + "=" + "b=1" == "a=b" + "=" + "1";
    hide Cut, Split;
    OneLineTree("a" + "=" + "b=1", ["a"], "b=1");
    PutOne("a", Leaf("b=1"));
  }
}
