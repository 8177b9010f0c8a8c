/** MODULE.bazel texts on which the update of checksums falls short. */
module BazelInputs {
  import opened Common
  import opened BazelChecksums
  import opened BazelUpdate

  function Named(name: string): Line { Field("    ", NAME, " = ", name, "") }

  function Stored(path: string): Line { Field("    ", PATH, " = ", path, "") }

  /** A text that is one block of the version, with one field more. */
  function OneBlock(prefix: string, more: seq<Line>, path: string, after: seq<Line>): Lines {
    [Open, Named(prefix)] + more + [Stored(path)] + after + [Close("")]
  }

  /** Neither opens, closes, names nor locates a block. */
  predicate Harmless(ls: Lines) {
    forall l :: l in ls ==> l.Blank? || (l.Field? && l.name == SHA)
  }

  lemma {:induction false} HarmlessHoldsNothing(ls: Lines)
    requires Harmless(ls)
    ensures CloseAt(ls) == |ls| && FirstField(ls, NAME) == None && FirstField(ls, PATH) == None
    ensures TightPathAt(ls) == |ls|
  {
    if ls != [] {
      assert ls[0] in ls && forall l :: l in ls[1..] ==> l in ls;
      HarmlessHoldsNothing(ls[1..]);
    }
  }

  lemma {:induction false} TightPathSplits(a: Lines, b: Lines)
    ensures TightPathAt(a + b) == if TightPathAt(a) < |a| then TightPathAt(a) else |a| + TightPathAt(b)
  {
    if a == [] {
      assert a + b == b;
    } else if !IsTightPath(a[0]) {
      assert (a + b)[1..] == a[1..] + b;
      TightPathSplits(a[1..], b);
    }
  }

  /** What stands in such a text from the path on. */
  function Ending(path: string, after: Lines): Lines { [Stored(path)] + (after + [Close("")]) }

  lemma EndingLocates(path: string, after: Lines)
    requires Harmless(after)
    ensures var r := Ending(path, after);
            && CloseAt(r) == |r| - 1 && FirstField(r, PATH) == Some(path) && TightPathAt(r) == 0
  {
    var r := Ending(path, after);
    HarmlessHoldsNothing(after);
    assert r[0] == Stored(path) && r[1..] == after + [Close("")];
    CloseSplits(after, [Close("")]);
  }

  lemma MiddleHoldsNothing(more: Lines, r: Lines)
    requires Harmless(more)
    ensures CloseAt(more + r) == |more| + CloseAt(r) && TightPathAt(more + r) == |more| + TightPathAt(r)
    ensures FirstField(more + r, PATH) == FirstField(r, PATH)
  {
    HarmlessHoldsNothing(more);
    CloseSplits(more, r);
    TightPathSplits(more, r);
    FirstFieldSplits(more, r, PATH);
  }

  lemma HeadNames(prefix: string, r: Lines)
    ensures var t := [Open, Named(prefix)] + r;
            && CloseAt(t) == 2 + CloseAt(r) && TightPathAt(t) == 2 + TightPathAt(r)
            && FirstField(t, PATH) == FirstField(r, PATH) && FirstField(t, NAME) == Some(prefix)
  {
    var t := [Open, Named(prefix)] + r;
    assert t[0] == Open && t[1..][0] == Named(prefix) && t[1..][1..] == r;
  }

  /** The block of such a text. */
  lemma OneBlockIsABlock(prefix: string, more: Lines, path: string, after: Lines)
    requires Harmless(more) && Harmless(after)
    ensures var t := OneBlock(prefix, more, path, after);
            && IsBlock(t) && Segments(t) == [Block(t)] && CanWrite(t)
            && FirstField(t, NAME) == Some(prefix) && FirstField(t, PATH) == Some(path)
            && TightPathAt(t) == 2 + |more|
  {
    var t := OneBlock(prefix, more, path, after);
    OneBlockSplits(prefix, more, path, after);
    hide OneBlock, Ending, Harmless;
    EndingLocates(path, after);
    MiddleHoldsNothing(more, Ending(path, after));
    HeadNames(prefix, more + Ending(path, after));
    hide FirstField, CloseAt, TightPathAt, Segments;
    assert t + [] == t;
    BlockInFront(t, []);
    NoSegments();
  }

  lemma OneBlockSplits(prefix: string, more: Lines, path: string, after: Lines)
    ensures var t := OneBlock(prefix, more, path, after);
            t == [Open, Named(prefix)] + (more + Ending(path, after)) && t[0] == Open && |t| >= 3
            && |t| == 2 + |more| + |Ending(path, after)|
  {
  }

  lemma NoSegments()
    ensures Segments([]) == []
  {
  }

  /** Its update succeeds. */
  lemma OneBlockUpdates(prefix: string, more: Lines, path: string, after: Lines, c: Digest)
    requires Harmless(more) && Harmless(after)
    ensures Update(OneBlock(prefix, more, path, after), map[path := c], prefix).Some?
  {
    var t := OneBlock(prefix, more, path, after);
    OneBlockIsABlock(prefix, more, path, after);
    hide OneBlock, FirstField, CanWrite, Splice;
    FirstEntry([Block(t)], 0, prefix);
    assert [Block(t)][1..] == [];
    var es := Entries(Segments(t), 0, prefix).value;
    assert es == [FileOf(t, 0, path)] && es[1..] == [];
    assert Paths(es[1..]) == [] && Paths(es) == [path];
    assert Unique([path][1..]) && path !in [path][1..];
    assert AllWritable(es[1..]) && AllWritable(es);
    assert Agree(Paths(es), map[path := c]);
  }

  /** A checksum that is not lowercase hex stays in front of the new one, and the check still fails. */
  lemma OtherChecksumIsNotReplaced(prefix: string, path: string, c: Digest)
    ensures var t := OneBlock(prefix, [Field("    ", SHA, " = ", "ABC", "")], path, []);
            var u := Update(t, map[path := c], prefix);
            u.Some? && !Passes(u.value, map[path := c], prefix)
  {
    var t := OneBlock(prefix, [Field("    ", SHA, " = ", "ABC", "")], path, []);
    OneBlockUpdates(prefix, [Field("    ", SHA, " = ", "ABC", "")], path, [], c);
    OneBlockIsABlock(prefix, [Field("    ", SHA, " = ", "ABC", "")], path, []);
    OtherChecksumIsFirst(prefix, path);
    hide OneBlock, FirstField;
    UpdateThenCheckExactlyWhen(t, map[path := c], prefix);
    assert [Block(t)][0] == Block(t) && Selected(Block(t), prefix);
    assert !AllFirst(Segments(t), prefix);
    assert !Passes(Update(t, map[path := c], prefix).value, map[path := c], prefix);
  }

  lemma OtherChecksumIsFirst(prefix: string, path: string)
    ensures var t := OneBlock(prefix, [Field("    ", SHA, " = ", "ABC", "")], path, []);
            CanWrite(t) && FirstField(t[..WriteAt(t)], SHA) == Some("ABC")
  {
    var sha := Field("    ", SHA, " = ", "ABC", "");
    var t := OneBlock(prefix, [sha], path, []);
    OneBlockIsABlock(prefix, [sha], path, []);
    assert !IsHexDigit("ABC"[0]);
    assert t == [Open, Named(prefix), sha, Stored(path), Close("")];
    NoHexSha(t);
    var rest := [sha, Stored(path)];
    assert t[..4] == [Open, Named(prefix)] + rest;
    FirstFieldSplits([Open, Named(prefix)], rest, SHA);
    assert [Open, Named(prefix)][1..] == [Named(prefix)] && FirstField([Named(prefix)], SHA) == None;
    assert rest[0] == sha && FirstField(rest, SHA) == Some("ABC");
    assert WriteAt(t) == 4;
  }

  lemma {:induction false} NoHexSha(t: Lines)
    requires forall l :: l in t ==> !IsHexSha(l)
    ensures HexShaAt(t) == |t|
  {
    if t != [] {
      assert t[0] in t && forall l :: l in t[1..] ==> l in t;
      NoHexSha(t[1..]);
    }
  }

  /** A blank line behind the path of a block without checksum survives the first update and not the second. */
  lemma SecondUpdateRemovesBlank(prefix: string, path: string, c: Digest)
    ensures var t := OneBlock(prefix, [], path, [Blank("")]);
            var u := Update(t, map[path := c], prefix);
            u.Some? && Update(u.value, map[path := c], prefix).Some?
            && Update(u.value, map[path := c], prefix).value != u.value
  {
    var t := OneBlock(prefix, [], path, [Blank("")]);
    OneBlockUpdates(prefix, [], path, [Blank("")], c);
    OneBlockIsABlock(prefix, [], path, [Blank("")]);
    assert t == [Open, Named(prefix), Stored(path), Blank(""), Close("")];
    NoHexSha(t);
    hide OneBlock, FirstField;
    assert [Block(t)][0] == Block(t);
    UpdateAgainExactlyWhen(t, map[path := c], prefix);
  }
}
