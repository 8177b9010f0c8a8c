/** The scan, the collectors, the update and the check of MODULE.bazel as loops over the text and its entries. */
module BazelMethods {
  import opened Common
  import opened BazelChecksums
  import opened BazelUpdate

  // ----- finding the blocks --------------------------------------------------------------------------------------

  function Joined(found: seq<HttpFile>, rest: Option<seq<HttpFile>>): Option<seq<HttpFile>> {
    if rest.None? then None else Some(found + rest.value)
  }

  lemma BlockHere(t: Lines, at: nat, end: nat)
    requires at < |t| && t[at].Open? && CloseAt(t[at..]) < |t| - at && end == at + CloseAt(t[at..]) + 1
    ensures Segments(t[at..]) == [Block(t[at..end])] + Segments(t[end..])
  {
    var rest := t[at..];
    assert rest[..end - at] == t[at..end];
    assert rest[end - at..] == t[end..];
    assert rest != [] && rest[0].Open? && CloseAt(rest) + 1 == end - at;
    hide CloseAt;
  }

  lemma LineHere(t: Lines, at: nat)
    requires at < |t| && !(t[at].Open? && CloseAt(t[at..]) < |t| - at)
    ensures Segments(t[at..]) == [Gap(t[at])] + Segments(t[at + 1..])
  {
    assert t[at..][1..] == t[at + 1..];
  }

  lemma FirstOfEntries(s: Segment, segs: seq<Segment>, at: nat, prefix: string)
    ensures Entries([s] + segs, at, prefix) ==
            var rest := Entries(segs, at + |LinesOf(s)|, prefix);
            if !Selected(s, prefix) then rest
            else if FirstField(s.lines, PATH).None? then None
            else Joined([FileOf(s.lines, at, FirstField(s.lines, PATH).value)], rest)
  {
    assert ([s] + segs)[1..] == segs;
  }

  lemma EntriesBehindBlock(t: Lines, at: nat, end: nat, prefix: string)
    requires at < |t| && t[at].Open? && CloseAt(t[at..]) < |t| - at && end == at + CloseAt(t[at..]) + 1
    ensures var b := t[at..end];
            Entries(Segments(t[at..]), at, prefix) ==
            if !Selected(Block(b), prefix) then Entries(Segments(t[end..]), end, prefix)
            else if FirstField(b, PATH).None? then None
            else Joined([FileOf(b, at, FirstField(b, PATH).value)], Entries(Segments(t[end..]), end, prefix))
  {
    hide Entries, Segments, Selected, FirstField, Joined;
    BlockHere(t, at, end);
    FirstOfEntries(Block(t[at..end]), Segments(t[end..]), at, prefix);
  }

  lemma EntriesBehindLine(t: Lines, at: nat, prefix: string)
    requires at < |t| && !(t[at].Open? && CloseAt(t[at..]) < |t| - at)
    ensures Entries(Segments(t[at..]), at, prefix) == Entries(Segments(t[at + 1..]), at + 1, prefix)
  {
    hide Entries, Segments, FirstField, Joined;
    LineHere(t, at);
    FirstOfEntries(Gap(t[at]), Segments(t[at + 1..]), at, prefix);
  }

  lemma JoinOne(found: seq<HttpFile>, e: HttpFile, rest: Option<seq<HttpFile>>)
    ensures Joined(found, Joined([e], rest)) == Joined(found + [e], rest)
  {
    if rest.Some? {
      assert found + ([e] + rest.value) == found + [e] + rest.value;
    }
  }

  /** The entries of the version's blocks; none at all if one of them has no path. */
  method HttpFiles(t: Lines, prefix: string) returns (r: Option<seq<HttpFile>>)
    ensures r == Entries(Segments(t), 0, prefix)
  {
    hide Entries, Segments;
    var found: seq<HttpFile>, at: nat := [], 0;
    Starts(t, prefix);
    while at < |t|
      invariant at <= |t|
      invariant Entries(Segments(t), 0, prefix) == Joined(found, Entries(Segments(t[at..]), at, prefix))
    {
      if t[at].Open? && CloseAt(t[at..]) < |t| - at {
        var end := at + CloseAt(t[at..]) + 1;
        var b := t[at..end];
        EntriesBehindBlock(t, at, end, prefix);
        var name := FirstField(b, NAME);
        if name.Some? && prefix <= name.value {
          var path := FirstField(b, PATH);
          if path.None? {
            return None;
          }
          JoinOne(found, FileOf(b, at, path.value), Entries(Segments(t[end..]), end, prefix));
          found := found + [HttpFile(at, end, b, path.value, FirstField(b, SHA))];
        }
        at := end;
      } else {
        EntriesBehindLine(t, at, prefix);
        at := at + 1;
      }
    }
    assert t[at..] == [];
    NoEntries(at, prefix);
    assert found + [] == found;
    r := Some(found);
  }

  lemma Starts(t: Lines, prefix: string)
    ensures Entries(Segments(t), 0, prefix) == Joined([], Entries(Segments(t[0..]), 0, prefix))
  {
    assert t[0..] == t;
    var es := Entries(Segments(t), 0, prefix);
    if es.Some? {
      assert [] + es.value == es.value;
    }
  }

  lemma NoEntries(at: nat, prefix: string)
    ensures Entries(Segments([]), at, prefix) == Some([])
  {
  }

  // ----- collecting errors -----------------------------------------------------------------------------------------

  /** A way in which the blocks and the manifest name different files. */
  datatype Problem = NoBlocks | Duplicate(path: string) | NotInManifest(path: string) | NoBlockFor(path: string)

  lemma {:induction false} PathsAt(es: seq<HttpFile>)
    ensures |Paths(es)| == |es| && forall i :: 0 <= i < |es| ==> Paths(es)[i] == es[i].path
  {
    if es != [] {
      PathsAt(es[1..]);
    }
  }

  lemma {:induction false} UniqueSplits(names: seq<string>, name: string)
    ensures Unique(names + [name]) <==> Unique(names) && name !in names
  {
    if names == [] {
      assert names + [name] == [name];
    } else {
      assert (names + [name])[1..] == names[1..] + [name];
      UniqueSplits(names[1..], name);
    }
  }

  ghost predicate Twice(names: seq<string>, name: string) {
    exists i, j :: 0 <= i < j < |names| && names[i] == name && names[j] == name
  }

  lemma TwiceSplits(names: seq<string>, last: string, name: string)
    ensures Twice(names + [last], name) <==> Twice(names, name) || (name == last && last in names)
  {
    var all := names + [last];
    if Twice(names, name) {
      var i, j :| 0 <= i < j < |names| && names[i] == name && names[j] == name;
      assert all[i] == name && all[j] == name;
    }
    if name == last && last in names {
      var i :| 0 <= i < |names| && names[i] == last;
      assert all[i] == name && all[|names|] == name;
    }
  }

  /** What one more name does to the names that occur twice. */
  lemma OneMoreName(names: seq<string>, i: nat)
    requires i < |names|
    ensures forall p :: Twice(names[..i + 1], p) <==> Twice(names[..i], p) || (p == names[i] && names[i] in names[..i])
    ensures forall p :: p in names[..i + 1] <==> p in names[..i] || p == names[i]
    ensures Unique(names[..i + 1]) <==> Unique(names[..i]) && names[i] !in names[..i]
  {
    assert names[..i + 1] == names[..i] + [names[i]];
    forall p ensures Twice(names[..i + 1], p) <==> Twice(names[..i], p) || (p == names[i] && names[i] in names[..i]) {
      TwiceSplits(names[..i], names[i], p);
    }
    UniqueSplits(names[..i], names[i]);
  }

  /** The names, and those that occur twice. */
  method Collect(es: seq<HttpFile>) returns (files: set<string>, duplicates: set<string>)
    ensures forall p :: p in files <==> p in Paths(es)
    ensures forall p :: p in duplicates <==> Twice(Paths(es), p)
    ensures duplicates == {} <==> Unique(Paths(es))
  {
    hide Twice, Unique, Paths;
    PathsAt(es);
    ghost var names := Paths(es);
    files, duplicates := {}, {};
    NothingTwice();
    for i := 0 to |es|
      invariant forall p :: p in files <==> p in names[..i]
      invariant forall p :: p in duplicates <==> Twice(names[..i], p)
      invariant Unique(names[..i]) <==> duplicates == {}
    {
      OneMoreName(names, i);
      if es[i].path in files {
        duplicates := duplicates + {es[i].path};
      }
      files := files + {es[i].path};
    }
    assert names[..|es|] == names;
  }

  lemma NothingTwice()
    ensures Unique([]) && forall p :: !Twice([], p)
  {
  }

  /** The problems of the blocks of a version: exactly the files named twice, those without a checksum and those
      without a block.  There is none exactly if blocks and manifest agree. */
  method EntrySetErrors(es: seq<HttpFile>, cs: Manifest) returns (errors: set<Problem>)
    ensures es == [] ==> errors == {NoBlocks}
    ensures es != [] ==> NoBlocks !in errors
    ensures es != [] ==> forall p :: Duplicate(p) in errors <==> Twice(Paths(es), p)
    ensures es != [] ==> forall p :: NotInManifest(p) in errors <==> p in Paths(es) && p !in cs
    ensures es != [] ==> forall p :: NoBlockFor(p) in errors <==> p in cs && p !in Paths(es)
    ensures errors == {} <==> Agree(Paths(es), cs)
  {
    hide Twice, Unique;
    PathsAt(es);
    if es == [] {
      return {NoBlocks};
    }
    var files, duplicates := Collect(es);
    errors := (set p | p in duplicates :: Duplicate(p)) + (set p | p in files - cs.Keys :: NotInManifest(p))
              + (set p | p in cs.Keys - files :: NoBlockFor(p));
    ErrorsMeanDisagreement(files, duplicates, cs, errors);
  }

  lemma ErrorsMeanDisagreement(files: set<string>, duplicates: set<string>, cs: Manifest, errors: set<Problem>)
    requires errors == (set p | p in duplicates :: Duplicate(p)) + (set p | p in files - cs.Keys :: NotInManifest(p))
                       + (set p | p in cs.Keys - files :: NoBlockFor(p))
    ensures errors == {} <==> duplicates == {} && forall p :: p in files <==> p in cs
  {
    if errors == {} {
      forall p ensures p !in duplicates && (p in files <==> p in cs) {
        assert Duplicate(p) !in errors && NotInManifest(p) !in errors && NoBlockFor(p) !in errors;
      }
    }
  }

  /** The entries whose checksum is missing or is not the manifest's; files that the manifest lacks are passed over. */
  method ChecksumErrors(es: seq<HttpFile>, cs: Manifest) returns (errors: seq<HttpFile>)
    ensures (forall e :: e in es ==> e.path in cs) ==> (errors == [] <==> ShasRight(es, cs))
    ensures forall e :: e in errors <==> e in es && e.path in cs && e.sha != Some(cs[e.path])
  {
    errors := [];
    assert es[0..] == es;
    for i := 0 to |es|
      invariant forall e :: e in errors <==> e in es[..i] && e.path in cs && e.sha != Some(cs[e.path])
      invariant (forall e :: e in es ==> e.path in cs) ==>
                  (errors == [] && ShasRight(es[i..], cs) <==> ShasRight(es, cs))
    {
      var e := es[i];
      assert es[i..][1..] == es[i + 1..] && es[..i + 1] == es[..i] + [e];
      assert e in es;
      if e.path in cs && (e.sha.None? || e.sha.value != cs[e.path]) {
        errors := errors + [e];
        assert errors[|errors|-1] == e;
      }
    }
    assert es[..|es|] == es;
  }

  // ----- check and update ------------------------------------------------------------------------------------------

  method Check(t: Lines, cs: Manifest, prefix: string) returns (ok: bool)
    ensures ok <==> Passes(t, cs, prefix)
  {
    var found := HttpFiles(t, prefix);
    if found.None? {
      return false;
    }
    var problems := EntrySetErrors(found.value, cs);
    var wrong := ChecksumErrors(found.value, cs);
    PathsAt(found.value);
    if problems == {} {
      forall e | e in found.value ensures e.path in cs {
        var i :| 0 <= i < |found.value| && found.value[i] == e;
        assert Paths(found.value)[i] in Paths(found.value);
      }
    }
    ok := problems == {} && wrong == [];
  }

  /** The entries stand one behind the other inside the text. */
  predicate InOrder(t: Lines, from: nat, es: seq<HttpFile>)
    decreases |es|
  {
    es != [] ==> from <= es[0].start <= es[0].end <= |t| && InOrder(t, es[0].end, es[1..])
  }

  lemma {:induction false} EntriesAreInOrder(t: Lines, at: nat, segs: seq<Segment>, prefix: string, from: nat)
    requires from <= at <= |t| && t[at..] == Text(segs) && Entries(segs, at, prefix).Some?
    ensures InOrder(t, from, Entries(segs, at, prefix).value)
    decreases |segs|
  {
    if segs != [] {
      NextSegment(t, at, segs);
      var next := at + |LinesOf(segs[0])|;
      hide Text;
      if Selected(segs[0], prefix) {
        EntriesAreInOrder(t, next, segs[1..], prefix, next);
        FirstEntry(segs, at, prefix);
      } else {
        EntriesAreInOrder(t, next, segs[1..], prefix, from);
      }
    }
  }

  method UpdateText(t: Lines, cs: Manifest, prefix: string) returns (r: Option<Lines>)
    ensures r == Update(t, cs, prefix)
  {
    hide Splice, WithSha, Entries, Agree, CanWrite, Text, Segments;
    var found := HttpFiles(t, prefix);
    if found.None? {
      return None;
    }
    var es := found.value;
    var problems := EntrySetErrors(es, cs);
    if problems != {} {
      return None;
    }
    SegmentsAreTheText(t);
    EntriesAreInOrder(t, 0, Segments(t), prefix, 0);
    AgreeingPathsAreKnown(es, cs);
    var updated: Lines, end: nat := [], 0;
    assert es[0..] == es;
    for i := 0 to |es|
      invariant end <= |t| && InOrder(t, end, es[i..])
      invariant AllWritable(es) <==> AllWritable(es[i..])
      invariant AllWritable(es) ==> updated + Splice(t, end, es[i..], cs) == Splice(t, 0, es, cs)
    {
      assert es[i..][0] == es[i] && es[i..][1..] == es[i + 1..];
      if !CanWrite(es[i].block) {
        return None;
      }
      SpliceOne(t, end, es, i, cs, updated);
      updated := updated + t[end..es[i].start] + WithSha(es[i].block, cs[es[i].path]);
      end := es[i].end;
    }
    SpliceEnds(t, end, cs);
    r := Some(updated + t[end..]);
  }

  lemma AgreeingPathsAreKnown(es: seq<HttpFile>, cs: Manifest)
    requires Agree(Paths(es), cs)
    ensures forall i :: 0 <= i < |es| ==> es[i].path in cs
  {
    PathsAt(es);
    forall i | 0 <= i < |es| ensures es[i].path in cs {
      assert Paths(es)[i] in Paths(es);
    }
  }

  lemma SpliceOne(t: Lines, from: nat, es: seq<HttpFile>, i: nat, cs: Manifest, updated: Lines)
    requires i < |es| && from <= es[i].start <= es[i].end <= |t| && es[i].path in cs && CanWrite(es[i].block)
    ensures updated + Splice(t, from, es[i..], cs) ==
            updated + t[from..es[i].start] + WithSha(es[i].block, cs[es[i].path]) +
            Splice(t, es[i].end, es[i + 1..], cs)
  {
    assert es[i..][0] == es[i] && es[i..][1..] == es[i + 1..];
  }

  lemma SpliceEnds(t: Lines, from: nat, cs: Manifest)
    requires from <= |t|
    ensures Splice(t, from, [], cs) == t[from..]
  {
  }
}
