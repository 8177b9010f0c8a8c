/** Updating the checksums of a MODULE.bazel text and checking them, for one version's blocks. */
module BazelUpdate {
  import opened Common
  import opened BazelChecksums

  type Manifest = map<string, Digest>

  /** The block's name begins with the version's prefix. */
  predicate Selected(s: Segment, prefix: string) {
    s.Block? && var name := FirstField(s.lines, NAME); name.Some? && prefix <= name.value
  }

  lemma {:induction false} FirstFieldIs(b: Lines, name: string) returns (i: nat)
    ensures i <= |b| && forall j :: 0 <= j < i ==> !(b[j].Field? && b[j].name == name)
    ensures if i < |b| then b[i].Field? && b[i].name == name && FirstField(b, name) == Some(b[i].value)
            else FirstField(b, name) == None
  {
    i := 0;
    if b != [] && !(b[0].Field? && b[0].name == name) {
      var k := FirstFieldIs(b[1..], name);
      i := k + 1;
    }
  }

  /** That is so exactly if it has a name field, and the first one begins with that text. */
  lemma SelectedExactlyWhen(b: Lines, prefix: string)
    ensures Selected(Block(b), prefix) <==>
              exists i :: 0 <= i < |b| && b[i].Field? && b[i].name == "name" &&
                          |prefix| <= |b[i].value| && b[i].value[..|prefix|] == prefix &&
                          forall j :: 0 <= j < i ==> !(b[j].Field? && b[j].name == "name")
  {
    var i := FirstFieldIs(b, "name");
    if i < |b| && prefix <= b[i].value {
      assert b[i].value[..|prefix|] == prefix;
    }
  }

  /** A selected block and where it stands in the text. */
  datatype HttpFile = HttpFile(start: nat, end: nat, block: Lines, path: string, sha: Option<string>)

  function FileOf(b: Lines, start: nat, path: string): HttpFile {
    HttpFile(start, start + |b|, b, path, FirstField(b, SHA))
  }

  /** The entries of the selected blocks; none at all if one of them has no path. */
  function Entries(segs: seq<Segment>, offset: nat, prefix: string): Option<seq<HttpFile>> {
    if segs == [] then Some([]) else
    var rest := Entries(segs[1..], offset + |LinesOf(segs[0])|, prefix);
    if !Selected(segs[0], prefix) then rest else
    var path := FirstField(segs[0].lines, PATH);
    if path.None? || rest.None? then None else Some([FileOf(segs[0].lines, offset, path.value)] + rest.value)
  }

  function Paths(es: seq<HttpFile>): seq<string> {
    if es == [] then [] else [es[0].path] + Paths(es[1..])
  }

  predicate Unique(names: seq<string>) {
    names != [] ==> names[0] !in names[1..] && Unique(names[1..])
  }

  /** The blocks and the manifest name the same files, each block one of its own. */
  ghost predicate Agree(paths: seq<string>, cs: Manifest) {
    paths != [] && Unique(paths) && (forall p :: p in paths <==> p in cs)
  }

  /** Every entry has the checksum that the manifest has for it. */
  predicate ShasRight(es: seq<HttpFile>, cs: Manifest) {
    es != [] ==> es[0].path in cs && es[0].sha == Some(cs[es[0].path]) && ShasRight(es[1..], cs)
  }

  /** The check finds no error. */
  ghost predicate Passes(t: Lines, cs: Manifest, prefix: string) {
    var es := Entries(Segments(t), 0, prefix);
    es.Some? && Agree(Paths(es.value), cs) && ShasRight(es.value, cs)
  }

  predicate AllWritable(es: seq<HttpFile>) {
    es != [] ==> CanWrite(es[0].block) && AllWritable(es[1..])
  }

  /** The update as the program does it: the entries' lines are replaced one after the other. */
  function Splice(t: Lines, from: nat, es: seq<HttpFile>, cs: Manifest): Lines
    requires from <= |t|
    decreases |es|
  {
    if es == [] || !(from <= es[0].start <= es[0].end <= |t|) || es[0].path !in cs || !CanWrite(es[0].block) then
      t[from..]
    else
      t[from..es[0].start] + WithSha(es[0].block, cs[es[0].path]) + Splice(t, es[0].end, es[1..], cs)
  }

  ghost function Update(t: Lines, cs: Manifest, prefix: string): Option<Lines> {
    var es := Entries(Segments(t), 0, prefix);
    if es.Some? && Agree(Paths(es.value), cs) && AllWritable(es.value) then Some(Splice(t, 0, es.value, cs)) else None
  }

  // ----- the update block by block -------------------------------------------------------------------------------

  /** Every selected block has a path that the manifest knows, and a place for the checksum. */
  predicate Ready(segs: seq<Segment>, cs: Manifest, prefix: string) {
    segs != [] ==> (Selected(segs[0], prefix) ==> BlockReady(segs[0].lines, cs)) && Ready(segs[1..], cs, prefix)
  }

  predicate BlockReady(b: Lines, cs: Manifest) {
    FirstField(b, PATH).Some? && FirstField(b, PATH).value in cs && CanWrite(b)
  }

  function Renew(s: Segment, cs: Manifest, prefix: string): Segment {
    if Selected(s, prefix) && BlockReady(s.lines, cs) then
      Block(WithSha(s.lines, cs[FirstField(s.lines, PATH).value]))
    else s
  }

  function Renewed(segs: seq<Segment>, cs: Manifest, prefix: string): (r: seq<Segment>)
    ensures |r| == |segs| && forall i :: 0 <= i < |r| ==> r[i] == Renew(segs[i], cs, prefix)
  {
    if segs == [] then [] else [Renew(segs[0], cs, prefix)] + Renewed(segs[1..], cs, prefix)
  }

  lemma {:induction false} EntriesAreReady(segs: seq<Segment>, offset: nat, cs: Manifest, prefix: string)
    requires Entries(segs, offset, prefix).Some?
    requires AllWritable(Entries(segs, offset, prefix).value)
    requires forall p :: p in Paths(Entries(segs, offset, prefix).value) ==> p in cs
    ensures Ready(segs, cs, prefix)
  {
    if segs != [] {
      EntriesAreReady(segs[1..], offset + |LinesOf(segs[0])|, cs, prefix);
    }
  }

  lemma {:induction false} EntriesStartLater(segs: seq<Segment>, offset: nat, prefix: string)
    ensures var es := Entries(segs, offset, prefix); es.Some? && es.value != [] ==> offset <= es.value[0].start
  {
    if segs != [] {
      EntriesStartLater(segs[1..], offset + |LinesOf(segs[0])|, prefix);
    }
  }

  /** What stands in front of the first entry is copied. */
  lemma SpliceSkips(t: Lines, from: nat, next: nat, es: seq<HttpFile>, cs: Manifest)
    requires from <= next <= |t| && (es != [] ==> next <= es[0].start)
    ensures Splice(t, from, es, cs) == t[from..next] + Splice(t, next, es, cs)
  {
    if es == [] || !(es[0].start <= es[0].end <= |t|) || es[0].path !in cs || !CanWrite(es[0].block) {
      assert t[from..] == t[from..next] + t[next..];
    } else {
      var start, sha, rest := es[0].start, WithSha(es[0].block, cs[es[0].path]), Splice(t, es[0].end, es[1..], cs);
      SliceSplits(t, from, next, start);
      ConcatTwice(t[from..next], t[next..start], sha, rest);
    }
  }

  lemma SliceSplits(t: Lines, a: nat, b: nat, c: nat)
    requires a <= b <= c <= |t|
    ensures t[a..c] == t[a..b] + t[b..c]
  {
  }

  lemma ConcatTwice(a: Lines, b: Lines, c: Lines, d: Lines)
    ensures a + b + c + d == a + (b + c + d)
  {
  }

  /** An entry that begins here is rewritten. */
  lemma SpliceHere(t: Lines, at: nat, e: HttpFile, es: seq<HttpFile>, cs: Manifest)
    requires at == e.start <= e.end <= |t| && e.path in cs && CanWrite(e.block)
    ensures Splice(t, at, [e] + es, cs) == WithSha(e.block, cs[e.path]) + Splice(t, e.end, es, cs)
  {
    assert t[at..at] == [] && ([e] + es)[1..] == es;
  }

  ghost predicate SplicesTo(t: Lines, at: nat, segs: seq<Segment>, cs: Manifest, prefix: string) {
    var es := Entries(segs, at, prefix);
    at <= |t| && es.Some? && Splice(t, at, es.value, cs) == Text(Renewed(segs, cs, prefix))
  }

  /** Replacing by offsets rewrites exactly the selected blocks. */
  lemma {:induction false} SpliceIsRenewed(t: Lines, at: nat, segs: seq<Segment>, cs: Manifest, prefix: string)
    requires Ready(segs, cs, prefix)
    requires at <= |t| && t[at..] == Text(segs)
    ensures SplicesTo(t, at, segs, cs, prefix)
    decreases |segs|
  {
    hide SplicesTo, Text, FirstField, CanWrite;
    if segs == [] {
      SplicesNothing(t, at, cs, prefix);
    } else {
      NextSegment(t, at, segs);
      SpliceIsRenewed(t, at + |LinesOf(segs[0])|, segs[1..], cs, prefix);
      if Selected(segs[0], prefix) {
        SplicesSelected(t, at, segs, cs, prefix);
      } else {
        SplicesOther(t, at, segs, cs, prefix);
      }
    }
  }

  lemma SplicesNothing(t: Lines, at: nat, cs: Manifest, prefix: string)
    requires at <= |t| && t[at..] == Text([])
    ensures SplicesTo(t, at, [], cs, prefix)
  {
    assert Renewed([], cs, prefix) == [];
  }

  lemma SplicesOther(t: Lines, at: nat, segs: seq<Segment>, cs: Manifest, prefix: string)
    requires segs != [] && !Selected(segs[0], prefix)
    requires var next := at + |LinesOf(segs[0])|;
             SplicesTo(t, next, segs[1..], cs, prefix) && t[at..next] == LinesOf(segs[0])
    ensures SplicesTo(t, at, segs, cs, prefix)
  {
    var next := at + |LinesOf(segs[0])|;
    EntriesStartLater(segs[1..], next, prefix);
    SpliceSkips(t, at, next, Entries(segs[1..], next, prefix).value, cs);
    RenewedText(segs, cs, prefix);
    hide Splice, Text, Renewed, Selected;
  }

  lemma SplicesSelected(t: Lines, at: nat, segs: seq<Segment>, cs: Manifest, prefix: string)
    requires segs != [] && Selected(segs[0], prefix) && BlockReady(segs[0].lines, cs)
    requires SplicesTo(t, at + |segs[0].lines|, segs[1..], cs, prefix)
    ensures SplicesTo(t, at, segs, cs, prefix)
  {
    hide Splice, Text, Renewed, WithSha, Entries, CanWrite, FirstField;
    var b, next := segs[0].lines, at + |segs[0].lines|;
    var e := FileOf(b, at, FirstField(b, PATH).value);
    SpliceHere(t, at, e, Entries(segs[1..], next, prefix).value, cs);
    RenewedText(segs, cs, prefix);
    FirstEntry(segs, at, prefix);
  }

  lemma RenewedText(segs: seq<Segment>, cs: Manifest, prefix: string)
    requires segs != []
    ensures Text(Renewed(segs, cs, prefix)) ==
            LinesOf(Renew(segs[0], cs, prefix)) + Text(Renewed(segs[1..], cs, prefix))
  {
  }

  lemma NextSegment(t: Lines, at: nat, segs: seq<Segment>)
    requires segs != [] && at <= |t| && t[at..] == Text(segs)
    ensures var next := at + |LinesOf(segs[0])|;
            next <= |t| && t[at..next] == LinesOf(segs[0]) && t[next..] == Text(segs[1..])
  {
    var ls := LinesOf(segs[0]);
    assert Text(segs) == ls + Text(segs[1..]);
    assert t[at + |ls|..] == t[at..][|ls|..] && t[at..at + |ls|] == t[at..][..|ls|];
  }

  /** Without a closing line there are no blocks. */
  lemma {:induction false} NoCloseNoBlocks(t: Lines, cs: Manifest, prefix: string)
    requires CloseAt(t) == |t|
    ensures Renewed(Segments(t), cs, prefix) == Segments(t)
    decreases |t|
  {
    if t != [] {
      NoCloseNoBlocks(t[1..], cs, prefix);
      assert Segments(t)[1..] == Segments(t[1..]);
    }
  }

  lemma RenewedIsABlock(b: Lines, cs: Manifest, prefix: string)
    requires IsBlock(b)
    ensures var r := Renew(Block(b), cs, prefix); r.Block? && IsBlock(r.lines)
  {
    hide IsBlock, WithSha, CanWrite;
    if Renew(Block(b), cs, prefix) != Block(b) {
      WritingKeeps(b, cs[FirstField(b, PATH).value], NAME);
    }
  }

  lemma LineInFront(l: Line, t: Lines)
    requires !l.Open?
    ensures Segments([l] + t) == [Gap(l)] + Segments(t)
  {
    assert ([l] + t)[1..] == t;
  }

  /** The rewritten text is cut into the rewritten segments. */
  lemma {:induction false} RenewedTextIsCutAlike(t: Lines, cs: Manifest, prefix: string)
    ensures Segments(Text(Renewed(Segments(t), cs, prefix))) == Renewed(Segments(t), cs, prefix)
    decreases |t|
  {
    if t == [] {
    } else if t[0].Open? && CloseAt(t) < |t| {
      var b, rest := t[..CloseAt(t) + 1], t[CloseAt(t) + 1..];
      FirstBlock(t);
      assert Segments(t) == [Block(b)] + Segments(rest);
      RenewedTextIsCutAlike(rest, cs, prefix);
      hide IsBlock, Renew, Segments;
      RenewedText([Block(b)] + Segments(rest), cs, prefix);
      RenewedIsABlock(b, cs, prefix);
      assert ([Block(b)] + Segments(rest))[1..] == Segments(rest);
      BlockInFront(Renew(Block(b), cs, prefix).lines, Text(Renewed(Segments(rest), cs, prefix)));
    } else if t[0].Open? {
      NoCloseNoBlocks(t, cs, prefix);
      SegmentsAreTheText(t);
    } else {
      assert Segments(t) == [Gap(t[0])] + Segments(t[1..]);
      RenewedTextIsCutAlike(t[1..], cs, prefix);
      hide Segments;
      RenewedText([Gap(t[0])] + Segments(t[1..]), cs, prefix);
      assert ([Gap(t[0])] + Segments(t[1..]))[1..] == Segments(t[1..]);
      LineInFront(t[0], Text(Renewed(Segments(t[1..]), cs, prefix)));
    }
  }

  /** Every block of a cut is a block. */
  lemma CutIntoBlocks(t: Lines, s: Segment)
    requires s in Segments(t) && s.Block?
    ensures IsBlock(s.lines)
  {
    var k :| 0 <= k < |Segments(t)| && Segments(t)[k] == s;
    SegmentsExactly(t, k);
  }

  /** The update, if it succeeds, rewrites exactly the selected blocks, block by block; all other lines stay. */
  lemma UpdateIsRenewed(t: Lines, cs: Manifest, prefix: string)
    requires Update(t, cs, prefix).Some?
    ensures var u := Update(t, cs, prefix).value;
            && u == Text(Renewed(Segments(t), cs, prefix)) && Segments(u) == Renewed(Segments(t), cs, prefix)
            && Ready(Segments(t), cs, prefix)
  {
    EntriesAreReady(Segments(t), 0, cs, prefix);
    SegmentsAreTheText(t);
    SpliceIsRenewed(t, 0, Segments(t), cs, prefix);
    RenewedTextIsCutAlike(t, cs, prefix);
  }

  // ----- the update and the check ----------------------------------------------------------------------------------

  /** In every selected block no sha256 field stands in front of the place where the update writes. */
  predicate AllFirst(segs: seq<Segment>, prefix: string) {
    segs != [] ==>
      && (Selected(segs[0], prefix) && CanWrite(segs[0].lines) ==>
            FirstField(segs[0].lines[..WriteAt(segs[0].lines)], SHA) == None)
      && AllFirst(segs[1..], prefix)
  }

  ghost predicate AreBlocks(segs: seq<Segment>) {
    forall s :: s in segs && s.Block? ==> IsBlock(s.lines)
  }

  /** A rewritten block is selected as before, has its path, and has its checksum if it is the first. */
  lemma RenewedBlock(s: Segment, cs: Manifest, prefix: string)
    requires Selected(s, prefix) && IsBlock(s.lines) && BlockReady(s.lines, cs)
    ensures var r := Renew(s, cs, prefix);
            && Selected(r, prefix) && IsBlock(r.lines) && BlockReady(r.lines, cs)
            && FirstField(r.lines, PATH) == FirstField(s.lines, PATH)
            && (FirstField(r.lines, SHA) == Some(cs[FirstField(s.lines, PATH).value]) <==>
                FirstField(s.lines[..WriteAt(s.lines)], SHA) == None)
  {
    var c := cs[FirstField(s.lines, PATH).value];
    hide WithSha, FirstField, CanWrite, IsBlock;
    WritingKeeps(s.lines, c, NAME);
    WritingKeeps(s.lines, c, PATH);
    WrittenIsReadExactlyWhen(s.lines, c);
    WritingAgain(s.lines, c);
  }

  /** The entries of the rewritten blocks name the same paths, and have the manifest's checksums if those are the
      first ones. */
  ghost predicate EntriesFollow(es: seq<HttpFile>, es': seq<HttpFile>, cs: Manifest, first: bool) {
    && Paths(es') == Paths(es) && AllWritable(es')
    && ((forall p :: p in Paths(es) ==> p in cs) ==> (ShasRight(es', cs) <==> first))
  }

  lemma OneMoreEntry(e: HttpFile, es: seq<HttpFile>, e': HttpFile, es': seq<HttpFile>,
                     cs: Manifest, now: bool, first: bool)
    requires EntriesFollow(es, es', cs, first)
    requires e'.path == e.path && e.path in cs && CanWrite(e'.block) && (e'.sha == Some(cs[e.path]) <==> now)
    ensures EntriesFollow([e] + es, [e'] + es', cs, now && first)
  {
    assert ([e] + es)[1..] == es && ([e'] + es')[1..] == es';
    assert forall p :: p in Paths(es) ==> p in Paths([e] + es);
    assert Paths([e] + es) == [e.path] + Paths(es);
  }

  /** The entries of the rewritten segments follow those of the segments. */
  ghost predicate Follows(segs: seq<Segment>, cs: Manifest, prefix: string, at: nat, at': nat) {
    var es, es' := Entries(segs, at, prefix), Entries(Renewed(segs, cs, prefix), at', prefix);
    es.Some? && es'.Some? && EntriesFollow(es.value, es'.value, cs, AllFirst(segs, prefix))
  }

  lemma {:induction false} RenewedEntries(segs: seq<Segment>, cs: Manifest, prefix: string, at: nat, at': nat)
    requires Ready(segs, cs, prefix) && AreBlocks(segs)
    ensures Follows(segs, cs, prefix, at, at')
  {
    hide Follows, Selected, BlockReady, Renew, AreBlocks, IsBlock;
    if segs == [] {
      NothingFollows(cs, prefix, at, at');
    } else {
      FirstIsBlock(segs);
      var next, next' := at + |LinesOf(segs[0])|, at' + |LinesOf(Renew(segs[0], cs, prefix))|;
      RenewedEntries(segs[1..], cs, prefix, next, next');
      SelectedOrKept(segs[0], cs, prefix);
      if Selected(segs[0], prefix) {
        FollowsSelected(segs, cs, prefix, at, at');
      } else {
        FollowsOther(segs, cs, prefix, at, at');
      }
    }
  }

  lemma NothingFollows(cs: Manifest, prefix: string, at: nat, at': nat)
    ensures Follows([], cs, prefix, at, at')
  {
  }

  lemma FirstIsBlock(segs: seq<Segment>)
    requires segs != [] && AreBlocks(segs)
    ensures AreBlocks(segs[1..]) && (segs[0].Block? ==> IsBlock(segs[0].lines))
  {
    assert segs[0] in segs && forall x :: x in segs[1..] ==> x in segs;
  }

  lemma SelectedOrKept(s: Segment, cs: Manifest, prefix: string)
    ensures if Selected(s, prefix) then s.Block? else Renew(s, cs, prefix) == s
  {
  }

  lemma RenewedSplits(segs: seq<Segment>, cs: Manifest, prefix: string)
    requires segs != []
    ensures Renewed(segs, cs, prefix) == [Renew(segs[0], cs, prefix)] + Renewed(segs[1..], cs, prefix)
    ensures Renewed(segs, cs, prefix)[0] == Renew(segs[0], cs, prefix)
    ensures Renewed(segs, cs, prefix)[1..] == Renewed(segs[1..], cs, prefix)
  {
  }

  lemma FollowsOther(segs: seq<Segment>, cs: Manifest, prefix: string, at: nat, at': nat)
    requires segs != [] && !Selected(segs[0], prefix)
    requires Follows(segs[1..], cs, prefix, at + |LinesOf(segs[0])|, at' + |LinesOf(segs[0])|)
    ensures Follows(segs, cs, prefix, at, at')
  {
    hide EntriesFollow, Selected;
    RenewedSplits(segs, cs, prefix);
    hide Renewed;
  }

  lemma FollowsSelected(segs: seq<Segment>, cs: Manifest, prefix: string, at: nat, at': nat)
    requires segs != [] && Selected(segs[0], prefix) && IsBlock(segs[0].lines) && BlockReady(segs[0].lines, cs)
    requires var r := Renew(segs[0], cs, prefix);
             Follows(segs[1..], cs, prefix, at + |segs[0].lines|, at' + |LinesOf(r)|)
    ensures Follows(segs, cs, prefix, at, at')
  {
    hide EntriesFollow, Renewed, Renew, FirstField, WithSha, IsBlock, CanWrite, Entries;
    var s, r := segs[0], Renew(segs[0], cs, prefix);
    RenewedBlock(s, cs, prefix);
    RenewedSplits(segs, cs, prefix);
    var path := FirstField(s.lines, PATH).value;
    var now := FirstField(s.lines[..WriteAt(s.lines)], SHA) == None;
    var es := Entries(segs[1..], at + |s.lines|, prefix);
    var es' := Entries(Renewed(segs[1..], cs, prefix), at' + |r.lines|, prefix);
    OneMoreEntry(FileOf(s.lines, at, path), es.value, FileOf(r.lines, at', path), es'.value,
                 cs, now, AllFirst(segs[1..], prefix));
    assert AllFirst(segs, prefix) == (now && AllFirst(segs[1..], prefix));
    FirstEntry(segs, at, prefix);
    FirstEntry(Renewed(segs, cs, prefix), at', prefix);
  }

  lemma FirstEntry(segs: seq<Segment>, at: nat, prefix: string)
    requires segs != [] && Selected(segs[0], prefix) && FirstField(segs[0].lines, PATH).Some?
    requires Entries(segs[1..], at + |segs[0].lines|, prefix).Some?
    ensures var b := segs[0].lines;
            Entries(segs, at, prefix) ==
            Some([FileOf(b, at, FirstField(b, PATH).value)] + Entries(segs[1..], at + |b|, prefix).value)
  {
  }

  lemma CutsAreBlocks(t: Lines)
    ensures AreBlocks(Segments(t))
  {
    forall s | s in Segments(t) && s.Block? ensures IsBlock(s.lines) {
      CutIntoBlocks(t, s);
    }
  }

  /** After an update the check passes exactly if, in every selected block, no sha256 field stands in front of the
      place where the update writes. */
  lemma UpdateThenCheckExactlyWhen(t: Lines, cs: Manifest, prefix: string)
    requires Update(t, cs, prefix).Some?
    ensures Passes(Update(t, cs, prefix).value, cs, prefix) <==> AllFirst(Segments(t), prefix)
  {
    UpdateIsRenewed(t, cs, prefix);
    CutsAreBlocks(t);
    RenewedEntries(Segments(t), cs, prefix, 0, 0);
  }

  /** The existing sha256 fields of the selected blocks are lowercase hex. */
  ghost predicate HexOnly(t: Lines, prefix: string) {
    forall s :: s in Segments(t) && Selected(s, prefix) ==>
      forall l :: l in s.lines && l.Field? && l.name == SHA ==> IsHex(l.value)
  }

  lemma {:induction false} FirstFieldIsALine(b: Lines, name: string)
    ensures FirstField(b, name).Some? ==>
              exists l :: l in b && l.Field? && l.name == name && l.value == FirstField(b, name).value
  {
    if b != [] && !(b[0].Field? && b[0].name == name) {
      FirstFieldIsALine(b[1..], name);
    }
  }

  lemma HexBlocksWriteFirst(b: Lines)
    requires CanWrite(b) && forall l :: l in b && l.Field? && l.name == SHA ==> IsHex(l.value)
    ensures FirstField(b[..WriteAt(b)], SHA) == None
  {
    var front := b[..WriteAt(b)];
    FrontHasNoHex(b, WriteAt(b));
    ShaWithoutHex(front);
    FirstFieldIsALine(front, SHA);
  }

  lemma {:induction false} HexMeansFirst(segs: seq<Segment>, prefix: string)
    requires forall s :: s in segs && Selected(s, prefix) ==>
               forall l :: l in s.lines && l.Field? && l.name == SHA ==> IsHex(l.value)
    ensures AllFirst(segs, prefix)
  {
    if segs != [] {
      assert segs[0] in segs && forall x :: x in segs[1..] ==> x in segs;
      if Selected(segs[0], prefix) && CanWrite(segs[0].lines) {
        HexBlocksWriteFirst(segs[0].lines);
      }
      HexMeansFirst(segs[1..], prefix);
    }
  }

  /** With lowercase-hex checksums, an update that succeeds makes the check pass. */
  lemma UpdateThenCheck(t: Lines, cs: Manifest, prefix: string)
    requires Update(t, cs, prefix).Some? && HexOnly(t, prefix)
    ensures Passes(Update(t, cs, prefix).value, cs, prefix)
  {
    UpdateThenCheckExactlyWhen(t, cs, prefix);
    HexMeansFirst(Segments(t), prefix);
  }

  // ----- a second update -------------------------------------------------------------------------------------------

  /** Every selected block has a lowercase-hex checksum, or no blank line behind its path. */
  predicate AllSettle(segs: seq<Segment>, prefix: string) {
    segs != [] ==>
      && (Selected(segs[0], prefix) && CanWrite(segs[0].lines) ==> Settles(segs[0].lines))
      && AllSettle(segs[1..], prefix)
  }

  lemma RenewingTwice(s: Segment, cs: Manifest, prefix: string)
    requires Selected(s, prefix) && IsBlock(s.lines) && BlockReady(s.lines, cs)
    ensures var r := Renew(s, cs, prefix);
            && Selected(r, prefix) && CanWrite(r.lines) && Settles(r.lines)
            && (Renew(r, cs, prefix) == r <==> Settles(s.lines))
  {
    RenewedBlock(s, cs, prefix);
    WritingAgain(s.lines, cs[FirstField(s.lines, PATH).value]);
  }

  lemma {:induction false} RenewedTwice(segs: seq<Segment>, cs: Manifest, prefix: string)
    requires Ready(segs, cs, prefix) && AreBlocks(segs)
    ensures var r := Renewed(segs, cs, prefix);
            && Ready(r, cs, prefix) && AllSettle(r, prefix)
            && (Renewed(r, cs, prefix) == r <==> AllSettle(segs, prefix))
  {
    if segs != [] {
      var r := Renewed(segs, cs, prefix);
      assert segs[0] in segs && forall x :: x in segs[1..] ==> x in segs;
      RenewedTwice(segs[1..], cs, prefix);
      assert r[0] == Renew(segs[0], cs, prefix) && r[1..] == Renewed(segs[1..], cs, prefix);
      if Selected(segs[0], prefix) {
        RenewedBlock(segs[0], cs, prefix);
        RenewingTwice(segs[0], cs, prefix);
      }
      SameWhenPartsAre(r, Renew(r[0], cs, prefix), Renewed(r[1..], cs, prefix));
    }
  }

  lemma SameWhenPartsAre(r: seq<Segment>, first: Segment, rest: seq<Segment>)
    requires r != []
    ensures [first] + rest == r <==> first == r[0] && rest == r[1..]
  {
    assert ([first] + rest)[1..] == rest;
    assert [r[0]] + r[1..] == r;
  }

  /** A second update succeeds; it changes nothing exactly if every selected block had a lowercase-hex checksum to
      write over or no blank line behind its path.  A third update never changes anything. */
  lemma UpdateAgainExactlyWhen(t: Lines, cs: Manifest, prefix: string)
    requires Update(t, cs, prefix).Some?
    ensures var u := Update(t, cs, prefix).value;
            && Update(u, cs, prefix).Some?
            && (Update(u, cs, prefix).value == u <==> AllSettle(Segments(t), prefix))
  {
    var u := Update(t, cs, prefix).value;
    UpdateIsRenewed(t, cs, prefix);
    CutsAreBlocks(t);
    RenewedEntries(Segments(t), cs, prefix, 0, 0);
    UpdateIsRenewed(u, cs, prefix);
    RenewedTwice(Segments(t), cs, prefix);
  }

  lemma ThirdUpdateChangesNothing(t: Lines, cs: Manifest, prefix: string)
    requires Update(t, cs, prefix).Some? && Update(Update(t, cs, prefix).value, cs, prefix).Some?
    ensures var u := Update(Update(t, cs, prefix).value, cs, prefix).value; Update(u, cs, prefix) == Some(u)
  {
    var u := Update(t, cs, prefix).value;
    UpdateIsRenewed(t, cs, prefix);
    CutsAreBlocks(t);
    RenewedTwice(Segments(t), cs, prefix);
    UpdateAgainExactlyWhen(u, cs, prefix);
  }
}
