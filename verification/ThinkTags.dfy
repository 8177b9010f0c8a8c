/** Removing nested `<think>` blocks from a text that arrives in chunks. */
module ThinkTags {

  const THINK_START := "<think>"
  const THINK_END := "</think>"

  // ----- the specification: one pass over the whole text --------------------------------------

  /** The text of `s` outside think blocks, when `d` blocks are open at its beginning. */
  function Strip(s: string, d: nat): string
    decreases |s|
  {
    if s == "" then ""
    else if THINK_START <= s then Strip(s[|THINK_START|..], d + 1)
    else if d > 0 && THINK_END <= s then Strip(s[|THINK_END|..], d - 1)
    else if d > 0 then Strip(s[1..], d)
    else [s[0]] + Strip(s[1..], 0)
  }

  predicate TagAt(s: string, i: nat)
    requires i <= |s|
  {
    THINK_START <= s[i..] || THINK_END <= s[i..]
  }

  ghost predicate NoTag(s: string) {
    forall i :: 0 <= i <= |s| ==> !TagAt(s, i)
  }

  /** What is carried from one chunk to the next: the number of open blocks and, inside a block, the
      text after the last tag. */
  datatype Carry = Carry(depth: nat, buf: string)

  ghost function Scan(s: string, d: nat): Carry
    decreases |s|
  {
    if s == "" then Carry(d, "")
    else if d > 0 && NoTag(s) then Carry(d, s)
    else if THINK_START <= s then Scan(s[|THINK_START|..], d + 1)
    else if d > 0 && THINK_END <= s then Scan(s[|THINK_END|..], d - 1)
    else Scan(s[1..], d)
  }

  // ----- the code: one chunk at a time ----------------------------------------------------------

  ghost predicate Occurs(p: string, s: string) {
    exists i :: 0 <= i <= |s| && p <= s[i..]
  }

  /** A chunk is scanned only if it holds a tag or a block is open. */
  ghost predicate Scanned(c: Carry, chunk: string) {
    Occurs(THINK_START, chunk) || Occurs(THINK_END, chunk) || c.depth > 0
  }

  ghost function ChunkOut(c: Carry, chunk: string): string {
    if Scanned(c, chunk) then Strip(c.buf + chunk, c.depth) else chunk
  }

  ghost function ChunkCarry(c: Carry, chunk: string): Carry {
    if Scanned(c, chunk) then Scan(c.buf + chunk, c.depth) else c
  }

  ghost predicate ValidCarry(c: Carry) { if c.depth == 0 then c.buf == "" else NoTag(c.buf) }

  ghost function StripChunks(c: Carry, chunks: seq<string>): string
    decreases |chunks|
  {
    if chunks == [] then "" else ChunkOut(c, chunks[0]) + StripChunks(ChunkCarry(c, chunks[0]), chunks[1..])
  }

  function Concat(chunks: seq<string>): string {
    if chunks == [] then "" else chunks[0] + Concat(chunks[1..])
  }

  // ----- openings that a chunk boundary cuts in two ----------------------------------------------

  /** Reading `a` with `d` blocks open meets, outside every block, an opening tag that begins in `a` and
      ends in the following text `b`. */
  ghost predicate Straddles(a: string, d: nat, b: string)
    decreases |a|
  {
    if a == "" || (d > 0 && NoTag(a)) then false
    else if THINK_START <= a then Straddles(a[|THINK_START|..], d + 1, b)
    else if d > 0 && THINK_END <= a then Straddles(a[|THINK_END|..], d - 1, b)
    else (d == 0 && THINK_START <= a + b) || Straddles(a[1..], d, b)
  }

  ghost predicate SomeStraddle(c: Carry, chunks: seq<string>)
    decreases |chunks|
  {
    chunks != [] &&
    (|| Straddles(c.buf + chunks[0], c.depth, Concat(chunks[1..]))
     || SomeStraddle(ChunkCarry(c, chunks[0]), chunks[1..]))
  }

  // ----- facts about stripping --------------------------------------------------------------------

  lemma {:induction false} StripPlain(p: string, s: string)
    requires '<' !in p
    ensures Strip(p + s, 0) == p + Strip(s, 0)
  {
    if p == "" {
      assert p + s == s;
    } else {
      assert (p + s)[0] == p[0] && (p + s)[1..] == p[1..] + s;
      StripPlain(p[1..], s);
      assert [p[0]] + (p[1..] + Strip(s, 0)) == p + Strip(s, 0);
    }
  }

  lemma StripEndOutside(s: string)
    requires THINK_END <= s
    ensures Strip(s, 0) == THINK_END + Strip(s[|THINK_END|..], 0)
  {
    var rest := s[|THINK_END|..];
    assert s[1] == '/';
    assert s[1..] == "/think>" + rest;
    StripPlain("/think>", rest);
    assert ['<'] + ("/think>" + Strip(rest, 0)) == THINK_END + Strip(rest, 0);
  }

  /** Opening one more block never lets more text through. */
  lemma {:induction false} DeeperIsShorter(s: string, d: nat)
    ensures |Strip(s, d + 1)| <= |Strip(s, d)|
    decreases |s|
  {
    if s == "" {
    } else if THINK_START <= s {
      DeeperIsShorter(s[|THINK_START|..], d + 1);
    } else if THINK_END <= s {
      if d > 0 {
        DeeperIsShorter(s[|THINK_END|..], d - 1);
      } else {
        StripEndOutside(s);
      }
    } else {
      DeeperIsShorter(s[1..], d);
    }
  }

  lemma TagNeedsRoom(a: string, b: string)
    requires !NoTag(a) && !TagAt(a, 0)
    ensures !TagAt(a + b, 0)
    ensures a != "" && !NoTag(a[1..])
  {
    var i :| 0 <= i <= |a| && TagAt(a, i);
    assert i > 0;
    assert a[1..][i - 1..] == a[i..];
    assert TagAt(a[1..], i - 1);
    assert |a| >= 8;
    assert forall k :: 0 <= k < 8 ==> (a + b)[k] == a[k];
    assert THINK_END <= a[i..] ==> |a| >= 9;
  }

  lemma {:induction false} NoTagStripsToNothing(s: string, d: nat)
    requires d > 0 && NoTag(s)
    ensures Strip(s, d) == ""
    decreases |s|
  {
    if s != "" {
      assert s[0..] == s;
      assert !TagAt(s, 0);
      forall i | 0 <= i <= |s[1..]| ensures !TagAt(s[1..], i) {
        assert s[1..][i..] == s[i + 1..];
        assert !TagAt(s, i + 1);
      }
      NoTagStripsToNothing(s[1..], d);
    }
  }

  lemma PrefixOfLonger(p: string, a: string, b: string)
    requires p <= a + b && |p| <= |a|
    ensures p <= a
  {
    assert a[..|p|] == (a + b)[..|p|];
  }

  lemma TagStays(p: string, a: string, b: string)
    requires p <= a
    ensures p <= a + b && (a + b)[|p|..] == a[|p|..] + b
  {
  }

  /** Neither tag is at the head of both `a` and `a + b`. */
  lemma HeadStaysPlain(a: string, d: nat, b: string)
    requires a != "" && !(THINK_START <= a) && !(d > 0 && THINK_END <= a)
    requires if d > 0 then !NoTag(a) else !(THINK_START <= a + b)
    ensures !(THINK_START <= a + b) && !(d > 0 && THINK_END <= a + b)
    ensures (a + b)[1..] == a[1..] + b && (a + b)[0] == a[0]
  {
    if d > 0 {
      assert a[0..] == a && (a + b)[0..] == a + b;
      TagNeedsRoom(a, b);
    }
  }

  /** Reading on after `a` is reading from what `a` leaves behind. */
  ghost predicate Splits(a: string, d: nat, b: string) {
    var c := Scan(a, d);
    Strip(a + b, d) == Strip(a, d) + Strip(c.buf + b, c.depth)
  }

  /** That is so unless an opening is cut in two. */
  lemma {:induction false} StripSplits(a: string, d: nat, b: string)
    requires !Straddles(a, d, b)
    ensures Splits(a, d, b)
    decreases |a|
  {
    hide Splits, Strip, Scan, NoTag, TagAt;
    if a == "" {
      EmptySplits(d, b);
    } else if d > 0 && NoTag(a) {
      BlockTextSplits(a, d, b);
    } else if THINK_START <= a {
      StripSplits(a[|THINK_START|..], d + 1, b);
      OpeningSplits(a, d, b);
    } else if d > 0 && THINK_END <= a {
      StripSplits(a[|THINK_END|..], d - 1, b);
      ClosingSplits(a, d, b);
    } else {
      StripSplits(a[1..], d, b);
      PlainSplits(a, d, b);
    }
  }

  lemma EmptySplits(d: nat, b: string)
    ensures Splits("", d, b)
  {
    assert "" + b == b;
  }

  lemma BlockTextSplits(a: string, d: nat, b: string)
    requires d > 0 && NoTag(a)
    ensures Splits(a, d, b)
  {
    NoTagStripsToNothing(a, d);
  }

  lemma OpeningSplits(a: string, d: nat, b: string)
    requires THINK_START <= a && Splits(a[|THINK_START|..], d + 1, b)
    ensures Splits(a, d, b)
  {
    TagStays(THINK_START, a, b);
    assert TagAt(a, 0);
  }

  lemma ClosingSplits(a: string, d: nat, b: string)
    requires d > 0 && THINK_END <= a && Splits(a[|THINK_END|..], d - 1, b)
    ensures Splits(a, d, b)
  {
    TagStays(THINK_END, a, b);
    assert TagAt(a, 0);
    assert (a + b)[1] != THINK_START[1];
  }

  /** The step over a character that is at the head of no tag. */
  lemma PlainSplits(a: string, d: nat, b: string)
    requires a != "" && !(THINK_START <= a) && !(d > 0 && THINK_END <= a)
    requires if d > 0 then !NoTag(a) else !(THINK_START <= a + b)
    requires Splits(a[1..], d, b)
    ensures Splits(a, d, b)
  {
    HeadStaysPlain(a, d, b);
    hide Strip, Scan, NoTag;
    PlainStep(a, d);
    PlainStep(a + b, d);
  }

  lemma PlainStep(s: string, d: nat)
    requires s != "" && !(THINK_START <= s) && !(d > 0 && THINK_END <= s)
    ensures Strip(s, d) == (if d > 0 then "" else [s[0]]) + Strip(s[1..], d)
    ensures !(d > 0 && NoTag(s)) ==> Scan(s, d) == Scan(s[1..], d)
  {
  }

  lemma {:induction false} ScanKeepsValid(s: string, d: nat)
    ensures ValidCarry(Scan(s, d))
    decreases |s|
  {
    if s == "" || (d > 0 && NoTag(s)) {
    } else if THINK_START <= s {
      ScanKeepsValid(s[|THINK_START|..], d + 1);
    } else if d > 0 && THINK_END <= s {
      ScanKeepsValid(s[|THINK_END|..], d - 1);
    } else {
      ScanKeepsValid(s[1..], d);
    }
  }

  /** Reading `a` and `b` one after the other, with nothing carried over, lets more text through. */
  ghost predicate Lengthens(a: string, d: nat, b: string) {
    Scan(a, d) == Carry(0, "") && |Strip(a + b, d)| < |Strip(a, d)| + |Strip(b, 0)|
  }

  /** A cut opening costs at least its own length. */
  lemma {:induction false} StraddleLengthens(a: string, d: nat, b: string)
    requires Straddles(a, d, b)
    ensures Lengthens(a, d, b)
    decreases |a|
  {
    hide Lengthens, Strip, Scan, NoTag, TagAt;
    if THINK_START <= a {
      StraddleLengthens(a[|THINK_START|..], d + 1, b);
      OpeningLengthens(a, d, b);
    } else if d > 0 && THINK_END <= a {
      StraddleLengthens(a[|THINK_END|..], d - 1, b);
      ClosingLengthens(a, d, b);
    } else if d == 0 && THINK_START <= a + b {
      CutOpening(a, b);
    } else {
      StraddleLengthens(a[1..], d, b);
      PlainLengthens(a, d, b);
    }
  }

  lemma OpeningLengthens(a: string, d: nat, b: string)
    requires THINK_START <= a && Lengthens(a[|THINK_START|..], d + 1, b)
    ensures Lengthens(a, d, b)
  {
    TagStays(THINK_START, a, b);
    assert TagAt(a, 0);
  }

  lemma ClosingLengthens(a: string, d: nat, b: string)
    requires d > 0 && THINK_END <= a && Lengthens(a[|THINK_END|..], d - 1, b)
    ensures Lengthens(a, d, b)
  {
    TagStays(THINK_END, a, b);
    assert TagAt(a, 0);
    assert (a + b)[1] != THINK_START[1];
  }

  lemma PlainLengthens(a: string, d: nat, b: string)
    requires a != "" && !(THINK_START <= a) && !(d > 0 && THINK_END <= a)
    requires if d > 0 then !NoTag(a) else !(THINK_START <= a + b)
    requires Lengthens(a[1..], d, b)
    ensures Lengthens(a, d, b)
  {
    HeadStaysPlain(a, d, b);
    hide Strip, Scan, NoTag;
    PlainStep(a, d);
    PlainStep(a + b, d);
  }

  /** A text that a whole opening tag begins. */
  lemma CutPieces(a: string, b: string)
    requires a != "" && !(THINK_START <= a) && THINK_START <= a + b
    ensures 0 < |a| < |THINK_START| && a == THINK_START[..|a|]
    ensures b == THINK_START[|a|..] + (a + b)[|THINK_START|..]
  {
    if |a| >= |THINK_START| {
      PrefixOfLonger(THINK_START, a, b);
      assert false;
    }
  }

  lemma {:induction false} PlainStripsToItself(s: string)
    requires '<' !in s
    ensures Strip(s, 0) == s
  {
    StripPlain(s, "");
    assert s + "" == s;
  }

  lemma BeginningIsKept(n: nat)
    requires 0 < n < |THINK_START|
    ensures Strip(THINK_START[..n], 0) == THINK_START[..n] && Scan(THINK_START[..n], 0) == Carry(0, "")
    ensures '<' !in THINK_START[n..]
  {
    var a := THINK_START[..n];
    assert '<' !in a[1..];
    PlainStripsToItself(a[1..]);
    PlainScansAway(a[1..]);
    assert [a[0]] + a[1..] == a;
  }

  lemma CutOpening(a: string, b: string)
    requires a != "" && !(THINK_START <= a) && THINK_START <= a + b
    ensures Lengthens(a, 0, b)
  {
    CutPieces(a, b);
    var rest := (a + b)[|THINK_START|..];
    BeginningIsKept(|a|);
    StripPlain(THINK_START[|a|..], rest);
    DeeperIsShorter(rest, 0);
    assert Strip(a + b, 0) == Strip(rest, 1);
    hide Strip, Scan;
  }

  lemma {:induction false} PlainScansAway(s: string)
    requires '<' !in s
    ensures Scan(s, 0) == Carry(0, "")
  {
    if s != "" {
      assert s[0] in s;
      PlainScansAway(s[1..]);
    }
  }

  // ----- chunking ------------------------------------------------------------------------------------

  lemma {:induction false} UntaggedChunk(chunk: string)
    requires !Occurs(THINK_START, chunk)
    ensures Strip(chunk, 0) == chunk && Scan(chunk, 0) == Carry(0, "")
    decreases |chunk|
  {
    if chunk != "" {
      assert chunk[0..] == chunk;
      forall i | 0 <= i <= |chunk[1..]| ensures !(THINK_START <= chunk[1..][i..]) {
        assert chunk[1..][i..] == chunk[i + 1..];
      }
      UntaggedChunk(chunk[1..]);
      assert [chunk[0]] + chunk[1..] == chunk;
    }
  }

  /** Whether or not a chunk is scanned, it is treated as if it were. */
  lemma ChunkIsScanned(c: Carry, chunk: string)
    requires ValidCarry(c)
    ensures ChunkOut(c, chunk) == Strip(c.buf + chunk, c.depth)
    ensures ChunkCarry(c, chunk) == Scan(c.buf + chunk, c.depth)
    ensures ValidCarry(ChunkCarry(c, chunk))
  {
    ScanKeepsValid(c.buf + chunk, c.depth);
    if !Scanned(c, chunk) {
      assert c.buf + chunk == chunk;
      UntaggedChunk(chunk);
    }
  }

  /** Chunking never removes more than one pass over the whole text does, and exactly as much if and
      only if no opening outside a block is cut in two. */
  lemma {:induction false} ChunkingLength(c: Carry, chunks: seq<string>)
    requires ValidCarry(c)
    ensures var whole := Strip(c.buf + Concat(chunks), c.depth);
            && |StripChunks(c, chunks)| >= |whole|
            && (if SomeStraddle(c, chunks) then |StripChunks(c, chunks)| > |whole|
                else StripChunks(c, chunks) == whole)
    decreases |chunks|
  {
    if chunks == [] {
      assert c.buf + Concat(chunks) == c.buf;
      if c.depth > 0 {
        NoTagStripsToNothing(c.buf, c.depth);
      }
    } else {
      var a, b := c.buf + chunks[0], Concat(chunks[1..]);
      var next := ChunkCarry(c, chunks[0]);
      ChunkIsScanned(c, chunks[0]);
      ChunkingLength(next, chunks[1..]);
      assert c.buf + Concat(chunks) == a + b;
      OneChunk(a, c.depth, b, next);
    }
  }

  /** What one chunk adds to the comparison. */
  lemma OneChunk(a: string, d: nat, b: string, next: Carry)
    requires next == Scan(a, d)
    ensures if Straddles(a, d, b) then |Strip(a + b, d)| < |Strip(a, d)| + |Strip(next.buf + b, next.depth)|
            else Strip(a + b, d) == Strip(a, d) + Strip(next.buf + b, next.depth)
  {
    if Straddles(a, d, b) {
      StraddleLengthens(a, d, b);
      assert "" + b == b;
    } else {
      StripSplits(a, d, b);
    }
  }

  /** Stripping is independent of how the text is cut into chunks exactly if no cut goes through an
      opening tag outside a think block. */
  lemma ChunkingIndependentExactlyWhen(chunks: seq<string>)
    ensures StripChunks(Carry(0, ""), chunks) == Strip(Concat(chunks), 0) <==>
            !SomeStraddle(Carry(0, ""), chunks)
  {
    ChunkingLength(Carry(0, ""), chunks);
    assert "" + Concat(chunks) == Concat(chunks);
  }

  /** A text without `p` has it neither at its head nor in its tail. */
  lemma AbsentSplits(p: string, s: string)
    requires !Occurs(p, s) && s != ""
    ensures !(p <= s) && !Occurs(p, s[1..])
  {
    assert s[0..] == s;
    forall i | 0 <= i <= |s[1..]| ensures !(p <= s[1..][i..]) {
      assert s[1..][i..] == s[i + 1..];
    }
  }

  lemma AbsentFromParts(p: string, a: string, b: string)
    requires !Occurs(p, a + b)
    ensures !Occurs(p, a) && !Occurs(p, b)
  {
    forall i | 0 <= i <= |a| ensures !(p <= a[i..]) {
      assert (a + b)[i..] == a[i..] + b;
    }
    forall i | 0 <= i <= |b| ensures !(p <= b[i..]) {
      assert (a + b)[|a| + i..] == b[i..];
    }
  }

  lemma {:induction false} NoOpeningNoStraddle(a: string, b: string)
    requires !Occurs(THINK_START, a + b)
    ensures !Straddles(a, 0, b)
    decreases |a|
  {
    if a != "" {
      AbsentSplits(THINK_START, a + b);
      assert (a + b)[1..] == a[1..] + b;
      NoOpeningNoStraddle(a[1..], b);
      assert THINK_START <= a ==> THINK_START <= a + b;
    }
  }

  lemma {:induction false} TagFreeHasNoStraddle(chunks: seq<string>)
    requires !Occurs(THINK_START, Concat(chunks))
    ensures !SomeStraddle(Carry(0, ""), chunks)
    decreases |chunks|
  {
    if chunks != [] {
      var a, b := chunks[0], Concat(chunks[1..]);
      assert "" + a == a;
      AbsentFromParts(THINK_START, a, b);
      NoOpeningNoStraddle(a, b);
      UntaggedChunk(a);
      ChunkIsScanned(Carry(0, ""), a);
      TagFreeHasNoStraddle(chunks[1..]);
    }
  }

  /** An opening tag that is cut in two is handed out as text. */
  lemma CutOpeningIsHandedOut()
    ensures StripChunks(Carry(0, ""), ["<th", "ink>"]) == "<think>" && Strip("<think>", 0) == ""
  {
    assert forall i :: 0 <= i <= 3 ==> |"<th"[i..]| <= 3;
    assert forall i :: 0 <= i <= 4 ==> |"ink>"[i..]| <= 4;
    assert !Scanned(Carry(0, ""), "<th") && !Scanned(Carry(0, ""), "ink>");
    assert ["<th", "ink>"][1..] == ["ink>"];
    assert StripChunks(Carry(0, ""), ["ink>"]) == "ink>";
  }
}
