/** The http_file blocks of a MODULE.bazel text, and the update and the check of their checksums. */
module BazelChecksums {
  import opened Common

  /** A line of the text.  A field is a one-line string field: indentation, name, the text around the equals
      sign, value, and what follows the comma, which is white space. */
  datatype Line =
    | Open
    | Close(rest: string)
    | Blank(spaces: string)
    | Field(indent: string, name: string, assign: string, value: string, tail: string)
    | Other(text: string)

  type Lines = seq<Line>

  predicate IsHexDigit(c: char) { '0' <= c <= '9' || 'a' <= c <= 'f' }

  predicate IsHex(s: string) { s != "" && forall c :: c in s ==> IsHexDigit(c) }

  /** A checksum as the manifest parser lets it through. */
  type Digest = s: string | |s| == 64 && IsHex(s) witness seq(64, i => '0')

  // ----- blocks ----------------------------------------------------------------------------------------------------

  /** The place of the first closing line, or the length. */
  function CloseAt(t: Lines): (k: nat)
    ensures k <= |t| && (k < |t| ==> t[k].Close?) && forall i :: 0 <= i < k ==> !t[i].Close?
  {
    if t == [] || t[0].Close? then 0 else 1 + CloseAt(t[1..])
  }

  datatype Segment = Gap(line: Line) | Block(lines: Lines)

  /** The text cut into blocks and the single lines between them. */
  function Segments(t: Lines): seq<Segment>
    decreases |t|
  {
    if t == [] then []
    else if t[0].Open? && CloseAt(t) < |t| then [Block(t[..CloseAt(t) + 1])] + Segments(t[CloseAt(t) + 1..])
    else [Gap(t[0])] + Segments(t[1..])
  }

  function LinesOf(s: Segment): Lines {
    if s.Gap? then [s.line] else s.lines
  }

  function Text(segs: seq<Segment>): Lines {
    if segs == [] then [] else LinesOf(segs[0]) + Text(segs[1..])
  }

  lemma {:induction false} SegmentsAreTheText(t: Lines)
    ensures Text(Segments(t)) == t
    decreases |t|
  {
    if t != [] {
      var k := if t[0].Open? && CloseAt(t) < |t| then CloseAt(t) + 1 else 1;
      SegmentsAreTheText(t[k..]);
      assert t[..k] + t[k..] == t;
      assert Segments(t)[1..] == Segments(t[k..]);
    }
  }

  predicate IsBlock(b: Lines) {
    |b| >= 2 && b[0].Open? && CloseAt(b) == |b| - 1
  }

  lemma {:induction false} CloseInFront(b: Lines, t: Lines)
    requires CloseAt(b) < |b|
    ensures CloseAt(b + t) == CloseAt(b)
  {
    if !b[0].Close? {
      assert (b + t)[1..] == b[1..] + t;
      CloseInFront(b[1..], t);
    }
  }

  /** A block in front of a text is cut off as a block. */
  lemma BlockInFront(b: Lines, t: Lines)
    requires IsBlock(b)
    ensures Segments(b + t) == [Block(b)] + Segments(t)
  {
    CloseInFront(b, t);
    assert (b + t)[..|b|] == b && (b + t)[|b|..] == t;
  }

  /** Every block runs from its opening to the first closing line behind it, and what opens no block is not an opening
      with a closing line behind it. */
  lemma {:induction false} SegmentsExactly(t: Lines, k: nat)
    requires k < |Segments(t)|
    ensures var s, behind := Segments(t)[k], Text(Segments(t)[k + 1..]);
            match s
            case Block(b) => IsBlock(b)
            case Gap(line) => line.Open? ==> forall l :: l in behind ==> !l.Close?
    decreases |t|
  {
    var m := if t[0].Open? && CloseAt(t) < |t| then CloseAt(t) + 1 else 1;
    assert Segments(t)[1..] == Segments(t[m..]);
    if k > 0 {
      SegmentsExactly(t[m..], k - 1);
      assert Segments(t)[k + 1..] == Segments(t[m..])[k..];
    } else if t[0].Open? && CloseAt(t) < |t| {
      FirstBlock(t);
    } else {
      SegmentsAreTheText(t[1..]);
    }
  }

  lemma FirstBlock(t: Lines)
    requires t != [] && t[0].Open? && CloseAt(t) < |t|
    ensures IsBlock(t[..CloseAt(t) + 1])
  {
    var b := t[..CloseAt(t) + 1];
    assert b[CloseAt(t)].Close?;
  }

  // ----- fields ----------------------------------------------------------------------------------------------------

  /** The value of the first field of that name. */
  function FirstField(b: Lines, name: string): Option<string> {
    if b == [] then None
    else if b[0].Field? && b[0].name == name then Some(b[0].value)
    else FirstField(b[1..], name)
  }

  lemma {:induction false} FirstFieldSplits(a: Lines, b: Lines, name: string)
    ensures FirstField(a + b, name) == if FirstField(a, name).Some? then FirstField(a, name) else FirstField(b, name)
  {
    if a == [] {
      assert a + b == b;
    } else {
      assert (a + b)[1..] == a[1..] + b;
      FirstFieldSplits(a[1..], b, name);
    }
  }

  const NAME := "name"
  const PATH := "downloaded_file_path"
  const SHA := "sha256"

  predicate IsHexSha(l: Line) { l.Field? && l.name == SHA && IsHex(l.value) }

  /** A line behind which a checksum can be inserted: nothing follows its comma. */
  predicate IsTightPath(l: Line) { l.Field? && l.name == PATH && l.tail == "" }

  function HexShaAt(b: Lines): (k: nat)
    ensures k <= |b| && (k < |b| ==> IsHexSha(b[k])) && forall i :: 0 <= i < k ==> !IsHexSha(b[i])
  {
    if b == [] || IsHexSha(b[0]) then 0 else 1 + HexShaAt(b[1..])
  }

  function TightPathAt(b: Lines): (k: nat)
    ensures k <= |b| && (k < |b| ==> IsTightPath(b[k])) && forall i :: 0 <= i < k ==> !IsTightPath(b[i])
  {
    if b == [] || IsTightPath(b[0]) then 0 else 1 + TightPathAt(b[1..])
  }

  function DropBlanks(t: Lines): Lines {
    if t != [] && t[0].Blank? then DropBlanks(t[1..]) else t
  }

  /** The blank lines at the end. */
  function EndBlanks(t: Lines): (r: Lines)
    ensures forall l :: l in r ==> l.Blank?
  {
    if t != [] && t[|t|-1].Blank? then EndBlanks(t[..|t|-1]) + [t[|t|-1]] else []
  }

  function ShaLine(indent: string, checksum: Digest): Line {
    Field(indent, SHA, " = ", checksum, "")
  }

  predicate CanWrite(b: Lines) { HexShaAt(b) < |b| || TightPathAt(b) < |b| }

  /** Write the checksum: over the first lowercase-hex sha256 field, with the blank lines behind it dropped; or, if
      there is none, behind the path, together with a copy of the blank lines in front of the path. */
  function WithSha(b: Lines, checksum: Digest): Lines
    requires CanWrite(b)
  {
    var i, j := HexShaAt(b), TightPathAt(b);
    if i < |b| then b[..i] + [ShaLine(b[i].indent, checksum)] + DropBlanks(b[i + 1..])
    else b[..j + 1] + EndBlanks(b[..j]) + [ShaLine(b[j].indent, checksum)] + b[j + 1..]
  }

  // ----- the lines that are written --------------------------------------------------------------------------------

  /** The text of a field. */
  function Shown(l: Line): string
    requires l.Field?
  {
    l.indent + l.name + l.assign + "\"" + l.value + "\"," + l.tail
  }

  predicate AllBlank(t: Lines) { forall l :: l in t ==> l.Blank? }

  lemma {:induction false} DroppedAre(t: Lines) returns (m: nat)
    ensures m <= |t| && AllBlank(t[..m]) && (m < |t| ==> !t[m].Blank?) && DropBlanks(t) == t[m..]
  {
    m := 0;
    if t != [] && t[0].Blank? {
      var k := DroppedAre(t[1..]);
      m := k + 1;
      assert t[..m] == [t[0]] + t[1..][..k] && t[m..] == t[1..][k..];
    }
  }

  lemma {:induction false} EndBlanksAre(t: Lines) returns (m: nat)
    ensures m <= |t| && AllBlank(t[m..]) && (m > 0 ==> !t[m - 1].Blank?) && EndBlanks(t) == t[m..]
  {
    m := |t|;
    if t != [] && t[|t|-1].Blank? {
      m := EndBlanksAre(t[..|t|-1]);
      assert t[m..] == t[..|t|-1][m..] + [t[|t|-1]];
    }
  }

  /** A one-line sha256 field with nothing but lowercase hex digits. */
  predicate HoldsHex(l: Line) {
    && l.Field? && l.name == "sha256" && l.value != ""
    && forall i :: 0 <= i < |l.value| ==> '0' <= l.value[i] <= '9' || 'a' <= l.value[i] <= 'f'
  }

  /** A block without a lowercase-hex checksum. */
  predicate WithoutHex(b: Lines) { forall i :: 0 <= i < |b| ==> !HoldsHex(b[i]) }

  lemma HexShaHoldsHex(l: Line)
    ensures IsHexSha(l) <==> HoldsHex(l)
  {
    if HoldsHex(l) {
      forall c | c in l.value ensures IsHexDigit(c) {
        var i :| 0 <= i < |l.value| && l.value[i] == c;
      }
    }
    if IsHexSha(l) {
      assert forall i :: 0 <= i < |l.value| ==> l.value[i] in l.value;
    }
  }

  /** Line by line: with a lowercase-hex checksum in the block, the first one makes way for the new one with the same
      indentation, and the blank lines behind it go. */
  lemma WrittenOver(b: Lines, checksum: Digest, i: nat) returns (m: nat)
    requires i < |b| && HoldsHex(b[i]) && WithoutHex(b[..i])
    ensures CanWrite(b)
    ensures i < m <= |b| && AllBlank(b[i + 1..m]) && (m < |b| ==> !b[m].Blank?)
    ensures var w := WithSha(b, checksum);
            && |w| > i && w == b[..i] + [w[i]] + b[m..]
            && w[i].Field? && Shown(w[i]) == b[i].indent + "sha256 = \"" + checksum + "\","
  {
    forall k | 0 <= k <= i ensures IsHexSha(b[k]) <==> k == i {
      HexShaHoldsHex(b[k]);
      assert k < i ==> b[k] == b[..i][k];
    }
    assert HexShaAt(b) == i;
    var k := DroppedAre(b[i + 1..]);
    m := i + 1 + k;
    assert b[i + 1..m] == b[i + 1..][..k] && b[m..] == b[i + 1..][k..];
    ShaLineIsShown(b[i].indent, checksum);
  }

  lemma ShaLineIsShown(indent: string, checksum: Digest)
    ensures Shown(ShaLine(indent, checksum)) == indent + "sha256 = \"" + checksum + "\","
  {
    assert indent + "sha256" + " = " + "\"" + checksum + "\"," + "" == indent + "sha256 = \"" + checksum + "\",";
  }

  /** Without one, the new checksum goes behind the first path whose line ends with its comma, with its indentation
      and a copy of the blank lines in front of the path. */
  lemma WrittenBehindPath(b: Lines, checksum: Digest, j: nat) returns (m: nat)
    requires WithoutHex(b) && j < |b|
    requires b[j].Field? && b[j].name == "downloaded_file_path" && b[j].tail == ""
    requires forall k :: 0 <= k < j && b[k].Field? && b[k].name == "downloaded_file_path" ==> b[k].tail != ""
    ensures CanWrite(b)
    ensures m <= j && AllBlank(b[m..j]) && (m > 0 ==> !b[m - 1].Blank?)
    ensures var w, at := WithSha(b, checksum), j + 1 + (j - m);
            && |w| > at && w == b[..j + 1] + b[m..j] + [w[at]] + b[j + 1..]
            && w[at].Field? && Shown(w[at]) == b[j].indent + "sha256 = \"" + checksum + "\","
  {
    forall k | 0 <= k < |b| ensures !IsHexSha(b[k]) {
      HexShaHoldsHex(b[k]);
    }
    assert HexShaAt(b) == |b|;
    assert IsTightPath(b[j]) && TightPathAt(b) == j;
    m := EndBlanksAre(b[..j]);
    assert b[..j][m..] == b[m..j];
    ShaLineIsShown(b[j].indent, checksum);
  }

  /** Otherwise there is no place for it, and the update fails. */
  lemma WritableExactlyWhen(b: Lines)
    ensures CanWrite(b) <==>
              || (exists i :: 0 <= i < |b| && HoldsHex(b[i]))
              || (exists i :: 0 <= i < |b| && b[i].Field? && b[i].name == "downloaded_file_path" && b[i].tail == "")
  {
    forall k | 0 <= k < |b| ensures IsHexSha(b[k]) <==> HoldsHex(b[k]) {
      HexShaHoldsHex(b[k]);
    }
    if HexShaAt(b) < |b| {
      assert HoldsHex(b[HexShaAt(b)]);
    } else if TightPathAt(b) < |b| {
      var i := TightPathAt(b);
      assert b[i].Field? && b[i].name == "downloaded_file_path" && b[i].tail == "";
    } else if i :| 0 <= i < |b| && b[i].Field? && b[i].name == "downloaded_file_path" && b[i].tail == "" {
      assert IsTightPath(b[i]);
    }
  }

  // ----- what writing a checksum keeps -----------------------------------------------------------------------------

  lemma {:induction false} BlanksHoldNothing(t: Lines, name: string)
    requires forall l :: l in t ==> l.Blank?
    ensures FirstField(t, name) == None && CloseAt(t) == |t| && HexShaAt(t) == |t|
  {
    if t != [] {
      assert t[0] in t && forall l :: l in t[1..] ==> l in t;
      BlanksHoldNothing(t[1..], name);
    }
  }

  lemma {:induction false} DroppingBlanks(t: Lines, name: string)
    ensures FirstField(DropBlanks(t), name) == FirstField(t, name)
    ensures CloseAt(t) == |t| - 1 ==> CloseAt(DropBlanks(t)) == |DropBlanks(t)| - 1
    ensures DropBlanks(DropBlanks(t)) == DropBlanks(t)
    ensures DropBlanks(t) == t <==> t == [] || !t[0].Blank?
  {
    if t != [] && t[0].Blank? {
      DroppingBlanks(t[1..], name);
      DropsSome(t[1..]);
    }
  }

  lemma {:induction false} DropsSome(t: Lines)
    ensures |DropBlanks(t)| <= |t|
  {
    if t != [] && t[0].Blank? {
      DropsSome(t[1..]);
    }
  }

  lemma {:induction false} CloseSplits(a: Lines, b: Lines)
    ensures CloseAt(a + b) == if CloseAt(a) < |a| then CloseAt(a) else |a| + CloseAt(b)
  {
    if a == [] {
      assert a + b == b;
    } else if !a[0].Close? {
      assert (a + b)[1..] == a[1..] + b;
      CloseSplits(a[1..], b);
    }
  }

  lemma {:induction false} HexShaSplits(a: Lines, b: Lines)
    ensures HexShaAt(a + b) == if HexShaAt(a) < |a| then HexShaAt(a) else |a| + HexShaAt(b)
  {
    if a == [] {
      assert a + b == b;
    } else if !IsHexSha(a[0]) {
      assert (a + b)[1..] == a[1..] + b;
      HexShaSplits(a[1..], b);
    }
  }

  /** The front and the rest of a block around its `k`-th line. */
  lemma CutBlock(b: Lines, k: nat)
    requires IsBlock(b) && k < |b| && b[k].Field?
    ensures 0 < k < |b| - 1 && b == b[..k] + ([b[k]] + b[k + 1..])
    ensures CloseAt(b[..k]) == k && CloseAt(b[k + 1..]) == |b[k + 1..]| - 1
  {
    assert b == b[..k] + ([b[k]] + b[k + 1..]);
    CloseSplits(b[..k], [b[k]] + b[k + 1..]);
    CloseSplits([b[k]], b[k + 1..]);
  }

  /** Putting an sha256 line and blanks between a front and a rest gives a block with the other fields. */
  lemma PutTogether(front: Lines, blanks: Lines, sha: Line, rest: Lines, name: string)
    requires front != [] && front[0].Open? && CloseAt(front) == |front|
    requires forall l :: l in blanks ==> l.Blank?
    requires sha.Field? && CloseAt(rest) == |rest| - 1
    ensures var b := front + blanks + [sha] + rest;
            && IsBlock(b)
            && (name != sha.name ==> FirstField(b, name) == FirstField(front + rest, name))
            && FirstField(b, sha.name) ==
               (if FirstField(front, sha.name).Some? then FirstField(front, sha.name) else Some(sha.value))
  {
    BlanksHoldNothing(blanks, name);
    BlanksHoldNothing(blanks, sha.name);
    assert front + blanks + [sha] + rest == front + (blanks + ([sha] + rest));
    CloseSplits(front, blanks + ([sha] + rest));
    CloseSplits(blanks, [sha] + rest);
    CloseSplits([sha], rest);
    FirstFieldSplits(front, rest, name);
    FirstFieldSplits(front, blanks + ([sha] + rest), name);
    FirstFieldSplits(blanks, [sha] + rest, name);
    FirstFieldSplits(front, blanks + ([sha] + rest), sha.name);
    FirstFieldSplits(blanks, [sha] + rest, sha.name);
    assert ([sha] + rest)[1..] == rest;
  }

  /** The line in front of which the new checksum goes. */
  function WriteAt(b: Lines): (k: nat)
    requires CanWrite(b)
    ensures k <= |b|
  {
    if HexShaAt(b) < |b| then HexShaAt(b) else TightPathAt(b) + 1
  }

  lemma {:induction false} ShaWithoutHex(t: Lines)
    requires HexShaAt(t) == |t|
    ensures FirstField(t, SHA).Some? ==> !IsHex(FirstField(t, SHA).value)
  {
    if t != [] {
      ShaWithoutHex(t[1..]);
    }
  }

  lemma {:induction false} FrontHasNoHex(b: Lines, k: nat)
    requires k <= HexShaAt(b)
    ensures HexShaAt(b[..k]) == k
  {
    if k > 0 {
      FrontHasNoHex(b[1..], k - 1);
      assert b[..k][1..] == b[1..][..k - 1];
    }
  }

  lemma WritingOverKeeps(b: Lines, c: Digest, name: string)
    requires IsBlock(b) && HexShaAt(b) < |b| && name != SHA
    ensures IsBlock(WithSha(b, c)) && FirstField(WithSha(b, c), name) == FirstField(b, name)
    ensures FirstField(WithSha(b, c), SHA) ==
            var before := FirstField(b[..HexShaAt(b)], SHA); if before.Some? then before else Some(c)
  {
    hide IsBlock, DropBlanks;
    var i := HexShaAt(b);
    CutBlock(b, i);
    BlockOpens(b, i);
    var front, rest := b[..i], b[i + 1..];
    DroppingBlanks(rest, name);
    OtherLineHoldsNothing(front, b[i], rest, name);
    hide FirstField, CloseAt;
    FirstFieldSplits(front, rest, name);
    FirstFieldSplits(front, DropBlanks(rest), name);
    PutTogether(front, [], ShaLine(b[i].indent, c), DropBlanks(rest), name);
    assert front + [] == front;
  }

  lemma BlockOpens(b: Lines, k: nat)
    requires IsBlock(b) && 0 < k <= |b|
    ensures b[..k] != [] && b[..k][0].Open?
  {
  }

  lemma OtherLineHoldsNothing(front: Lines, l: Line, rest: Lines, name: string)
    requires l.Field? && l.name != name
    ensures FirstField(front + ([l] + rest), name) == FirstField(front + rest, name)
  {
    FirstFieldSplits(front, [l] + rest, name);
    FirstFieldSplits(front, rest, name);
    assert ([l] + rest)[1..] == rest;
  }

  lemma InsertingKeeps(b: Lines, c: Digest, name: string)
    requires IsBlock(b) && HexShaAt(b) == |b| && TightPathAt(b) < |b| && name != SHA
    ensures IsBlock(WithSha(b, c)) && FirstField(WithSha(b, c), name) == FirstField(b, name)
    ensures FirstField(WithSha(b, c), SHA) ==
            var before := FirstField(b[..TightPathAt(b) + 1], SHA); if before.Some? then before else Some(c)
  {
    hide IsBlock;
    var j := TightPathAt(b);
    CutBlock(b, j);
    BlockOpens(b, j + 1);
    var front, rest := b[..j + 1], b[j + 1..];
    CloseSplits(b[..j], [b[j]]);
    assert front == b[..j] + [b[j]] && front + rest == b;
    hide FirstField, EndBlanks;
    PutTogether(front, EndBlanks(b[..j]), ShaLine(b[j].indent, c), rest, name);
  }

  /** Writing a checksum keeps the block a block and keeps every other first field. */
  lemma WritingKeeps(b: Lines, c: Digest, name: string)
    requires IsBlock(b) && CanWrite(b) && name != SHA
    ensures IsBlock(WithSha(b, c)) && FirstField(WithSha(b, c), name) == FirstField(b, name)
    ensures FirstField(WithSha(b, c), SHA) ==
            var before := FirstField(b[..WriteAt(b)], SHA); if before.Some? then before else Some(c)
  {
    hide WithSha, IsBlock, FirstField;
    if HexShaAt(b) < |b| {
      WritingOverKeeps(b, c, name);
    } else {
      InsertingKeeps(b, c, name);
    }
  }

  /** The written checksum is the one that is read exactly if no sha256 field stands in front of it. */
  lemma WrittenIsReadExactlyWhen(b: Lines, c: Digest)
    requires IsBlock(b) && CanWrite(b)
    ensures FirstField(WithSha(b, c), SHA) == Some(c) <==> FirstField(b[..WriteAt(b)], SHA) == None
  {
    WritingKeeps(b, c, NAME);
    if HexShaAt(b) < |b| {
      FrontHasNoHex(b, HexShaAt(b));
    } else {
      FrontHasNoHex(b, WriteAt(b));
    }
    ShaWithoutHex(b[..WriteAt(b)]);
  }

  /** What stands in front of the written line. */
  function FrontOf(b: Lines): Lines
    requires CanWrite(b)
  {
    if HexShaAt(b) < |b| then b[..HexShaAt(b)] else b[..TightPathAt(b) + 1] + EndBlanks(b[..TightPathAt(b)])
  }

  /** What stands behind the written line. */
  function RestOf(b: Lines): Lines
    requires CanWrite(b)
  {
    if HexShaAt(b) < |b| then DropBlanks(b[HexShaAt(b) + 1..]) else b[TightPathAt(b) + 1..]
  }

  lemma FrontOfHasNoHex(b: Lines)
    requires CanWrite(b)
    ensures HexShaAt(FrontOf(b)) == |FrontOf(b)|
  {
    if HexShaAt(b) < |b| {
      FrontHasNoHex(b, HexShaAt(b));
    } else {
      var j := TightPathAt(b);
      FrontHasNoHex(b, j + 1);
      BlanksHoldNothing(EndBlanks(b[..j]), NAME);
      HexShaSplits(b[..j + 1], EndBlanks(b[..j]));
    }
  }

  /** The written line. */
  function ShaOf(b: Lines, c: Digest): Line
    requires CanWrite(b)
  {
    ShaLine(b[if HexShaAt(b) < |b| then HexShaAt(b) else TightPathAt(b)].indent, c)
  }

  lemma HexShaBehind(front: Lines, l: Line, rest: Lines)
    requires HexShaAt(front) == |front| && IsHexSha(l)
    ensures HexShaAt(front + [l] + rest) == |front|
  {
    assert front + [l] + rest == front + ([l] + rest);
    HexShaSplits(front, [l] + rest);
  }

  lemma WrittenAt(b: Lines, c: Digest)
    requires CanWrite(b)
    ensures WithSha(b, c) == FrontOf(b) + [ShaOf(b, c)] + RestOf(b)
    ensures HexShaAt(WithSha(b, c)) == |FrontOf(b)|
  {
    FrontOfHasNoHex(b);
    HexShaBehind(FrontOf(b), ShaOf(b, c), RestOf(b));
  }

  /** The block has a checksum to write over, or no blank line follows its path. */
  predicate Settles(b: Lines)
    requires CanWrite(b)
  {
    HexShaAt(b) < |b| || TightPathAt(b) + 1 == |b| || !b[TightPathAt(b) + 1].Blank?
  }

  /** Writing the checksum again changes nothing exactly if the block settles; once written over, it does. */
  lemma WritingAgain(b: Lines, c: Digest)
    requires IsBlock(b) && CanWrite(b)
    ensures IsBlock(WithSha(b, c)) && CanWrite(WithSha(b, c)) && Settles(WithSha(b, c))
    ensures WithSha(WithSha(b, c), c) == WithSha(b, c) <==> Settles(b)
  {
    WritingKeeps(b, c, NAME);
    WrittenAt(b, c);
    var front, sha, rest := FrontOf(b), ShaOf(b, c), RestOf(b);
    var w := WithSha(b, c);
    assert w[..|front|] == front && w[|front|] == sha && w[|front| + 1..] == rest;
    assert WithSha(w, c) == front + [sha] + DropBlanks(rest);
    assert WithSha(w, c)[|front| + 1..] == DropBlanks(rest);
    DroppingBlanks(rest, NAME);
    if HexShaAt(b) < |b| {
      DroppingBlanks(b[HexShaAt(b) + 1..], NAME);
    }
  }
}
