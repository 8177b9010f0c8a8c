/** The streaming parser as the objects and loops it is made of, proved to compute `ReactStream`. */
module ReactObjects {
  import opened Common
  import opened ReactMachine
  import opened ReactStream
  import RC = ReactConservation
  import T = ThinkTags

  // ----- searching ------------------------------------------------------------------------------------

  /** The first position from `i` on at which `p` occurs in `s`, or -1. */
  method Find(s: string, p: string, i: nat) returns (j: int)
    requires i <= |s|
    ensures j == -1 || i <= j <= |s|
    ensures j == -1 ==> forall k :: i <= k <= |s| ==> !(p <= s[k..])
    ensures j != -1 ==> p <= s[j..] && forall k :: i <= k < j ==> !(p <= s[k..])
  {
    j := i;
    while j <= |s|
      invariant i <= j <= |s| + 1
      invariant forall k :: i <= k < j ==> !(p <= s[k..])
    {
      if p <= s[j..] {
        return;
      }
      j := j + 1;
    }
    j := -1;
  }

  // ----- think blocks ---------------------------------------------------------------------------------

  /** Inside a block, everything up to the next tag is dropped. */
  lemma {:induction false} SkipInside(s: string, d: nat, i: nat, j: nat)
    requires i <= j <= |s| && d > 0
    requires forall k :: i <= k < j ==> !(T.THINK_START <= s[k..]) && !(T.THINK_END <= s[k..])
    requires !T.NoTag(s[j..])
    ensures T.Strip(s[i..], d) == T.Strip(s[j..], d) && T.Scan(s[i..], d) == T.Scan(s[j..], d)
    decreases j - i
  {
    if i < j {
      assert s[i..][1..] == s[i + 1..];
      SkipInside(s, d, i + 1, j);
      TagRemains(s, i, j);
      T.PlainStep(s[i..], d);
    }
  }

  /** Outside every block, everything up to the next opening is kept. */
  lemma {:induction false} SkipOutside(s: string, i: nat, j: nat)
    requires i <= j <= |s|
    requires forall k :: i <= k < j ==> !(T.THINK_START <= s[k..])
    ensures T.Strip(s[i..], 0) == s[i..j] + T.Strip(s[j..], 0) && T.Scan(s[i..], 0) == T.Scan(s[j..], 0)
    decreases j - i
  {
    if i < j {
      assert s[i..][1..] == s[i + 1..];
      SkipOutside(s, i + 1, j);
      T.PlainStep(s[i..], 0);
      assert s[i..j] == [s[i]] + s[i + 1..j];
    }
  }

  lemma TagRemains(s: string, i: nat, j: nat)
    requires i <= j <= |s| && !T.NoTag(s[j..])
    ensures !T.NoTag(s[i..])
  {
    var k :| 0 <= k <= |s[j..]| && T.TagAt(s[j..], k);
    assert s[j..][k..] == s[i..][j - i + k..];
    assert T.TagAt(s[i..], j - i + k);
  }

  lemma OpenAt(s: string, i: nat, d: nat)
    requires i <= |s| && T.THINK_START <= s[i..]
    ensures T.Strip(s[i..], d) == T.Strip(s[i + |T.THINK_START|..], d + 1)
    ensures T.Scan(s[i..], d) == T.Scan(s[i + |T.THINK_START|..], d + 1)
    ensures !T.NoTag(s[i..])
  {
    assert s[i..][|T.THINK_START|..] == s[i + |T.THINK_START|..];
    assert s[i..][0..] == s[i..] && T.TagAt(s[i..], 0);
  }

  lemma CloseAt(s: string, i: nat, d: nat)
    requires i <= |s| && T.THINK_END <= s[i..] && d > 0
    ensures T.Strip(s[i..], d) == T.Strip(s[i + |T.THINK_END|..], d - 1)
    ensures T.Scan(s[i..], d) == T.Scan(s[i + |T.THINK_END|..], d - 1)
    ensures !T.NoTag(s[i..])
  {
    assert s[i..][1] == '/';
    assert s[i..][|T.THINK_END|..] == s[i + |T.THINK_END|..];
    assert s[i..][0..] == s[i..] && T.TagAt(s[i..], 0);
  }

  /** One round of the loop inside a block: the nearer of the two tags counts. */
  lemma InsideRound(s: string, d: nat, i: nat, end: int, start: int)
    requires i <= |s| && d > 0
    requires end == -1 || (i <= end <= |s| && T.THINK_END <= s[end..])
    requires start == -1 || (i <= start <= |s| && T.THINK_START <= s[start..])
    requires forall k :: i <= k <= |s| && (end == -1 || k < end) ==> !(T.THINK_END <= s[k..])
    requires forall k :: i <= k <= |s| && (start == -1 || k < start) ==> !(T.THINK_START <= s[k..])
    ensures if end == -1 && start == -1 then
              T.Strip(s[i..], d) == "" && T.Scan(s[i..], d) == T.Carry(d, s[i..])
            else if start != -1 && (end == -1 || start < end) then
              T.Strip(s[i..], d) == T.Strip(s[start + |T.THINK_START|..], d + 1) &&
              T.Scan(s[i..], d) == T.Scan(s[start + |T.THINK_START|..], d + 1)
            else
              T.Strip(s[i..], d) == T.Strip(s[end + |T.THINK_END|..], d - 1) &&
              T.Scan(s[i..], d) == T.Scan(s[end + |T.THINK_END|..], d - 1)
  {
    if end == -1 && start == -1 {
      NothingLeft(s, i, d);
    } else if start != -1 && (end == -1 || start < end) {
      OpenAt(s, start, d);
      SkipInside(s, d, i, start);
    } else {
      CloseAt(s, end, d);
      SkipInside(s, d, i, end);
    }
  }

  /** One round of the loop outside every block. */
  lemma OutsideRound(s: string, i: nat, start: int)
    requires i <= |s|
    requires start == -1 || (i <= start <= |s| && T.THINK_START <= s[start..])
    requires forall k :: i <= k <= |s| && (start == -1 || k < start) ==> !(T.THINK_START <= s[k..])
    ensures if start == -1 then
              T.Strip(s[i..], 0) == s[i..] && T.Scan(s[i..], 0) == T.Carry(0, "")
            else
              T.Strip(s[i..], 0) == s[i..start] + T.Strip(s[start + |T.THINK_START|..], 1) &&
              T.Scan(s[i..], 0) == T.Scan(s[start + |T.THINK_START|..], 1)
  {
    if start == -1 {
      NoOpeningLeft(s, i);
    } else {
      OpenAt(s, start, 0);
      SkipOutside(s, i, start);
    }
  }

  lemma NothingLeft(s: string, i: nat, d: nat)
    requires i <= |s| && d > 0
    requires forall k :: i <= k <= |s| ==> !(T.THINK_START <= s[k..]) && !(T.THINK_END <= s[k..])
    ensures T.Strip(s[i..], d) == "" && T.Scan(s[i..], d) == T.Carry(d, s[i..])
  {
    forall k | 0 <= k <= |s[i..]| ensures !T.TagAt(s[i..], k) {
      assert s[i..][k..] == s[i + k..];
    }
    T.NoTagStripsToNothing(s[i..], d);
  }

  lemma NoOpeningLeft(s: string, i: nat)
    requires i <= |s|
    requires forall k :: i <= k <= |s| ==> !(T.THINK_START <= s[k..])
    ensures T.Strip(s[i..], 0) == s[i..] && T.Scan(s[i..], 0) == T.Carry(0, "")
  {
    forall k | 0 <= k <= |s[i..]| ensures !(T.THINK_START <= s[i..][k..]) {
      assert s[i..][k..] == s[i + k..];
    }
    T.UntaggedChunk(s[i..]);
  }

  lemma EmptyText(d: nat)
    ensures T.Strip("", d) == "" && T.Scan("", d) == T.Carry(d, "")
  {
  }

  class ThinkStripper {
    var inThink: bool
    var thinkBuf: string
    var thinkDepth: nat

    ghost function View(): T.Carry
      reads this
    {
      T.Carry(thinkDepth, thinkBuf)
    }

    /** A block is open exactly if the depth is positive. */
    ghost predicate Valid()
      reads this
    {
      (inThink <==> thinkDepth > 0) && T.ValidCarry(View())
    }

    constructor ()
      ensures Valid() && View() == T.Carry(0, "")
    {
      inThink, thinkBuf, thinkDepth := false, "", 0;
    }

    method StripChunk(content: string) returns (r: string)
      requires Valid()
      modifies this
      ensures Valid()
      ensures r == T.ChunkOut(old(View()), content)
      ensures View() == T.ChunkCarry(old(View()), content)
    {
      T.ChunkIsScanned(View(), content);
      var start := Find(content, T.THINK_START, 0);
      var end := Find(content, T.THINK_END, 0);
      if start == -1 && end == -1 && !inThink {
        return content;
      }
      r := ScanBuffer(thinkBuf + content);
    }

    /** The scan loop over a buffered chunk. */
    method ScanBuffer(buf: string) returns (out: string)
      requires inThink <==> thinkDepth > 0
      modifies this
      ensures inThink <==> thinkDepth > 0
      ensures out == old(T.Strip(buf, thinkDepth))
      ensures View() == old(T.Scan(buf, thinkDepth))
    {
      hide T.Strip, T.Scan;
      ghost var text, rest := T.Strip(buf, thinkDepth), T.Scan(buf, thinkDepth);
      thinkBuf := "";
      out := "";
      var i := 0;
      assert buf[0..] == buf;
      while i < |buf|
        invariant i <= |buf| && (inThink <==> thinkDepth > 0) && thinkBuf == ""
        invariant out + T.Strip(buf[i..], thinkDepth) == text
        invariant T.Scan(buf[i..], thinkDepth) == rest
      {
        var done, skipped;
        if inThink {
          done, i := SkipBlockText(buf, i);
          skipped := "";
        } else {
          done, skipped, i := SkipPlainText(buf, i);
        }
        out := out + skipped;
        if done {
          return;
        }
      }
      assert buf[i..] == "";
      EmptyText(thinkDepth);
    }

    /** The next closing and opening tags, and what they mean with `d` blocks open. */
    static method NextTags(buf: string, i: nat, ghost d: nat) returns (end: int, start: int)
      requires i < |buf| && d > 0
      ensures end == -1 || i <= end <= end + |T.THINK_END| <= |buf|
      ensures start == -1 || i <= start <= start + |T.THINK_START| <= |buf|
      ensures if end == -1 && start == -1 then
                T.Strip(buf[i..], d) == "" && T.Scan(buf[i..], d) == T.Carry(d, buf[i..])
              else if start != -1 && (end == -1 || start < end) then
                T.Strip(buf[i..], d) == T.Strip(buf[start + |T.THINK_START|..], d + 1) &&
                T.Scan(buf[i..], d) == T.Scan(buf[start + |T.THINK_START|..], d + 1)
              else
                T.Strip(buf[i..], d) == T.Strip(buf[end + |T.THINK_END|..], d - 1) &&
                T.Scan(buf[i..], d) == T.Scan(buf[end + |T.THINK_END|..], d - 1)
    {
      end := Find(buf, T.THINK_END, i);
      start := Find(buf, T.THINK_START, i);
      InsideRound(buf, d, i, end, start);
    }

    /** Inside a block: move behind the next tag, or keep the rest of the buffer for the next chunk. */
    method SkipBlockText(buf: string, i: nat) returns (done: bool, next: nat)
      requires i < |buf| && inThink && thinkDepth > 0 && thinkBuf == ""
      modifies this
      ensures inThink <==> thinkDepth > 0
      ensures done ==> old(T.Strip(buf[i..], thinkDepth)) == "" && View() == old(T.Scan(buf[i..], thinkDepth))
      ensures !done ==>
                && i < next <= |buf| && thinkBuf == ""
                && T.Strip(buf[next..], thinkDepth) == old(T.Strip(buf[i..], thinkDepth))
                && T.Scan(buf[next..], thinkDepth) == old(T.Scan(buf[i..], thinkDepth))
    {
      hide T.Strip, T.Scan;
      var end, start := NextTags(buf, i, thinkDepth);
      if end == -1 && start == -1 {
        thinkBuf := buf[i..];
        return true, i;
      }
      if start != -1 && (end == -1 || start < end) {
        thinkDepth := thinkDepth + 1;
        return false, start + |T.THINK_START|;
      }
      thinkDepth := thinkDepth - 1;
      if thinkDepth <= 0 {
        inThink := false;
        thinkDepth := 0;
      }
      return false, end + |T.THINK_END|;
    }

    /** Outside every block: hand out the text up to the next opening, or the rest of the buffer. */
    method SkipPlainText(buf: string, i: nat) returns (done: bool, text: string, next: nat)
      requires i < |buf| && !inThink && thinkDepth == 0 && thinkBuf == ""
      modifies this
      ensures inThink <==> thinkDepth > 0
      ensures done ==> text == T.Strip(buf[i..], 0) && View() == T.Scan(buf[i..], 0)
      ensures !done ==>
                && i < next <= |buf| && thinkBuf == ""
                && text + T.Strip(buf[next..], thinkDepth) == T.Strip(buf[i..], 0)
                && T.Scan(buf[next..], thinkDepth) == T.Scan(buf[i..], 0)
    {
      var start := Find(buf, T.THINK_START, i);
      OutsideRound(buf, i, start);
      if start == -1 {
        return true, buf[i..], i;
      }
      inThink := true;
      thinkDepth := 1;
      return false, buf[i..start], start + |T.THINK_START|;
    }
  }

  // ----- the character machine ---------------------------------------------------------------------------

  class PrefixMatcher {
    const prefix: string
    var cache: string
    var idx: nat

    ghost predicate Valid()
      reads this
    {
      idx == |cache| && |cache| < |prefix|
    }

    constructor (prefix: string)
      requires prefix != ""
      ensures Valid() && cache == "" && this.prefix == prefix
    {
      this.prefix := prefix;
      cache, idx := "", 0;
    }

    /** One character; `last` is the parser's last character, which the matcher may replace. */
    method Step(delta: char, last: string)
      returns (raw: bool, flushed: string, consumed: bool, full: bool, newLast: string)
      requires Valid()
      modifies this
      ensures Valid()
      ensures Matched(cache, newLast, raw, flushed, consumed, full) == MatchStep(old(cache), prefix, delta, last)
    {
      raw, flushed, consumed, full, newLast := false, "", false, false, last;
      if LowerChar(delta) == prefix[idx] {
        if idx == 0 && !IsDelimiter(last) {
          raw := true;
        } else {
          newLast := [delta];
          cache := cache + [delta];
          idx := idx + 1;
          if idx == |prefix| {
            cache := "";
            idx := 0;
            full := true;
          }
          consumed := true;
        }
      } else if cache != "" {
        newLast := [delta];
        flushed := cache;
        cache := "";
        idx := 0;
      }
    }
  }

  class ReactParser {
    var cur: ReactState
    var lastCharacter: string
    const actionMatcher: PrefixMatcher
    const answerMatcher: PrefixMatcher
    const thoughtMatcher: PrefixMatcher
    var inJson: bool
    var gotJson: bool
    var jsonCache: string
    var jsonStack: string
    var jsonInString: bool
    var jsonEscape: bool
    const stripper: ThinkStripper

    ghost const Repr: set<object>

    ghost predicate Valid()
      reads this, Repr
    {
      && this in Repr && actionMatcher in Repr && answerMatcher in Repr && thoughtMatcher in Repr && stripper in Repr
      && actionMatcher != answerMatcher && actionMatcher != thoughtMatcher && answerMatcher != thoughtMatcher
      && actionMatcher.Valid() && answerMatcher.Valid() && thoughtMatcher.Valid() && stripper.Valid()
      && actionMatcher.prefix == ACTION_PREFIX && answerMatcher.prefix == ANSWER_PREFIX
      && thoughtMatcher.prefix == THOUGHT_PREFIX
      && (inJson ==> jsonStack != "")
    }

    ghost function View(): Parser
      reads this, actionMatcher, answerMatcher, thoughtMatcher
    {
      Parser(cur, lastCharacter, actionMatcher.cache, answerMatcher.cache, thoughtMatcher.cache,
             inJson, gotJson, Json(jsonCache, jsonStack, jsonInString, jsonEscape))
    }

    constructor ()
      ensures Valid() && fresh(Repr)
      ensures View() == START && stripper.View() == T.Carry(0, "")
    {
      cur, lastCharacter, inJson, gotJson := Thinking, "", false, false;
      jsonCache, jsonStack, jsonInString, jsonEscape := "", "", false, false;
      var action := new PrefixMatcher(ACTION_PREFIX);
      var answer := new PrefixMatcher(ANSWER_PREFIX);
      var thought := new PrefixMatcher(THOUGHT_PREFIX);
      var strip := new ThinkStripper();
      actionMatcher, answerMatcher, thoughtMatcher, stripper := action, answer, thought, strip;
      Repr := {this, action, answer, thought, strip};
    }

    /** The bracket scanner inside a blob. */
    method ScanJson(delta: char)
      requires inJson && jsonStack != ""
      modifies this
      ensures inJson ==> jsonStack != ""
      ensures View() == Rest(old(View()), delta).0
    {
      lastCharacter := [delta];
      jsonCache := jsonCache + [delta];
      if jsonInString {
        if jsonEscape {
          jsonEscape := false;
        } else if delta == '\\' {
          jsonEscape := true;
        } else if delta == '\"' {
          jsonInString := false;
        }
      } else if delta == '\"' {
        jsonInString := true;
      } else if Opens(delta) {
        jsonStack := jsonStack + [Closer(delta)];
      } else if (delta == '}' || delta == ']') && jsonStack != "" && delta == jsonStack[|jsonStack|-1] {
        jsonStack := jsonStack[..|jsonStack|-1];
        if jsonStack == "" {
          inJson := false;
          gotJson := true;
        }
      }
    }

    /** The part of a step that follows the prefix matchers. */
    method FeedRest(delta: char) returns (events: seq<Event>)
      requires inJson ==> jsonStack != ""
      modifies this
      ensures inJson ==> jsonStack != ""
      ensures (View(), events) == Rest(old(View()), delta)
    {
      events := [];
      if !inJson && Opens(delta) {
        inJson := true;
        gotJson := false;
        jsonCache := [delta];
        jsonInString := false;
        jsonEscape := false;
        jsonStack := [Closer(delta)];
        lastCharacter := [delta];
        return;
      }
      if inJson {
        ScanJson(delta);
        return;
      }
      if gotJson {
        gotJson := false;
        events := [Blob(cur, jsonCache)];
        jsonCache := "";
        jsonInString := false;
        jsonEscape := false;
        jsonStack := "";
      }
      lastCharacter := [delta];
      events := events + [Text(cur, [delta])];
    }

    /** Offer a character to one matcher; if it completes its prefix, `onFull` becomes the state. */
    method Offer(m: PrefixMatcher, onFull: ReactState, delta: char)
      returns (raw: bool, consumed: bool, flushes: seq<Event>, markers: seq<Event>)
      requires m.Valid()
      modifies m, this`cur, this`lastCharacter
      ensures m.Valid()
      ensures var r := MatchStep(old(m.cache), m.prefix, delta, old(lastCharacter));
              && m.cache == r.cache && lastCharacter == r.last && raw == r.raw && consumed == r.consumed
              && cur == (if r.full then onFull else old(cur))
              && flushes == Flush(old(cur), r.flushed)
              && markers == if r.full then [Marker(old(m.cache) + [delta])] else []
    {
      var held := m.cache;
      var flushed, full;
      raw, flushed, consumed, full, lastCharacter := m.Step(delta, lastCharacter);
      flushes := Flush(cur, flushed);
      markers := if full then [Marker(held + [delta])] else [];
      if full {
        cur := onFull;
      }
    }

    /** Offer a character to the three matchers in turn. */
    method OfferAll(delta: char) returns (raw: bool, consumed: bool, events: seq<Event>)
      requires Valid() && !inJson
      modifies Repr
      ensures Valid() && !inJson && stripper.View() == old(stripper.View())
      ensures var p := old(View());
              var a := MatchStep(p.action, ACTION_PREFIX, delta, p.last);
              var b := MatchStep(p.answer, ANSWER_PREFIX, delta, a.last);
              var t := MatchStep(p.thought, THOUGHT_PREFIX, delta, b.last);
              if a.consumed || b.consumed || t.consumed then consumed && (View(), events) == Feed(p, delta)
              else
                && !consumed && raw == (a.raw || b.raw || t.raw)
                && View() == p.(action := a.cache, answer := b.cache, thought := t.cache, last := t.last)
                && events == Flush(p.cur, a.flushed) + Flush(p.cur, b.flushed) + Flush(p.cur, t.flushed)
    {
      var raw1, flushes, markers;
      raw1, consumed, events, markers := Offer(actionMatcher, cur, delta);
      if consumed {
        return raw1, consumed, events + markers;
      }
      var raw2;
      raw2, consumed, flushes, markers := Offer(answerMatcher, Answer, delta);
      events := events + flushes;
      if consumed {
        return raw2, consumed, events + markers;
      }
      var raw3;
      raw3, consumed, flushes, markers := Offer(thoughtMatcher, Thinking, delta);
      events := events + flushes;
      if consumed {
        return raw3, consumed, events + markers;
      }
      raw := raw1 || raw2 || raw3;
    }

    /** One character of the stripped text. */
    method FeedChar(delta: char) returns (events: seq<Event>)
      requires Valid()
      modifies Repr
      ensures Valid() && stripper.View() == old(stripper.View())
      ensures (View(), events) == Feed(old(View()), delta)
    {
      if inJson {
        events := FeedRest(delta);
        return;
      }
      var raw, consumed;
      raw, consumed, events := OfferAll(delta);
      if consumed {
        return;
      }
      if raw {
        lastCharacter := [delta];
        events := events + [Text(cur, [delta])];
        return;
      }
      var rest := FeedRest(delta);
      events := events + rest;
    }

    /** The inner loop of the stream: every character of one stripped chunk. */
    method FeedText(text: string) returns (events: seq<Event>)
      requires Valid()
      modifies Repr
      ensures Valid() && stripper.View() == old(stripper.View())
      ensures (View(), events) == Run(old(View()), text)
    {
      hide Feed, Run;
      events := [];
      var index := 0;
      assert text[0..] == text;
      assert [] + Run(View(), text).1 == Run(View(), text).1;
      while index < |text|
        invariant index <= |text| && Valid() && stripper.View() == old(stripper.View())
        invariant var (q, f) := Run(View(), text[index..]); (q, events + f) == old(Run(View(), text))
      {
        RC.RunStep(View(), text[index..]);
        assert text[index..][0] == text[index] && text[index..][1..] == text[index + 1..];
        ghost var before := events;
        ghost var later := Run(Feed(View(), text[index]).0, text[index + 1..]).1;
        var more := FeedChar(text[index]);
        events := events + more;
        assert before + (more + later) == events + later;
        index := index + 1;
      }
      assert text[index..] == "" && events + [] == events;
      RC.RunNothing(View());
    }

    /** One chunk of the response. */
    method HandleChunk(content: string) returns (events: seq<Event>)
      requires Valid()
      modifies Repr
      ensures Valid()
      ensures stripper.View() == T.ChunkCarry(old(stripper.View()), content)
      ensures (View(), events) == Run(old(View()), T.ChunkOut(old(stripper.View()), content))
    {
      var text := stripper.StripChunk(content);
      events := FeedText(text);
    }

    /** What the end of the stream hands out. */
    method HandleEnd() returns (events: seq<Event>)
      ensures events == Finish(View())
    {
      events := if jsonCache != "" then [Blob(cur, jsonCache)] else [];
    }
  }

  lemma RunChunksStep(p: Parser, c: T.Carry, chunks: seq<string>)
    ensures RunChunks(p, c, chunks) ==
            if chunks == [] then (p, []) else
            var (q, e) := Run(p, T.ChunkOut(c, chunks[0]));
            var (r, f) := RunChunks(q, T.ChunkCarry(c, chunks[0]), chunks[1..]);
            (r, e + f)
  {
  }

  /** The whole stream: the outer loop over the chunks of the response. */
  method HandleStream(chunks: seq<string>) returns (events: seq<Event>)
    ensures events == ParseChunks(chunks)
  {
    hide RunChunks, T.ChunkOut, T.ChunkCarry, Run;
    var parser := new ReactParser();
    events := [];
    ghost var whole := RunChunks(START, T.Carry(0, ""), chunks);
    assert chunks[0..] == chunks && [] + whole.1 == whole.1;
    for i := 0 to |chunks|
      invariant parser.Valid() && fresh(parser.Repr)
      invariant var (q, f) := RunChunks(parser.View(), parser.stripper.View(), chunks[i..]);
                (q, events + f) == whole
    {
      assert chunks[i..][0] == chunks[i] && chunks[i..][1..] == chunks[i + 1..];
      RunChunksStep(parser.View(), parser.stripper.View(), chunks[i..]);
      ghost var before := events;
      var more := parser.HandleChunk(chunks[i]);
      events := events + more;
      ghost var later := RunChunks(parser.View(), parser.stripper.View(), chunks[i + 1..]).1;
      assert before + (more + later) == events + later;
    }
    assert chunks[|chunks|..] == [] && events + [] == events;
    RunChunksStep(parser.View(), parser.stripper.View(), []);
    var last := parser.HandleEnd();
    events := events + last;
  }
}
