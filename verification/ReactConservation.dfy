/** What the ReAct machine does with every character of its input. */
module ReactConservation {
  import opened Common
  import opened ReactMachine

  function TextOf(e: Event): string { e.s }

  function Joined(events: seq<Event>): string {
    if events == [] then "" else TextOf(events[0]) + Joined(events[1..])
  }

  /** What the machine holds back: an unfinished or unflushed blob, or a partial prefix. */
  function Held(p: Parser): string { p.json.cache + p.action + p.answer + p.thought }

  /** What is never handed out: a partial prefix at the end of the stream. */
  function Residue(p: Parser): string { p.action + p.answer + p.thought }

  predicate AtMostOne(p: Parser) {
    || (p.action == "" && p.answer == "")
    || (p.action == "" && p.thought == "")
    || (p.answer == "" && p.thought == "")
  }

  ghost predicate Valid(p: Parser) {
    && |p.action| < |ACTION_PREFIX| && |p.answer| < |ANSWER_PREFIX| && |p.thought| < |THOUGHT_PREFIX|
    && AtMostOne(p)
    && (Residue(p) != "" ==> !IsDelimiter(p.last))
    && !(p.inJson && p.gotJson)
    && (if p.inJson || p.gotJson
        then Residue(p) == "" && p.json.cache != "" && Opens(p.json.cache[0])
        else p.json == NO_JSON)
    && (p.inJson ==> p.json.stack != "")
    && (p.gotJson ==> !IsDelimiter(p.last))
  }

  /** A closed blob that has not been handed out is followed by a character that overtakes or
      overwrites it. */
  predicate Hazard(p: Parser, c: char) {
    p.gotJson && (Opens(c) || LowerChar(c) == 'a' || LowerChar(c) == 'f' || LowerChar(c) == 't')
  }

  ghost predicate NoHazard(p: Parser, text: string)
    decreases |text|
  {
    text == "" || (!Hazard(p, text[0]) && NoHazard(Feed(p, text[0]).0, text[1..]))
  }

  // ----- one character --------------------------------------------------------------------------------

  lemma JoinedConcat(a: seq<Event>, b: seq<Event>)
    ensures Joined(a + b) == Joined(a) + Joined(b)
  {
    if a == [] {
      assert a + b == b;
    } else {
      assert (a + b)[0] == a[0] && (a + b)[1..] == a[1..] + b;
      JoinedConcat(a[1..], b);
    }
  }

  lemma JoinedOne(e: Event)
    ensures Joined([e]) == e.s
  {
    assert [e][1..] == [];
  }

  lemma HeldBlob(p: Parser)
    requires p.action == "" && p.answer == "" && p.thought == ""
    ensures Held(p) == p.json.cache && Residue(p) == ""
  {
  }

  /** Inside a blob every character is added to it. */
  lemma JsonStepKeeps(p: Parser, c: char)
    requires Valid(p) && p.inJson
    ensures var (q, e) := Feed(p, c);
            Valid(q) && e == [] && Held(q) == Held(p) + [c]
  {
    var j := JsonStep(p.json, c);
    assert j.cache == p.json.cache + [c] && j.cache[0] == p.json.cache[0];
    HeldBlob(p);
    HeldBlob(Feed(p, c).0);
  }

  /** What the three matchers do outside a blob when at most one of them holds a partial match. */
  lemma MatchersAgree(p: Parser, c: char)
    requires Valid(p) && !p.inJson
    ensures var a := MatchStep(p.action, ACTION_PREFIX, c, p.last);
            var b := MatchStep(p.answer, ANSWER_PREFIX, c, a.last);
            var t := MatchStep(p.thought, THOUGHT_PREFIX, c, b.last);
            && (a.consumed ==> p.answer == "" && p.thought == "" && !p.gotJson)
            && (!a.consumed && b.consumed ==> p.action == "" && a.cache == "" && p.thought == "" && !p.gotJson)
            && (!a.consumed && !b.consumed && t.consumed ==>
                  p.action == "" && a.cache == "" && p.answer == "" && b.cache == "" && !p.gotJson)
            && (!a.consumed && !b.consumed && !t.consumed ==>
                  && a.cache == "" && b.cache == "" && t.cache == ""
                  && a.flushed + b.flushed + t.flushed == Residue(p)
                  && (Opens(c) ==> !a.raw && !b.raw && !t.raw)
                  && (a.raw || b.raw || t.raw ==> LowerChar(c) == 'a' || LowerChar(c) == 'f' || LowerChar(c) == 't')
                  && (p.gotJson && (LowerChar(c) == 'a' || LowerChar(c) == 'f' || LowerChar(c) == 't') ==>
                        a.raw || b.raw || t.raw))
  {
  }

  predicate Consumes(p: Parser, c: char) {
    var a := MatchStep(p.action, ACTION_PREFIX, c, p.last);
    var b := MatchStep(p.answer, ANSWER_PREFIX, c, a.last);
    a.consumed || b.consumed || MatchStep(p.thought, THOUGHT_PREFIX, c, b.last).consumed
  }

  lemma ResidueIs(p: Parser)
    ensures p.answer == "" && p.thought == "" ==> Residue(p) == p.action
    ensures p.action == "" && p.thought == "" ==> Residue(p) == p.answer
    ensures p.action == "" && p.answer == "" ==> Residue(p) == p.thought
  {
  }

  /** A prefix matcher takes the character: it joins the partial match, which may now be complete. */
  lemma ConsumeForm(p: Parser, c: char)
    requires Valid(p) && !p.inJson && Consumes(p, c)
    ensures !p.gotJson
    ensures var (q, e) := Feed(p, c);
            && q.json == p.json && !q.inJson && !q.gotJson && q.last == [c] && !IsDelimiter(q.last)
            && |q.action| < |ACTION_PREFIX| && |q.answer| < |ANSWER_PREFIX| && |q.thought| < |THOUGHT_PREFIX|
            && AtMostOne(q)
            && (|| (e == [] && Residue(q) == Residue(p) + [c])
                || (e == [Marker(Residue(p) + [c])] && Residue(q) == ""))
  {
    MatchersAgree(p, c);
    ResidueIs(p);
    hide Rest;
    ResidueIs(Feed(p, c).0);
  }

  /** No prefix matcher takes the character: what they held is handed out, and the character is
      either plain text or left to the rest of the step. */
  lemma PassForm(p: Parser, c: char)
    requires Valid(p) && !p.inJson && !Consumes(p, c)
    ensures exists last :: PassesAs(p, c, last)
  {
    MatchersAgree(p, c);
    var a := MatchStep(p.action, ACTION_PREFIX, c, p.last);
    var b := MatchStep(p.answer, ANSWER_PREFIX, c, a.last);
    var t := MatchStep(p.thought, THOUGHT_PREFIX, c, b.last);
    var (q, e) := Feed(p, c);
    ResidueIs(p);
    FlushOne(p.cur, a.flushed, b.flushed, t.flushed);
    assert PassesAs(p, c, t.last);
  }

  lemma FlushOne(state: ReactState, a: string, b: string, t: string)
    requires (a == "" && b == "") || (a == "" && t == "") || (b == "" && t == "")
    ensures Flush(state, a) + Flush(state, b) + Flush(state, t) == Flush(state, a + b + t)
  {
    assert a == "" && b == "" ==> a + b + t == t;
    assert a == "" && t == "" ==> a + b + t == b;
    assert b == "" && t == "" ==> a + b + t == a;
  }

  function Cleared(p: Parser, last: string): Parser {
    p.(action := "", answer := "", thought := "", last := last)
  }

  predicate PassesAs(p: Parser, c: char, last: string) {
    || PassesRaw(p, c, last)
    || (Feed(p, c) == (Rest(Cleared(p, last), c).0, Flush(p.cur, Residue(p)) + Rest(Cleared(p, last), c).1) &&
        (p.gotJson ==> LowerChar(c) != 'a' && LowerChar(c) != 'f' && LowerChar(c) != 't'))
  }

  predicate PassesRaw(p: Parser, c: char, last: string) {
    && Feed(p, c) == (Cleared(p, [c]), Flush(p.cur, Residue(p)) + [Text(p.cur, [c])])
    && (LowerChar(c) == 'a' || LowerChar(c) == 'f' || LowerChar(c) == 't')
  }

  lemma JoinedFlush(state: ReactState, s: string, rest: seq<Event>)
    ensures Joined(Flush(state, s) + rest) == s + Joined(rest)
  {
    JoinedConcat(Flush(state, s), rest);
    if s != "" {
      JoinedOne(Text(state, s));
    }
  }

  lemma RestOutside(r: Parser, c: char)
    requires !r.inJson && Residue(r) == "" && (if r.gotJson then r.json.cache != "" else r.json == NO_JSON)
    ensures var (q, e) := Rest(r, c);
            && Residue(q) == "" && q.last == [c]
            && (if Opens(c) then q.inJson && !q.gotJson && q.json == JsonOpen(c) && e == []
                else !q.inJson && !q.gotJson && q.json == NO_JSON && Joined(e) == r.json.cache + [c])
  {
    if !Opens(c) {
      JoinedOne(Text(r.cur, [c]));
      if r.gotJson {
        JoinedConcat([Blob(r.cur, r.json.cache)], [Text(r.cur, [c])]);
        JoinedOne(Blob(r.cur, r.json.cache));
      } else {
        assert [] + [Text(r.cur, [c])] == [Text(r.cur, [c])];
      }
    }
  }

  lemma MatchKeeps(p: Parser, c: char)
    requires Valid(p) && !p.inJson && Consumes(p, c)
    ensures !p.gotJson
    ensures var (q, e) := Feed(p, c);
            Valid(q) && Joined(e) + Held(q) == Held(p) + [c]
  {
    ConsumeForm(p, c);
    JoinedOne(Marker(Residue(p) + [c]));
    HeldPlain(p);
    HeldPlain(Feed(p, c).0);
  }

  lemma HeldPlain(p: Parser)
    ensures Held(p) == p.json.cache + Residue(p)
  {
  }

  /** Everything a step may do to the text it has not handed out yet. */
  ghost predicate Kept(p: Parser, c: char, q: Parser, e: seq<Event>) {
    && Valid(q)
    && (!Hazard(p, c) ==> Joined(e) + Held(q) == Held(p) + [c])
    && (p.gotJson && Opens(c) ==> e == [] && Held(q) == [c])
    && (Hazard(p, c) && !Opens(c) ==> Joined(e) == [c] && Held(q) == Held(p))
  }

  lemma RawKeeps(p: Parser, c: char, last: string)
    requires Valid(p) && !p.inJson && PassesRaw(p, c, last)
    ensures Kept(p, c, Feed(p, c).0, Feed(p, c).1)
  {
    var q := Cleared(p, [c]);
    HeldPlain(p);
    HeldBlob(q);
    JoinedFlush(p.cur, Residue(p), [Text(p.cur, [c])]);
    JoinedOne(Text(p.cur, [c]));
  }

  lemma PassKeeps(p: Parser, c: char)
    requires Valid(p) && !p.inJson && !Consumes(p, c)
    ensures Kept(p, c, Feed(p, c).0, Feed(p, c).1)
  {
    PassForm(p, c);
    var last :| PassesAs(p, c, last);
    if PassesRaw(p, c, last) {
      RawKeeps(p, c, last);
    } else {
      RestKeeps(p, c, last);
    }
  }

  lemma RestKeeps(p: Parser, c: char, last: string)
    requires Valid(p) && !p.inJson
    requires p.gotJson ==> LowerChar(c) != 'a' && LowerChar(c) != 'f' && LowerChar(c) != 't'
    ensures Kept(p, c, Rest(Cleared(p, last), c).0, Flush(p.cur, Residue(p)) + Rest(Cleared(p, last), c).1)
  {
    var r := Cleared(p, last);
    var (q, e) := Rest(r, c);
    HeldPlain(p);
    HeldBlob(q);
    JoinedFlush(p.cur, Residue(p), e);
    RestOutside(r, c);
    assert Joined([]) == "";
  }

  /** One step: whatever was held or read is handed out in order or still held, unless a closed blob
      is overtaken or overwritten. */
  lemma FeedKeeps(p: Parser, c: char)
    requires Valid(p)
    ensures Kept(p, c, Feed(p, c).0, Feed(p, c).1)
  {
    if p.inJson {
      JsonStepKeeps(p, c);
    } else if Consumes(p, c) {
      MatchKeeps(p, c);
    } else {
      PassKeeps(p, c);
    }
  }

  // ----- whole runs -----------------------------------------------------------------------------------

  lemma RunNothing(p: Parser)
    ensures Run(p, "") == (p, [])
  {
  }

  lemma RunStep(p: Parser, text: string)
    requires text != ""
    ensures var (q, e) := Feed(p, text[0]);
            var (r, f) := Run(q, text[1..]);
            Run(p, text) == (r, e + f) && Joined(e + f) == Joined(e) + Joined(f)
  {
    JoinedConcat(Feed(p, text[0]).1, Run(Feed(p, text[0]).0, text[1..]).1);
  }

  /** Handing out `j1` and then `j2` accounts for what was held and read. */
  lemma Chain(h0: string, text: string, j1: string, h1: string, j2: string, h2: string)
    requires text != "" && j1 + h1 == h0 + [text[0]] && j2 + h2 == h1 + text[1..]
    ensures (j1 + j2) + h2 == h0 + text
  {
    assert (j1 + j2) + h2 == j1 + (j2 + h2);
    assert j1 + (h1 + text[1..]) == (j1 + h1) + text[1..];
    assert (h0 + [text[0]]) + text[1..] == h0 + text;
  }

  /** Without a hazard nothing is lost or reordered. */
  lemma {:induction false} RunKeeps(p: Parser, text: string)
    requires Valid(p) && NoHazard(p, text)
    ensures var (q, e) := Run(p, text);
            Valid(q) && Joined(e) + Held(q) == Held(p) + text
    decreases |text|
  {
    if text != "" {
      var (q, e) := Feed(p, text[0]);
      FeedKeeps(p, text[0]);
      RunKeeps(q, text[1..]);
      RunStep(p, text);
      var (r, f) := Run(q, text[1..]);
      Chain(Held(p), text, Joined(e), Held(q), Joined(f), Held(r));
    }
  }

  /** Whatever happens, no text is invented. */
  lemma {:induction false} RunWeight(p: Parser, text: string)
    requires Valid(p)
    ensures var (q, e) := Run(p, text);
            Valid(q) && |Joined(e)| + |Held(q)| <= |Held(p)| + |text|
    decreases |text|
  {
    if text != "" {
      var (q, e) := Feed(p, text[0]);
      FeedKeeps(p, text[0]);
      FeedWeight(p, text[0]);
      RunWeight(q, text[1..]);
      RunStep(p, text);
    }
  }

  lemma FeedWeight(p: Parser, c: char)
    requires Valid(p) && Kept(p, c, Feed(p, c).0, Feed(p, c).1)
    ensures var (q, e) := Feed(p, c);
            && |Joined(e)| + |Held(q)| <= |Held(p)| + 1
            && (p.gotJson && Opens(c) ==> |Joined(e)| + |Held(q)| < |Held(p)| + 1)
  {
    var (q, e) := Feed(p, c);
    assert p.gotJson ==> |Held(p)| >= 1;
    if !Hazard(p, c) {
      assert |Joined(e) + Held(q)| == |Held(p) + [c]|;
    }
  }

  /** Everything that reaches the consumer, with recognised prefixes put back and the partial prefix that
      the end of the stream drops. */
  function Recovered(p: Parser, text: string): string {
    var (q, e) := Run(p, text);
    Joined(e + Finish(q)) + Residue(q)
  }

  lemma FinishHandsOut(e: seq<Event>, q: Parser)
    ensures Joined(e + Finish(q)) + Residue(q) == Joined(e) + Held(q)
  {
    HeldPlain(q);
    JoinedOne(Blob(q.cur, q.json.cache));
    JoinedConcat(e, Finish(q));
    Assoc(Joined(e), q.json.cache, Residue(q));
  }

  lemma Assoc(a: string, b: string, c: string)
    ensures (a + b) + c == a + (b + c)
  {
  }

  lemma RecoveredIs(p: Parser, text: string)
    ensures Recovered(p, text) == Joined(Run(p, text).1) + Held(Run(p, text).0)
  {
    FinishHandsOut(Run(p, text).1, Run(p, text).0);
  }

  lemma RecoveredStep(p: Parser, text: string)
    requires text != ""
    ensures Recovered(p, text) ==
            Joined(Feed(p, text[0]).1) + Recovered(Feed(p, text[0]).0, text[1..])
  {
    var q, e := Feed(p, text[0]).0, Feed(p, text[0]).1;
    var r, f := Run(q, text[1..]).0, Run(q, text[1..]).1;
    RunStep(p, text);
    RecoveredIs(p, text);
    RecoveredIs(q, text[1..]);
    Assoc(Joined(e), Joined(f), Held(r));
  }

  /** A blob that is overwritten is missing from the rest of the run. */
  lemma OverwriteBreaks(p: Parser, text: string)
    requires Valid(p) && text != "" && p.gotJson && Opens(text[0])
    ensures Recovered(p, text) != Held(p) + text
  {
    var c := text[0];
    FeedKeeps(p, c);
    FeedWeight(p, c);
    RecoveredStep(p, text);
    RunWeight(Feed(p, c).0, text[1..]);
    RecoveredIs(Feed(p, c).0, text[1..]);
  }

  /** A letter that overtakes a blob comes out where the blob's bracket should. */
  lemma OvertakeBreaks(p: Parser, text: string)
    requires Valid(p) && text != "" && Hazard(p, text[0]) && !Opens(text[0])
    ensures Recovered(p, text) != Held(p) + text
  {
    var c := text[0];
    FeedKeeps(p, c);
    RecoveredStep(p, text);
    assert Recovered(p, text)[0] == c;
    HeldPlain(p);
    assert (Held(p) + text)[0] == p.json.cache[0];
  }

  /** After a hazard what reaches the consumer is no longer the input. */
  lemma {:induction false} HazardBreaks(p: Parser, text: string)
    requires Valid(p) && !NoHazard(p, text)
    ensures Recovered(p, text) != Held(p) + text
    decreases |text|
  {
    var c := text[0];
    if Hazard(p, c) {
      if Opens(c) {
        OverwriteBreaks(p, text);
      } else {
        OvertakeBreaks(p, text);
      }
    } else {
      FeedKeeps(p, c);
      RecoveredStep(p, text);
      var (q, e) := Feed(p, c);
      HazardBreaks(q, text[1..]);
      SameTail(Joined(e), Held(q), Held(p), text, Recovered(q, text[1..]));
    }
  }

  lemma SameTail(j: string, h1: string, h0: string, text: string, r: string)
    requires text != "" && j + h1 == h0 + [text[0]] && r != h1 + text[1..]
    ensures j + r != h0 + text
  {
    Assoc(h0, [text[0]], text[1..]);
    Assoc(j, h1, text[1..]);
    assert [text[0]] + text[1..] == text;
    if j + r == j + (h1 + text[1..]) {
      Cancel(j, r, h1 + text[1..]);
      assert false;
    }
  }

  lemma Cancel(j: string, r: string, s: string)
    requires j + r == j + s
    ensures r == s
  {
    assert r == (j + r)[|j|..] && s == (j + s)[|j|..];
  }

  /** Parsing loses and reorders nothing exactly if no closed blob is directly followed by an opening
      bracket or by one of the letters that may start a prefix. */
  lemma ConservationExactlyWhen(text: string)
    ensures Recovered(START, text) == text <==> NoHazard(START, text)
  {
    assert Held(START) + text == text;
    if NoHazard(START, text) {
      RunKeeps(START, text);
      RecoveredIs(START, text);
    } else {
      HazardBreaks(START, text);
    }
  }

  /** At most one prefix matcher ever holds a partial match, and none does while a blob is held. */
  lemma OneMatcherAtATime(text: string)
    ensures var p := Run(START, text).0;
            AtMostOne(p) && (p.json.cache != "" ==> Residue(p) == "")
  {
    RunWeight(START, text);
  }

  /** The machine reads characters, not chunks. */
  lemma {:induction false} RunSplits(p: Parser, a: string, b: string)
    ensures var (q, e) := Run(p, a);
            var (r, f) := Run(q, b);
            Run(p, a + b) == (r, e + f)
    decreases |a|
  {
    if a == "" {
      assert a + b == b;
      assert [] + Run(p, b).1 == Run(p, b).1;
    } else {
      assert (a + b)[0] == a[0] && (a + b)[1..] == a[1..] + b;
      var (p1, e1) := Feed(p, a[0]);
      RunSplits(p1, a[1..], b);
      var (q, e2) := Run(p1, a[1..]);
      var (r, f) := Run(q, b);
      assert e1 + (e2 + f) == (e1 + e2) + f;
    }
  }

  // ----- what the consumer gets ---------------------------------------------------------------------------------

  /** The text handed out never weighs more than the text read, and the dropped prefix is missing from it. */
  lemma HandedOutIsLighter(text: string)
    ensures Joined(Parse(text)) + Residue(Run(START, text).0) == Recovered(START, text)
    ensures |Joined(Parse(text))| + |Residue(Run(START, text).0)| <= |text|
  {
    RunWeight(START, text);
    RecoveredIs(START, text);
  }

  /** What is handed out, with recognised prefixes put back, is the whole input exactly if no closed blob is
      overtaken or overwritten and the stream does not end inside a prefix. */
  lemma HandedOutExactlyWhen(text: string)
    ensures Joined(Parse(text)) == text <==> NoHazard(START, text) && Residue(Run(START, text).0) == ""
  {
    HandedOutIsLighter(text);
    ConservationExactlyWhen(text);
    var out, left := Joined(Parse(text)), Residue(Run(START, text).0);
    if left == "" {
      assert out + left == out;
    }
  }

  /** What the consumer reads: recognised prefixes are swallowed. */
  function Shown(events: seq<Event>): string {
    if events == [] then "" else (if events[0].Marker? then "" else TextOf(events[0])) + Shown(events[1..])
  }

  ghost predicate NoEmptyMarker(events: seq<Event>) {
    forall e :: e in events && e.Marker? ==> e.s != ""
  }

  ghost predicate NoMarker(events: seq<Event>) { forall e :: e in events ==> !e.Marker? }

  lemma FeedMarksSomething(p: Parser, c: char)
    ensures NoEmptyMarker(Feed(p, c).1)
  {
  }

  lemma {:induction false} RunMarksSomething(p: Parser, text: string)
    ensures NoEmptyMarker(Run(p, text).1)
    decreases |text|
  {
    if text != "" {
      FeedMarksSomething(p, text[0]);
      RunMarksSomething(Feed(p, text[0]).0, text[1..]);
      hide Feed;
    }
  }

  lemma {:induction false} ShownIsShorter(events: seq<Event>)
    requires NoEmptyMarker(events)
    ensures if NoMarker(events) then Shown(events) == Joined(events) else |Shown(events)| < |Joined(events)|
  {
    if events != [] {
      assert events[0] in events && forall e :: e in events[1..] ==> e in events;
      ShownIsShorter(events[1..]);
      assert forall e :: e in events ==> e == events[0] || e in events[1..];
    }
  }

  /** The consumer reads exactly the input if and only if there is no hazard, no dropped prefix, and no prefix
      to swallow. */
  lemma ShownExactlyWhen(text: string)
    ensures Shown(Parse(text)) == text <==>
            NoHazard(START, text) && Residue(Run(START, text).0) == "" && NoMarker(Parse(text))
  {
    RunMarksSomething(START, text);
    HandedOutIsLighter(text);
    HandedOutExactlyWhen(text);
    hide Run, Shown, Joined;
    ShownIsShorter(Parse(text));
  }
}
