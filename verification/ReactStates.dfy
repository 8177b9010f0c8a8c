/** What the ReAct machine recognises as a prefix, and what it takes the text behind it for. */
module ReactStates {
  import opened Common
  import opened ReactMachine
  import opened ReactConservation
  import opened ReactStream
  import T = ThinkTags

  // ----- markers ---------------------------------------------------------------------------------------------

  predicate MarksAction(e: Event) { e.Marker? && SameLetters(e.s, "action:") }

  predicate MarksAnswer(e: Event) { e.Marker? && SameLetters(e.s, "finalanswer:") }

  predicate MarksThought(e: Event) { e.Marker? && SameLetters(e.s, "thought:") }

  /** Of the markers of an answer or a thought, the last one is of an answer. */
  ghost predicate InAnswer(events: seq<Event>) {
    exists j :: 0 <= j < |events| && MarksAnswer(events[j]) &&
                forall i :: j < i < |events| ==> !MarksThought(events[i])
  }

  /** The state behind the events of a machine that was in `state`. */
  function StateAfter(state: ReactState, events: seq<Event>): ReactState
    decreases |events|
  {
    if events == [] then state
    else if MarksAnswer(events[|events|-1]) then Answer
    else if MarksThought(events[|events|-1]) then Thinking
    else StateAfter(state, events[..|events|-1])
  }

  lemma {:induction false} StateAfterIs(events: seq<Event>)
    ensures StateAfter(Thinking, events) == if InAnswer(events) then Answer else Thinking
    decreases |events|
  {
    if events != [] {
      var p, e := events[..|events|-1], events[|events|-1];
      StateAfterIs(p);
      assert forall i :: 0 <= i < |p| ==> events[i] == p[i];
      if MarksAnswer(e) {
        assert MarksAnswer(events[|p|]);
      } else if InAnswer(p) && !MarksThought(e) {
        var j :| 0 <= j < |p| && MarksAnswer(p[j]) && forall i :: j < i < |p| ==> !MarksThought(p[i]);
        assert MarksAnswer(events[j]);
      }
    }
  }

  lemma {:induction false} StateAfterBoth(state: ReactState, a: seq<Event>, b: seq<Event>)
    ensures StateAfter(state, a + b) == StateAfter(StateAfter(state, a), b)
    decreases |b|
  {
    if b == [] {
      assert a + b == a;
    } else {
      assert (a + b)[..|a + b|-1] == a + b[..|b|-1];
      StateAfterBoth(state, a, b[..|b|-1]);
    }
  }

  /** Every event but a marker carries the state that the markers before it leave, and every marker is one of the
      three prefixes. */
  ghost predicate Labelled(state: ReactState, events: seq<Event>) {
    forall k :: 0 <= k < |events| ==>
      if events[k].Marker? then MarksAction(events[k]) || MarksAnswer(events[k]) || MarksThought(events[k])
      else events[k].state == StateAfter(state, events[..k])
  }

  lemma LabelledBoth(state: ReactState, a: seq<Event>, b: seq<Event>)
    requires Labelled(state, a) && Labelled(StateAfter(state, a), b)
    ensures Labelled(state, a + b)
  {
    var s := a + b;
    forall k | 0 <= k < |s| && !s[k].Marker? ensures s[k].state == StateAfter(state, s[..k]) {
      if k < |a| {
        assert s[..k] == a[..k];
      } else {
        assert s[..k] == a + b[..k - |a|];
        StateAfterBoth(state, a, b[..k - |a|]);
      }
    }
  }

  // ----- one character ------------------------------------------------------------------------------------------

  /** What a matcher holds is the beginning of its prefix, whatever the case. */
  predicate Spells(cache: string, prefix: string) {
    |cache| <= |prefix| && forall i :: 0 <= i < |cache| ==> SameLetter(cache[i], prefix[i])
  }

  predicate SpellAll(p: Parser) {
    Spells(p.action, ACTION_PREFIX) && Spells(p.answer, ANSWER_PREFIX) && Spells(p.thought, THOUGHT_PREFIX)
  }

  lemma LowerCharMeans(c: char, d: char)
    requires 'a' <= d <= 'z' || d == ':'
    ensures LowerChar(c) == d <==> SameLetter(c, d)
  {
  }

  predicate LowerLetters(prefix: string) {
    forall i :: 0 <= i < |prefix| ==> 'a' <= prefix[i] <= 'z' || prefix[i] == ':'
  }

  lemma MatchSpells(cache: string, prefix: string, c: char, last: string)
    requires Spells(cache, prefix) && LowerLetters(prefix)
    ensures var m := MatchStep(cache, prefix, c, last);
            Spells(m.cache, prefix) && (m.full ==> m.consumed && SameLetters(cache + [c], prefix))
  {
    if |cache| < |prefix| {
      LowerCharMeans(c, prefix[|cache|]);
    }
  }

  /** No marker, and the state of the machine everywhere. */
  predicate Uniform(state: ReactState, events: seq<Event>) {
    forall k :: 0 <= k < |events| ==> !events[k].Marker? && events[k].state == state
  }

  lemma {:induction false} UniformIsLabelled(state: ReactState, events: seq<Event>)
    requires Uniform(state, events)
    ensures Labelled(state, events) && StateAfter(state, events) == state
    decreases |events|
  {
    if events != [] {
      UniformIsLabelled(state, events[..|events|-1]);
      assert forall k :: 0 <= k < |events| - 1 ==> events[..|events|-1][..k] == events[..k];
    }
  }

  lemma RestIsUniform(p: Parser, c: char)
    ensures var (q, e) := Rest(p, c);
            Uniform(p.cur, e) && q.cur == p.cur && q.last == [c]
            && q.action == p.action && q.answer == p.answer && q.thought == p.thought
  {
  }

  /** One step: its events carry the state, up to a marker at the end, which may change it. */
  ghost predicate StepLabels(p: Parser, q: Parser, e: seq<Event>) {
    || (Uniform(p.cur, e) && q.cur == p.cur)
    || (e != [] && Uniform(p.cur, e[..|e|-1]) &&
        (|| (MarksAction(e[|e|-1]) && q.cur == p.cur)
         || (MarksAnswer(e[|e|-1]) && q.cur == Answer)
         || (MarksThought(e[|e|-1]) && q.cur == Thinking)))
  }

  /** What is flushed comes before a marker or before text. */
  lemma FlushedLabels(p: Parser, q: Parser, s: string, rest: seq<Event>)
    requires StepLabels(p, q, rest)
    ensures StepLabels(p, q, Flush(p.cur, s) + rest)
  {
    var all := Flush(p.cur, s) + rest;
    if !(Uniform(p.cur, rest) && q.cur == p.cur) {
      assert all[|all|-1] == rest[|rest|-1];
      assert all[..|all|-1] == Flush(p.cur, s) + rest[..|rest|-1];
    }
  }

  lemma FlushedThrice(p: Parser, q: Parser, a: string, b: string, t: string, rest: seq<Event>)
    requires StepLabels(p, q, rest)
    ensures StepLabels(p, q, Flush(p.cur, a) + rest)
    ensures StepLabels(p, q, Flush(p.cur, a) + Flush(p.cur, b) + rest)
    ensures StepLabels(p, q, Flush(p.cur, a) + Flush(p.cur, b) + Flush(p.cur, t) + rest)
  {
    var fa, fb, ft := Flush(p.cur, a), Flush(p.cur, b), Flush(p.cur, t);
    FlushedLabels(p, q, t, rest);
    FlushedLabels(p, q, b, ft + rest);
    FlushedLabels(p, q, a, fb + (ft + rest));
    FlushedLabels(p, q, b, rest);
    FlushedLabels(p, q, a, fb + rest);
    FlushedLabels(p, q, a, rest);
    assert fa + fb + ft + rest == fa + (fb + (ft + rest)) && fa + fb + rest == fa + (fb + rest);
  }

  /** What a step hands out behind what it flushes. */
  function Tail(p: Parser, c: char): seq<Event> {
    if p.inJson then Rest(p, c).1 else
    var a := MatchStep(p.action, ACTION_PREFIX, c, p.last);
    var b := MatchStep(p.answer, ANSWER_PREFIX, c, a.last);
    var t := MatchStep(p.thought, THOUGHT_PREFIX, c, b.last);
    if a.consumed then (if a.full then [Marker(p.action + [c])] else [])
    else if b.consumed then (if b.full then [Marker(p.answer + [c])] else [])
    else if t.consumed then (if t.full then [Marker(p.thought + [c])] else [])
    else if a.raw || b.raw || t.raw then [Text(p.cur, [c])]
    else Rest(p.(action := a.cache, answer := b.cache, thought := t.cache, last := t.last), c).1
  }

  lemma FeedSpells(p: Parser, c: char)
    requires SpellAll(p)
    ensures SpellAll(Feed(p, c).0) && Feed(p, c).0.last == [c]
  {
    var a := MatchStep(p.action, ACTION_PREFIX, c, p.last);
    var b := MatchStep(p.answer, ANSWER_PREFIX, c, a.last);
    var t := MatchStep(p.thought, THOUGHT_PREFIX, c, b.last);
    MatchSpells(p.action, ACTION_PREFIX, c, p.last);
    MatchSpells(p.answer, ANSWER_PREFIX, c, a.last);
    MatchSpells(p.thought, THOUGHT_PREFIX, c, b.last);
    RestIsUniform(p, c);
    RestIsUniform(p.(action := a.cache, answer := b.cache, thought := t.cache, last := t.last), c);
    hide Rest, MatchStep, Spells, Uniform;
  }

  lemma UniformStep(p: Parser, q: Parser, e: seq<Event>)
    requires Uniform(p.cur, e) && q.cur == p.cur
    ensures StepLabels(p, q, e)
  {
  }

  lemma MarkerStep(p: Parser, q: Parser, m: Event)
    requires (MarksAction(m) && q.cur == p.cur) || (MarksAnswer(m) && q.cur == Answer) ||
             (MarksThought(m) && q.cur == Thinking)
    ensures StepLabels(p, q, [m])
  {
  }

  lemma TailLabels(p: Parser, c: char)
    requires SpellAll(p)
    ensures StepLabels(p, Feed(p, c).0, Tail(p, c))
  {
    var a := MatchStep(p.action, ACTION_PREFIX, c, p.last);
    var b := MatchStep(p.answer, ANSWER_PREFIX, c, a.last);
    var t := MatchStep(p.thought, THOUGHT_PREFIX, c, b.last);
    MatchSpells(p.action, ACTION_PREFIX, c, p.last);
    MatchSpells(p.answer, ANSWER_PREFIX, c, a.last);
    MatchSpells(p.thought, THOUGHT_PREFIX, c, b.last);
    RestIsUniform(p, c);
    RestIsUniform(p.(action := a.cache, answer := b.cache, thought := t.cache, last := t.last), c);
    hide Rest, MatchStep, Spells, SameLetters, Flush, StepLabels;
    var q, e := Feed(p, c).0, Tail(p, c);
    if e != [] && e[0].Marker? {
      MarkerStep(p, q, e[0]);
      assert e == [e[0]];
    } else {
      UniformStep(p, q, e);
    }
  }

  lemma FeedLabels(p: Parser, c: char)
    requires SpellAll(p)
    ensures var (q, e) := Feed(p, c);
            SpellAll(q) && StepLabels(p, q, e) && q.last == [c]
  {
    FeedSpells(p, c);
    TailLabels(p, c);
    var q := Feed(p, c).0;
    var a := MatchStep(p.action, ACTION_PREFIX, c, p.last);
    var b := MatchStep(p.answer, ANSWER_PREFIX, c, a.last);
    var t := MatchStep(p.thought, THOUGHT_PREFIX, c, b.last);
    FlushedThrice(p, q, a.flushed, b.flushed, t.flushed, Tail(p, c));
    hide Rest, MatchStep, SpellAll, StepLabels, Flush;
  }

  lemma StepIsLabelled(p: Parser, q: Parser, e: seq<Event>)
    requires StepLabels(p, q, e)
    ensures Labelled(p.cur, e) && StateAfter(p.cur, e) == q.cur
  {
    if Uniform(p.cur, e) && q.cur == p.cur {
      UniformIsLabelled(p.cur, e);
    } else {
      var es, m := e[..|e|-1], e[|e|-1];
      UniformIsLabelled(p.cur, es);
      assert e == es + [m];
      assert Labelled(p.cur, [m]);
      hide Labelled, Uniform, SameLetters;
      LabelledBoth(p.cur, es, [m]);
    }
  }

  // ----- whole texts --------------------------------------------------------------------------------------------

  /** A run that starts in `state` and hands out `e` ends in `end`. */
  ghost predicate Leads(state: ReactState, e: seq<Event>, end: ReactState) {
    Labelled(state, e) && StateAfter(state, e) == end
  }

  lemma LeadsOn(s: ReactState, e: seq<Event>, t: ReactState, f: seq<Event>, u: ReactState)
    requires Leads(s, e, t) && Leads(t, f, u)
    ensures Leads(s, e + f, u)
  {
    LabelledBoth(s, e, f);
    StateAfterBoth(s, e, f);
  }

  lemma FeedLeads(p: Parser, c: char)
    requires SpellAll(p)
    ensures var (q, e) := Feed(p, c);
            SpellAll(q) && Leads(p.cur, e, q.cur) && q.last == [c]
  {
    hide Feed, SpellAll;
    FeedLabels(p, c);
    StepIsLabelled(p, Feed(p, c).0, Feed(p, c).1);
  }

  lemma {:induction false} RunLeads(p: Parser, text: string)
    requires SpellAll(p)
    ensures var (q, e) := Run(p, text);
            SpellAll(q) && Leads(p.cur, e, q.cur)
    decreases |text|
  {
    if text != "" {
      hide Feed, Leads, SpellAll;
      FeedLeads(p, text[0]);
      var (q, e) := Feed(p, text[0]);
      RunLeads(q, text[1..]);
      var (r, f) := Run(q, text[1..]);
      assert Run(p, text) == (r, e + f);
      LeadsOn(p.cur, e, q.cur, f, r.cur);
    }
  }

  lemma RunGoesOn(p: Parser, text: string)
    requires text != ""
    ensures Run(p, text).0 == Run(Feed(p, text[0]).0, text[1..]).0
    ensures Run(p, text).1 == Feed(p, text[0]).1 + Run(Feed(p, text[0]).0, text[1..]).1
  {
    hide Feed;
  }

  lemma {:induction false} LastIsPrevious(p: Parser, text: string)
    requires SpellAll(p)
    ensures Run(p, text).0.last == if text == "" then p.last else [text[|text|-1]]
    decreases |text|
  {
    hide Run, Feed, SpellAll;
    if text == "" {
      RunNothing(p);
    } else {
      FeedSpells(p, text[0]);
      RunGoesOn(p, text);
      LastIsPrevious(Feed(p, text[0]).0, text[1..]);
    }
  }

  /** Over every text: a marker reads as one of the three prefixes in any case, and everything else carries the state
      that the markers before it decide, the answer if the last of an answer or a thought is of an answer. */
  lemma StateIsDecidedByMarkers(text: string, k: nat)
    requires k < |Parse(text)|
    ensures var e := Parse(text)[k];
            if e.Marker? then MarksAction(e) || MarksAnswer(e) || MarksThought(e)
            else e.state == if InAnswer(Parse(text)[..k]) then Answer else Thinking
  {
    RunLeads(START, text);
    var (p, e) := Run(START, text);
    UniformIsLabelled(p.cur, Finish(p));
    LeadsOn(Thinking, e, p.cur, Finish(p), p.cur);
    StateAfterIs(Parse(text)[..k]);
    hide Run, StateAfter, InAnswer;
  }

  /** Over every stream of chunks likewise. */
  lemma StreamStateIsDecidedByMarkers(chunks: seq<string>, k: nat)
    requires k < |ParseChunks(chunks)|
    ensures var e := ParseChunks(chunks)[k];
            if e.Marker? then MarksAction(e) || MarksAnswer(e) || MarksThought(e)
            else e.state == if InAnswer(ParseChunks(chunks)[..k]) then Answer else Thinking
  {
    ChunksRunTogether(START, T.Carry(0, ""), chunks);
    StateIsDecidedByMarkers(T.StripChunks(T.Carry(0, ""), chunks), k);
  }

  // ----- what is recognised -----------------------------------------------------------------------------------------

  /** The text, with what is held back in front of it, begins one of the three prefixes. */
  predicate BeginsPrefix(s: string) {
    Spells(s, "action:") || Spells(s, "finalanswer:") || Spells(s, "thought:")
  }

  lemma SpellsOneMore(cache: string, prefix: string, c: char)
    requires Spells(cache, prefix)
    ensures Spells(cache + [c], prefix) <==> |cache| < |prefix| && SameLetter(c, prefix[|cache|])
  {
    assert (cache + [c])[|cache|] == c;
  }

  lemma OtherPrefix(cache: string, c: char, prefix: string, other: string)
    requires Spells(cache, prefix) && cache != "" && other != "" && !SameLetter(prefix[0], other[0])
    requires LowerLetters(prefix) && LowerLetters(other)
    ensures !Spells(cache + [c], other)
  {
    assert (cache + [c])[0] == cache[0];
  }

  lemma MatchTakes(cache: string, prefix: string, c: char, last: string)
    requires Spells(cache, prefix) && |cache| < |prefix| && LowerLetters(prefix)
    ensures var m := MatchStep(cache, prefix, c, last);
            && (m.consumed <==> Spells(cache + [c], prefix) && (cache == "" ==> IsDelimiter(last)))
            && (!m.consumed ==> m.last == if cache == "" then last else [c])
  {
    SpellsOneMore(cache, prefix, c);
    LowerCharMeans(c, prefix[|cache|]);
  }

  lemma NoDelimiterBegins(c: char, prefix: string)
    requires LowerLetters(prefix) && prefix != "" && Spells("" + [c], prefix)
    ensures !IsDelimiter([c])
  {
    SpellsOneMore("", prefix, c);
  }

  /** With nothing held back, each matcher sees the same last character. */
  lemma FirstTaken(p: Parser, c: char)
    requires !p.inJson && p.action == "" && p.answer == "" && p.thought == ""
    ensures Consumes(p, c) <==> BeginsPrefix("" + [c]) && IsDelimiter(p.last)
  {
    MatchTakes("", ACTION_PREFIX, c, p.last);
    MatchTakes("", ANSWER_PREFIX, c, p.last);
    MatchTakes("", THOUGHT_PREFIX, c, p.last);
    hide MatchStep, Spells, IsDelimiter;
  }

  lemma ActionTaken(p: Parser, c: char)
    requires SpellAll(p) && p.action != "" && p.answer == "" && p.thought == "" && |p.action| < |ACTION_PREFIX|
    ensures Consumes(p, c) <==> BeginsPrefix(p.action + [c])
  {
    MatchTakes(p.action, ACTION_PREFIX, c, p.last);
    MatchTakes("", ANSWER_PREFIX, c, [c]);
    MatchTakes("", THOUGHT_PREFIX, c, [c]);
    OtherPrefix(p.action, c, ACTION_PREFIX, ANSWER_PREFIX);
    OtherPrefix(p.action, c, ACTION_PREFIX, THOUGHT_PREFIX);
    if Spells("" + [c], ANSWER_PREFIX) { NoDelimiterBegins(c, ANSWER_PREFIX); }
    if Spells("" + [c], THOUGHT_PREFIX) { NoDelimiterBegins(c, THOUGHT_PREFIX); }
    hide MatchStep, Spells, IsDelimiter;
  }

  lemma AnswerTaken(p: Parser, c: char)
    requires SpellAll(p) && p.action == "" && p.answer != "" && p.thought == "" && |p.answer| < |ANSWER_PREFIX|
    requires !IsDelimiter(p.last)
    ensures Consumes(p, c) <==> BeginsPrefix(p.answer + [c])
  {
    MatchTakes("", ACTION_PREFIX, c, p.last);
    MatchTakes(p.answer, ANSWER_PREFIX, c, p.last);
    MatchTakes("", THOUGHT_PREFIX, c, [c]);
    OtherPrefix(p.answer, c, ANSWER_PREFIX, ACTION_PREFIX);
    OtherPrefix(p.answer, c, ANSWER_PREFIX, THOUGHT_PREFIX);
    if Spells("" + [c], THOUGHT_PREFIX) { NoDelimiterBegins(c, THOUGHT_PREFIX); }
    hide MatchStep, Spells, IsDelimiter;
  }

  lemma ThoughtTaken(p: Parser, c: char)
    requires SpellAll(p) && p.action == "" && p.answer == "" && p.thought != "" && |p.thought| < |THOUGHT_PREFIX|
    requires !IsDelimiter(p.last)
    ensures Consumes(p, c) <==> BeginsPrefix(p.thought + [c])
  {
    MatchTakes("", ACTION_PREFIX, c, p.last);
    MatchTakes("", ANSWER_PREFIX, c, p.last);
    MatchTakes(p.thought, THOUGHT_PREFIX, c, p.last);
    OtherPrefix(p.thought, c, THOUGHT_PREFIX, ACTION_PREFIX);
    OtherPrefix(p.thought, c, THOUGHT_PREFIX, ANSWER_PREFIX);
    hide MatchStep, Spells, IsDelimiter;
  }

  lemma ConsumesExactlyWhen(p: Parser, c: char)
    requires Valid(p) && SpellAll(p) && !p.inJson
    ensures Consumes(p, c) <==> BeginsPrefix(Residue(p) + [c]) && (Residue(p) == "" ==> IsDelimiter(p.last))
  {
    ResidueIs(p);
    if Residue(p) == "" {
      FirstTaken(p, c);
    } else if p.action != "" {
      ActionTaken(p, c);
    } else if p.answer != "" {
      AnswerTaken(p, c);
    } else {
      ThoughtTaken(p, c);
    }
    hide Consumes, BeginsPrefix, SpellAll;
  }

  lemma StartIsReady()
    ensures Valid(START) && SpellAll(START)
  {
  }

  lemma {:induction false} Reached(p: Parser, text: string)
    requires Valid(p) && SpellAll(p)
    ensures var q := Run(p, text).0;
            Valid(q) && SpellAll(q) && q.last == if text == "" then p.last else [text[|text|-1]]
  {
    hide Run, Valid, SpellAll;
    RunWeight(p, text);
    RunLeads(p, text);
    LastIsPrevious(p, text);
  }

  /** Outside a blob a character is taken into a prefix exactly if it goes on with the one that has begun, or begins one
      behind a blank, a line end or at the very start. */
  lemma TakenExactlyWhen(text: string, c: char, p: Parser)
    requires p == Run(START, text).0 && !p.inJson
    ensures Consumes(p, c) <==>
              && BeginsPrefix(Residue(p) + [c])
              && (Residue(p) == "" ==> text == "" || text[|text|-1] == ' ' || text[|text|-1] == '\n')
  {
    StartIsReady();
    hide Run, Valid, SpellAll, Consumes, BeginsPrefix, Residue;
    Reached(START, text);
    ConsumesExactlyWhen(p, c);
  }

  // ----- a prefix is recognised as a whole ---------------------------------------------------------------------------

  /** The machine outside a blob with only the beginning of a prefix of an answer in hand. */
  predicate AtAnswer(p: Parser) {
    && !p.inJson && p.action == "" && p.thought == "" && |p.answer| < |ANSWER_PREFIX|
    && (p.answer == "" <==> IsDelimiter(p.last))
  }

  lemma AnswerGoesOn(p: Parser, c: char)
    requires AtAnswer(p) && SameLetter(c, ANSWER_PREFIX[|p.answer|])
    ensures var q, e := Feed(p, c).0, Feed(p, c).1;
            if |p.answer| + 1 == |ANSWER_PREFIX|
            then q == p.(answer := "", last := [c], cur := Answer) && e == [Marker(p.answer + [c])]
            else q == p.(answer := p.answer + [c], last := [c]) && e == [] && AtAnswer(q)
  {
    LowerCharMeans(c, ANSWER_PREFIX[|p.answer|]);
  }

  lemma NextLetter(cache: string, s: string)
    requires s != "" && SameLetters(cache + s, ANSWER_PREFIX)
    ensures |cache| < |ANSWER_PREFIX| && SameLetter(s[0], ANSWER_PREFIX[|cache|])
    ensures (cache + [s[0]]) + s[1..] == cache + s && (|s| == 1 <==> |cache| + 1 == |ANSWER_PREFIX|)
    ensures |s| == 1 ==> [s[0]] == ":" && s[1..] == "" && cache + [s[0]] == cache + s
  {
    assert (cache + s)[|cache|] == s[0];
  }

  /** Wherever a prefix may begin, the whole text of one that announces an answer, in any case, is swallowed as one
      marker, and what follows is the answer. */
  lemma {:induction false} AnswerIsRecognised(p: Parser, s: string)
    requires AtAnswer(p) && s != "" && SameLetters(p.answer + s, "finalanswer:")
    ensures Run(p, s).0 == p.(answer := "", last := ":", cur := Answer)
    ensures Run(p, s).1 == [Marker(p.answer + s)]
    decreases |s|
  {
    hide Feed, Run, SameLetters, SameLetter, AtAnswer;
    NextLetter(p.answer, s);
    AnswerGoesOn(p, s[0]);
    RunGoesOn(p, s);
    var q, e := Feed(p, s[0]).0, Feed(p, s[0]).1;
    if |s| == 1 {
      RunNothing(q);
    } else {
      AnswerIsRecognised(q, s[1..]);
    }
  }

  /** Plain text is handed out as it is. */
  lemma PlainCharacter(p: Parser, c: char, rest: string)
    requires !p.inJson && !p.gotJson && p.action == "" && p.answer == "" && p.thought == ""
    requires c == ' ' || '0' <= c <= '9'
    ensures Run(p, [c] + rest).0 == Run(p.(last := [c]), rest).0
    ensures Run(p, [c] + rest).1 == [Text(p.cur, [c])] + Run(p.(last := [c]), rest).1
  {
    PlainStep(p, c);
    assert ([c] + rest)[1..] == rest;
    hide Feed;
    RunGoesOn(p, [c] + rest);
  }

  lemma PlainStep(p: Parser, c: char)
    requires !p.inJson && !p.gotJson && p.action == "" && p.answer == "" && p.thought == ""
    requires c == ' ' || '0' <= c <= '9'
    ensures Feed(p, c).0 == p.(last := [c]) && Feed(p, c).1 == [Text(p.cur, [c])]
  {
  }

  /** The machine behind the prefix of an answer. */
  function Answering(last: string): Parser { START.(last := last, cur := Answer) }

  lemma FortyTwo()
    ensures Run(Answering(":"), " 42").0 == Answering("2")
    ensures Run(Answering(":"), " 42").1 == [Text(Answer, " "), Text(Answer, "4"), Text(Answer, "2")]
  {
    assert [' '] == " " && ['4'] == "4" && ['2'] == "2";
    assert " 42" == [' '] + "42" && "42" == ['4'] + "2" && "2" == ['2'] + "";
    hide Run;
    PlainCharacter(Answering(":"), ' ', "42");
    PlainCharacter(Answering(" "), '4', "2");
    PlainCharacter(Answering("4"), '2', "");
    RunNothing(Answering("2"));
  }

  lemma StartRecognises(s: string)
    requires SameLetters(s, "finalanswer:")
    ensures Run(START, s).0 == Answering(":") && Run(START, s).1 == [Marker(s)]
  {
    assert AtAnswer(START) && START.answer + s == s;
    hide Run;
    AnswerIsRecognised(START, s);
  }

  /** The events of a text with an answer. */
  lemma AnswerOfTheQuestion()
    ensures Parse("FinalAnswer: 42") ==
            [Marker("FinalAnswer:"), Text(Answer, " "), Text(Answer, "4"), Text(Answer, "2")]
  {
    hide Run;
    StartRecognises("FinalAnswer:");
    RunSplits(START, "FinalAnswer:", " 42");
    FortyTwo();
    assert "FinalAnswer:" + " 42" == "FinalAnswer: 42";
  }
}
