/** The character machine of the streaming ReAct parser: three prefix matchers, a bracket scanner and
    the text in between. */
module ReactMachine {
  import opened Common

  datatype ReactState = Thinking | Answer

  /** What the machine hands out.  A `Blob` goes to the action parser, which yields an action or the
      same text again; a `Marker` is a recognised prefix, which is swallowed. */
  datatype Event =
    | Text(state: ReactState, s: string)
    | Blob(state: ReactState, s: string)
    | Marker(s: string)

  const ACTION_PREFIX := "action:"
  const ANSWER_PREFIX := "finalanswer:"
  const THOUGHT_PREFIX := "thought:"

  /** `last` is empty before the first character. */
  predicate IsDelimiter(last: string) { last == "" || last == " " || last == "\n" }

  predicate Opens(c: char) { c == '{' || c == '[' }

  function Closer(c: char): char { if c == '{' then '}' else ']' }

  // ----- prefix matchers ---------------------------------------------------------------------------

  /** The characters matched so far; the matcher's index is their number. */
  datatype Matched = Matched(
    cache: string, last: string, raw: bool, flushed: string, consumed: bool, full: bool)

  function MatchStep(cache: string, prefix: string, c: char, last: string): Matched {
    if |cache| < |prefix| && LowerChar(c) == prefix[|cache|] then
      if cache == "" && !IsDelimiter(last) then Matched(cache, last, true, "", false, false)
      else if |cache| + 1 == |prefix| then Matched("", [c], false, "", true, true)
      else Matched(cache + [c], [c], false, "", true, false)
    else if cache != "" then Matched("", [c], false, cache, false, false)
    else Matched(cache, last, false, "", false, false)
  }

  // ----- the bracket scanner --------------------------------------------------------------------------

  datatype Json = Json(cache: string, stack: string, inString: bool, escape: bool)

  function JsonOpen(c: char): Json { Json([c], [Closer(c)], false, false) }

  function JsonStep(j: Json, c: char): Json {
    var k := j.(cache := j.cache + [c]);
    if j.inString then
      if j.escape then k.(escape := false)
      else if c == '\\' then k.(escape := true)
      else if c == '\"' then k.(inString := false)
      else k
    else if c == '\"' then k.(inString := true)
    else if Opens(c) then k.(stack := j.stack + [Closer(c)])
    else if (c == '}' || c == ']') && j.stack != "" && c == j.stack[|j.stack|-1]
    then k.(stack := j.stack[..|j.stack|-1])
    else k
  }

  const NO_JSON := Json("", "", false, false)

  // ----- the machine -------------------------------------------------------------------------------------

  datatype Parser = Parser(
    cur: ReactState,
    last: string,
    action: string,
    answer: string,
    thought: string,
    inJson: bool,
    gotJson: bool,
    json: Json)

  const START := Parser(Thinking, "", "", "", "", false, false, NO_JSON)

  function Flush(state: ReactState, s: string): seq<Event> {
    if s == "" then [] else [Text(state, s)]
  }

  /** The part of a step that follows the prefix matchers. */
  function Rest(p: Parser, c: char): (Parser, seq<Event>) {
    if p.inJson then
      var j := JsonStep(p.json, c);
      var q := p.(json := j, last := [c]);
      if j.stack == "" then (q.(inJson := false, gotJson := true), []) else (q, [])
    else if Opens(c) then
      (p.(inJson := true, gotJson := false, json := JsonOpen(c), last := [c]), [])
    else
      var blob := if p.gotJson then [Blob(p.cur, p.json.cache)] else [];
      (p.(last := [c], gotJson := false, json := if p.gotJson then NO_JSON else p.json), blob + [Text(p.cur, [c])])
  }

  function Feed(p: Parser, c: char): (Parser, seq<Event>) {
    if p.inJson then Rest(p, c) else
    var a := MatchStep(p.action, ACTION_PREFIX, c, p.last);
    var p1 := p.(action := a.cache, last := a.last);
    var e1 := Flush(p.cur, a.flushed);
    if a.consumed then (p1, e1 + if a.full then [Marker(p.action + [c])] else []) else
    var b := MatchStep(p.answer, ANSWER_PREFIX, c, p1.last);
    var p2 := p1.(answer := b.cache, last := b.last);
    var e2 := e1 + Flush(p.cur, b.flushed);
    if b.consumed then
      (if b.full then p2.(cur := Answer) else p2, e2 + if b.full then [Marker(p.answer + [c])] else [])
    else
    var t := MatchStep(p.thought, THOUGHT_PREFIX, c, p2.last);
    var p3 := p2.(thought := t.cache, last := t.last);
    var e3 := e2 + Flush(p.cur, t.flushed);
    if t.consumed then
      (if t.full then p3.(cur := Thinking) else p3, e3 + if t.full then [Marker(p.thought + [c])] else [])
    else if a.raw || b.raw || t.raw then (p3.(last := [c]), e3 + [Text(p.cur, [c])])
    else
      var (q, e) := Rest(p3, c);
      (q, e3 + e)
  }

  function Run(p: Parser, text: string): (Parser, seq<Event>)
    decreases |text|
  {
    if text == "" then (p, []) else
    var (q, e) := Feed(p, text[0]);
    var (r, f) := Run(q, text[1..]);
    (r, e + f)
  }

  /** The end of the stream hands out what the bracket scanner holds. */
  function Finish(p: Parser): seq<Event> {
    if p.json.cache == "" then [] else [Blob(p.cur, p.json.cache)]
  }

  function Parse(text: string): seq<Event> {
    var (p, e) := Run(START, text);
    e + Finish(p)
  }
}
