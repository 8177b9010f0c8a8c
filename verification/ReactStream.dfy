/** The streaming ReAct parser as a whole: JSON extraction at machine level, and the pipeline from
    chunks to events. */
module ReactStream {
  import opened Common
  import opened ReactMachine
  import opened ReactConservation
  import opened JsonText
  import T = ThinkTags

  // ----- blobs ------------------------------------------------------------------------------------------

  /** Inside a blob the machine does what the bracket scanner does, and hands out nothing. */
  lemma {:induction false} RunInBlob(p: Parser, s: string, j: Json)
    requires p.inJson && !p.gotJson && p.json.stack != "" && s != ""
    requires JsonText.Scan(p.json, s) == (j, "") && j.stack == ""
    ensures Run(p, s) == (p.(inJson := false, gotJson := true, json := j, last := [s[|s|-1]]), [])
    decreases |s|
  {
    var k := JsonStep(p.json, s[0]);
    var q := Feed(p, s[0]).0;
    assert Feed(p, s[0]) == Rest(p, s[0]);
    if s[1..] == "" {
      assert k == j;
      assert Run(q, s[1..]) == (q, []);
    } else if k.stack != "" {
      RunInBlob(q, s[1..], j);
    }
    RunStep(p, s);
  }

  /** Outside a blob no prefix matcher takes a character that cannot start or continue a prefix. */
  lemma NotConsumed(p: Parser, c: char)
    requires Valid(p) && !p.inJson
    requires Opens(c) || (Residue(p) == "" && LowerChar(c) != 'a' && LowerChar(c) != 'f' && LowerChar(c) != 't')
    ensures !Consumes(p, c)
    ensures Feed(p, c).0 == Rest(Cleared(p, Feed(p, c).0.last), c).0
    ensures Feed(p, c).1 == Flush(p.cur, Residue(p)) + Rest(Cleared(p, Feed(p, c).0.last), c).1
  {
    MatchersAgree(p, c);
    PassForm(p, c);
  }

  /** Exact extraction: wherever the machine is outside a blob, a whole object or array text becomes the
      blob, and only what the prefix matchers held is handed out before it. */
  lemma BlobIsExact(p: Parser, v: Value)
    requires Valid(p) && !p.inJson && !p.gotJson
    requires WellFormed(v) && (v.Arr? || v.Obj?)
    ensures var (q, e) := Run(p, Render(v));
            && Valid(q) && q.gotJson && q.json == Json(Render(v), "", false, false) && q.cur == p.cur
            && e == Flush(p.cur, Residue(p))
  {
    var text := Render(v);
    ScanIsExact(v, "");
    assert text[1..] + "" == text[1..];
    var c := text[0];
    NotConsumed(p, c);
    var q, e := Feed(p, c).0, Feed(p, c).1;
    assert q.inJson && q.json == JsonOpen(c) && e == Flush(p.cur, Residue(p)) + [];
    assert text[1..] != "" by {
      assert Scan(JsonOpen(c), "") == (JsonOpen(c), "");
    }
    RunInBlob(q, text[1..], Json(text, "", false, false));
    RunStep(p, text);
    RunWeight(p, text);
  }

  /** The blob reaches the action parser unchanged: with the next character, or at the end. */
  lemma BlobIsHandedOut(p: Parser, c: char)
    requires Valid(p) && p.gotJson && !Hazard(p, c)
    ensures Feed(p, c).1 == [Blob(p.cur, p.json.cache), Text(p.cur, [c])]
    ensures Finish(p) == [Blob(p.cur, p.json.cache)]
  {
    NotConsumed(p, c);
    var r := Cleared(p, Feed(p, c).0.last);
    assert Rest(r, c).1 == [Blob(p.cur, p.json.cache)] + [Text(p.cur, [c])];
  }

  // ----- chunks ---------------------------------------------------------------------------------------------

  /** The events of a stream of chunks: each chunk is stripped, then fed to the machine. */
  ghost function RunChunks(p: Parser, c: T.Carry, chunks: seq<string>): (Parser, seq<Event>)
    decreases |chunks|
  {
    if chunks == [] then (p, []) else
    var (q, e) := Run(p, T.ChunkOut(c, chunks[0]));
    var (r, f) := RunChunks(q, T.ChunkCarry(c, chunks[0]), chunks[1..]);
    (r, e + f)
  }

  ghost function ParseChunks(chunks: seq<string>): seq<Event> {
    var (p, e) := RunChunks(START, T.Carry(0, ""), chunks);
    e + Finish(p)
  }

  lemma {:induction false} ChunksRunTogether(p: Parser, c: T.Carry, chunks: seq<string>)
    ensures RunChunks(p, c, chunks) == Run(p, T.StripChunks(c, chunks))
    decreases |chunks|
  {
    if chunks != [] {
      var out := T.ChunkOut(c, chunks[0]);
      var next := T.ChunkCarry(c, chunks[0]);
      ChunksRunTogether(Run(p, out).0, next, chunks[1..]);
      RunSplits(p, out, T.StripChunks(next, chunks[1..]));
    }
  }

  /** The events of a stream do not depend on how it was cut into chunks, as long as no cut goes through
      an opening think tag outside a think block. */
  lemma EventsIndependentOfChunking(chunks: seq<string>)
    requires !T.SomeStraddle(T.Carry(0, ""), chunks)
    ensures ParseChunks(chunks) == Parse(T.Strip(T.Concat(chunks), 0))
  {
    T.ChunkingIndependentExactlyWhen(chunks);
    ChunksRunTogether(START, T.Carry(0, ""), chunks);
  }

  /** A text without opening think tags may be cut anywhere, and nothing is stripped from it. */
  lemma TagFreeEvents(chunks: seq<string>)
    requires !T.Occurs(T.THINK_START, T.Concat(chunks))
    ensures ParseChunks(chunks) == Parse(T.Concat(chunks))
  {
    T.TagFreeHasNoStraddle(chunks);
    T.UntaggedChunk(T.Concat(chunks));
    EventsIndependentOfChunking(chunks);
  }
}
