/** Inputs on which the streaming ReAct parser does not hand out what it read. */
module ReactInputs {
  import opened ReactMachine
  import opened ReactConservation

  /** The machine with a closed blob in hand, and with an opened one. */
  const CLOSED := Parser(Thinking, "}", "", "", "", false, true, Json("{}", "", false, false))
  const OPENED := Parser(Thinking, "{", "", "", "", true, false, Json("{", "}", false, false))

  lemma OpeningStep(p: Parser)
    requires p == START || p == CLOSED
    ensures Feed(p, '{').0 == OPENED && Feed(p, '{').1 == []
  {
    assert ['{'] == "{" && ['}'] == "}";
  }

  lemma ClosingStep()
    ensures Feed(OPENED, '}').0 == CLOSED && Feed(OPENED, '}').1 == []
  {
    assert ['}'] == "}" && "{" + "}" == "{}" && "}"[..0] == "";
    assert JsonStep(OPENED.json, '}') == CLOSED.json;
  }

  /** One character, whose step is known. */
  lemma RunOne(p: Parser, c: char, rest: string)
    ensures var (q, e) := Feed(p, c);
            Run(p, [c] + rest).0 == Run(q, rest).0 && Run(p, [c] + rest).1 == e + Run(q, rest).1
  {
    assert ([c] + rest)[1..] == rest;
    RunStep(p, [c] + rest);
  }

  lemma AfterEmptyObject(c: char)
    ensures Run(START, "{}" + [c]).0 == Feed(CLOSED, c).0 && Run(START, "{}" + [c]).1 == Feed(CLOSED, c).1
  {
    hide Feed, Run;
    OpeningStep(START);
    ClosingStep();
    RunOne(START, '{', ['}', c]);
    RunOne(OPENED, '}', [c]);
    RunOne(CLOSED, c, "");
    RunNothing(Feed(CLOSED, c).0);
    assert "{}" + [c] == ['{'] + ['}', c] && ['}', c] == ['}'] + [c] && [c] + "" == [c];
  }

  /** A closed blob followed by an opening bracket is lost. */
  lemma BlobIsOverwritten()
    ensures Parse("{}{") == [Blob(Thinking, "{")]
  {
    AfterEmptyObject('{');
    OpeningStep(CLOSED);
    hide Feed, Run;
    assert "{}" + ['{'] == "{}{";
  }

  lemma OvertakingStep()
    ensures Feed(CLOSED, 'a').0 == CLOSED.(last := "a") && Feed(CLOSED, 'a').1 == [Text(Thinking, "a")]
  {
    assert ['a'] == "a";
  }

  /** A closed blob followed by a letter that may start a prefix is overtaken by it. */
  lemma BlobIsOvertaken()
    ensures Parse("{}a") == [Text(Thinking, "a"), Blob(Thinking, "{}")]
  {
    AfterEmptyObject('a');
    OvertakingStep();
    hide Feed, Run;
    assert "{}" + ['a'] == "{}a";
  }

  lemma PrefixStep()
    ensures Feed(START, 'a').0 == START.(action := "a", last := "a") && Feed(START, 'a').1 == []
  {
    assert ['a'] == "a";
  }

  /** A prefix that the end of the stream cuts off is dropped. */
  lemma PartialPrefixIsDropped()
    ensures Parse("a") == []
  {
    RunOne(START, 'a', "");
    PrefixStep();
    hide Feed, Run;
    RunNothing(START.(action := "a", last := "a"));
    assert ['a'] + "" == "a";
  }
}
