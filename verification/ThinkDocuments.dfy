/** What stripping leaves of a text of properly nested think blocks. */
module ThinkDocuments {
  import opened ThinkTags

  /** Text and think blocks in a row; a block holds the same again. */
  datatype Doc = Empty | Words(text: string, rest: Doc) | Block(inner: Doc, rest: Doc)

  /** The words have no character that could begin a tag. */
  predicate Tagless(d: Doc) {
    match d
    case Empty => true
    case Words(text, rest) => '<' !in text && Tagless(rest)
    case Block(inner, rest) => Tagless(inner) && Tagless(rest)
  }

  function Render(d: Doc): string {
    match d
    case Empty => ""
    case Words(text, rest) => text + Render(rest)
    case Block(inner, rest) => "<think>" + Render(inner) + "</think>" + Render(rest)
  }

  /** The words outside every block. */
  function Outside(d: Doc): string {
    match d
    case Empty => ""
    case Words(text, rest) => text + Outside(rest)
    case Block(_, rest) => Outside(rest)
  }

  lemma {:induction false} WordsAreSkipped(text: string, tail: string, depth: nat)
    requires '<' !in text && depth > 0
    ensures Strip(text + tail, depth) == Strip(tail, depth)
    decreases |text|
  {
    if text == "" {
      assert text + tail == tail;
    } else {
      assert (text + tail)[0] == text[0] && (text + tail)[1..] == text[1..] + tail;
      WordsAreSkipped(text[1..], tail, depth);
    }
  }

  lemma OpeningIsTaken(tail: string, depth: nat)
    ensures Strip("<think>" + tail, depth) == Strip(tail, depth + 1)
  {
    assert ("<think>" + tail)[|THINK_START|..] == tail;
  }

  lemma ClosingIsTaken(tail: string, depth: nat)
    requires depth > 0
    ensures Strip("</think>" + tail, depth) == Strip(tail, depth - 1)
  {
    var s := "</think>" + tail;
    assert s[|THINK_END|..] == tail && s[1] == '/';
  }

  /** `rendered` is stripped to `out` outside every block and to nothing inside, whatever follows it. */
  ghost predicate StrippedTo(rendered: string, out: string) {
    forall tail: string, depth: nat ::
      Strip(rendered + tail, depth) == (if depth == 0 then out else "") + Strip(tail, depth)
  }

  lemma WordsInFront(text: string, rendered: string, out: string)
    requires '<' !in text && StrippedTo(rendered, out)
    ensures StrippedTo(text + rendered, text + out)
  {
    forall tail: string, depth: nat
      ensures Strip(text + rendered + tail, depth) == (if depth == 0 then text + out else "") + Strip(tail, depth)
    {
      assert text + rendered + tail == text + (rendered + tail);
      hide Strip;
      if depth == 0 {
        StripPlain(text, rendered + tail);
        assert text + out + Strip(tail, 0) == text + (out + Strip(tail, 0));
      } else {
        WordsAreSkipped(text, rendered + tail, depth);
      }
    }
  }

  lemma Regroup(a: string, b: string, c: string, d: string, e: string)
    ensures a + b + c + d + e == a + (b + (c + (d + e)))
  {
  }

  lemma BlockInFront(inner: string, hidden: string, rendered: string, out: string)
    requires StrippedTo(inner, hidden) && StrippedTo(rendered, out)
    ensures StrippedTo("<think>" + inner + "</think>" + rendered, out)
  {
    forall tail: string, depth: nat
      ensures Strip("<think>" + inner + "</think>" + rendered + tail, depth)
           == (if depth == 0 then out else "") + Strip(tail, depth)
    {
      hide Strip;
      var behind := rendered + tail;
      Regroup("<think>", inner, "</think>", rendered, tail);
      OpeningIsTaken(inner + ("</think>" + behind), depth);
      ClosingIsTaken(behind, depth + 1);
      assert Strip(inner + ("</think>" + behind), depth + 1) == "" + Strip("</think>" + behind, depth + 1);
    }
  }

  lemma NothingInFront()
    ensures StrippedTo("", "")
  {
    forall tail: string, depth: nat ensures Strip("" + tail, depth) == "" + Strip(tail, depth) {
      assert "" + tail == tail;
    }
  }

  /** With any number of blocks open and whatever follows, the blocks go with all they hold, and outside every block the
      words stay. */
  lemma {:induction false} BlocksAreStripped(d: Doc)
    requires Tagless(d)
    ensures StrippedTo(Render(d), Outside(d))
    decreases d
  {
    hide StrippedTo;
    match d
    case Empty => NothingInFront();
    case Words(text, rest) =>
      BlocksAreStripped(rest);
      WordsInFront(text, Render(rest), Outside(rest));
    case Block(inner, rest) =>
      BlocksAreStripped(inner);
      BlocksAreStripped(rest);
      BlockInFront(Render(inner), Outside(inner), Render(rest), Outside(rest));
  }

  lemma StripOfNothing(d: nat)
    ensures Strip("", d) == ""
  {
  }

  /** A text of nested blocks is stripped to the words outside them; a block that is never closed hides all behind it,
      and a closing tag outside every block stays. */
  lemma NestedBlocksAreStripped(d: Doc)
    requires Tagless(d)
    ensures Strip(Render(d), 0) == Outside(d)
    ensures Strip("<think>" + Render(d), 0) == ""
    ensures Strip("</think>" + Render(d), 0) == "</think>" + Outside(d)
  {
    assert Render(d) + "" == Render(d) && Outside(d) + "" == Outside(d);
    StripOfNothing(0);
    StripOfNothing(1);
    OpeningIsTaken(Render(d), 0);
    StripEndOutside("</think>" + Render(d));
    assert ("</think>" + Render(d))[|THINK_END|..] == Render(d);
    hide Strip;
    BlocksAreStripped(d);
    assert Strip(Render(d) + "", 0) == Outside(d) + Strip("", 0);
    assert Strip(Render(d) + "", 1) == "" + Strip("", 1);
  }
}
