/** The prompt sent to the language model (`get_llm_chain`'s template, filled
    the way the prompt template fills its single `{question}` field) and the
    unused retrieval helper `get_context_from_db`. */
module Prompt {
  import opened Text

  /** The name of the template's only field, written as it appears in the template. */
  const Placeholder: string := "{question}"

  /** The template text of `get_llm_chain` before its field, including the
      indentation the triple-quoted literal carries on its continuation lines.
      It is written in pieces only so that each can be checked on its own;
      together they are the source's text, character for character. */
  const Preamble: string := Intro0 + Intro1 + Intro2 + Intro3 + Intro4 + Intro5
  const Intro0: string := "As an intelligent AI assistant, "
  const Intro1: string := "give the precise answer to the "
  const Intro2: string := "following question. If you don't "
  const Intro3: string := "know the answer, just say that "
  const Intro4: string := "you don't know, don't try to make "
  const Intro5: string := "up an answer.\n\n    Question: ```"

  /** The template text after its field. */
  const Closing: string := "```\n    \n    Answer:"

  /** The template of `get_llm_chain`: the preamble, the single field, the closing text. */
  const Template: string := Preamble + Placeholder + Closing

  /** The preamble's first line, in three parts, holds no `{`. */
  lemma NoFieldInIntroHead()
    ensures '{' !in Intro0 && '{' !in Intro1
  {
    assert '{' !in Intro0;
  }

  lemma NoFieldInIntroMiddle()
    ensures '{' !in Intro2 && '{' !in Intro3
  {
    assert '{' !in Intro2;
  }

  lemma NoFieldInIntroTail()
    ensures '{' !in Intro4 && '{' !in Intro5
  {
    assert '{' !in Intro4;
  }

  /** Neither the preamble nor the closing text can start a field, so the
      template holds exactly one. */
  lemma TemplateHasOneField()
    ensures '{' !in Preamble && '{' !in Closing
  {
    NoFieldInIntroHead();
    NoFieldInIntroMiddle();
    NoFieldInIntroTail();
  }

  /** Every occurrence of `field` in `t` replaced by `value`, scanning left to
      right; the inserted value is not scanned again. */
  function FillSlot(t: string, field: string, value: string): (r: string)
    requires |field| > 0
    ensures field[0] !in t ==> r == t
    decreases |t|
  {
    if |t| == 0 then []
    else if IsPrefix(field, t) then value + FillSlot(t[|field|..], field, value)
    else
      var r := FillSlot(t[1..], field, value);
      assert field[0] !in t ==> field[0] !in t[1..] by {
        forall c | c in t[1..] ensures c in t { }
      }
      assert field[0] !in t ==> [t[0]] + t[1..] == t;
      [t[0]] + r
  }

  /** Text that cannot start the field passes through filling unchanged. */
  lemma {:induction false} FillSlotPassThrough(s: string, rest: string, field: string, value: string)
    requires |field| > 0 && field[0] !in s
    ensures FillSlot(s + rest, field, value) == s + FillSlot(rest, field, value)
    decreases |s|
  {
    if s == [] {
      assert s + rest == rest;
    } else {
      var t := s + rest;
      assert t[0] == s[0] && s[0] != field[0];
      assert !IsPrefix(field, t) by {
        if |field| <= |t| { assert t[..|field|][0] == s[0]; }
      }
      assert t[1..] == s[1..] + rest;
      assert field[0] !in s[1..] by {
        forall c | c in s[1..] ensures c in s { }
      }
      FillSlotPassThrough(s[1..], rest, field, value);
      calc {
        FillSlot(t, field, value);
        [s[0]] + FillSlot(s[1..] + rest, field, value);
        [s[0]] + (s[1..] + FillSlot(rest, field, value));
        { assert [s[0]] + s[1..] == s; }
        s + FillSlot(rest, field, value);
      }
    }
  }

  /** The prompt for `question`: the question placed verbatim between the fixed
      preamble and closing text. Defined for every string, the empty one included. */
  function Render(question: string): (r: string)
    ensures r == Preamble + question + Closing
  {
    TemplateHasOneField();
    FillSlotPassThrough(Preamble, Placeholder + Closing, Placeholder, question);
    assert Preamble + Placeholder + Closing == Preamble + (Placeholder + Closing);
    assert (Placeholder + Closing)[|Placeholder|..] == Closing;
    FillSlotPassThrough(Closing, [], Placeholder, question);
    assert Closing + [] == Closing;
    FillSlot(Template, Placeholder, question)
  }

  /** The question can be read back out of the prompt at a fixed offset. */
  lemma RenderHoldsQuestion(question: string)
    ensures Render(question)[|Preamble|..|Render(question)| - |Closing|] == question
  {
    var r := Render(question);
    assert r == Preamble + question + Closing;
    assert r[|Preamble|..|r| - |Closing|] == question;
  }

  /** Different questions give different prompts. */
  lemma RenderInjective(a: string, b: string)
    requires Render(a) == Render(b)
    ensures a == b
  {
    RenderHoldsQuestion(a);
    RenderHoldsQuestion(b);
  }

  /** `get_context_from_db`: the query after the fixed speaker tag "Human: ". */
  function ContextFromDb(query: string): (r: string)
    ensures |r| == |query| + 7 && r[..7] == "Human: " && r[7..] == query
  {
    "Human: " + query
  }

  /** The tagged context is not what reaches the model: the prompt built from the
      raw query differs from the one the tagged text would give. */
  lemma ContextNotInPrompt(query: string)
    ensures Render(query) != Render(ContextFromDb(query))
  {
    if Render(query) == Render(ContextFromDb(query)) {
      RenderInjective(query, ContextFromDb(query));
    }
  }
}
