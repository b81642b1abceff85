/** The chat-turn handlers of the Falcon-7B demo: `user` appends a pending turn,
    `bot` answers the last turn in place, `get_answer_bot` asks the language
    model and cleans up its output, `clear_history` empties the chat. */
module Chat {
  import opened Text
  import opened Prompt

  /** The fixed reply to a message of at most one character. */
  const Greeting: string := "Hi I'm AI assistant! Here to help you. Could you please elaborate more?"

  /** The phrase whose presence in an answer makes `get_answer_bot` return a pair. */
  const Unknown: string := "do not know"

  /** What the reply slot of a turn holds: nothing yet (Python `None`), a
      string, or the pair `(text, aside)` that `get_answer_bot` returns when the
      model says it does not know. */
  datatype Reply = Pending | Plain(text: string) | Tagged(text: string, aside: string)

  /** One entry of the chat transcript: the user's message and the reply slot. */
  datatype Turn = Turn(message: string, reply: Reply)

  /** The text generator behind the chain. Its output is an arbitrary but fixed
      function of the prompt, so a repeated prompt gets the same completion;
      every prompt handed to it is recorded, in order. */
  class LanguageModel {
    const generate: string -> string
    var prompts: seq<string>

    constructor (generate: string -> string)
      ensures this.generate == generate && prompts == []
    {
      this.generate := generate;
      prompts := [];
    }

    /** One generation call. */
    method Run(prompt: string) returns (completion: string)
      modifies this`prompts
      ensures completion == generate(prompt)
      ensures prompts == old(prompts) + [prompt]
    {
      completion := generate(prompt);
      prompts := prompts + [prompt];
    }
  }

  /** `user`: the textbox is cleared and a new list is built, the old turns
      followed by one pending turn for the message; the input list is left as it was. */
  function User(message: string, history: seq<Turn>): (r: (string, seq<Turn>))
    ensures r.0 == ""
    ensures |r.1| == |history| + 1 && r.1[..|history|] == history
    ensures r.1[|history|] == Turn(message, Pending)
  {
    ("", history + [Turn(message, Pending)])
  }

  /** The post-processing in `get_answer_bot` of the model's raw output: the
      stripped text, paired with an empty string when it contains "do not know". */
  function Answer(raw: string): (r: Reply)
    ensures r.Plain? || r.Tagged?
  {
    var text := Strip(raw);
    if Contains(text, Unknown) then Tagged(text, "") else Plain(text)
  }

  /** The text of an answer is the model's output without its surrounding
      whitespace: one contiguous piece of the output, all of whose cut-off
      characters are whitespace, with no whitespace at its own edges, so that
      stripping it again changes nothing. */
  lemma AnswerTextIsTrimmed(raw: string)
    ensures NoEdgeSpace(Answer(raw).text)
    ensures Strip(Answer(raw).text) == Answer(raw).text
    ensures exists i, j :: (0 <= i <= j <= |raw| && Answer(raw).text == raw[i..j] &&
      AllSpace(raw[..i]) && AllSpace(raw[j..]))
  {
    StripIdempotent(raw);
    var i, j := StripIsCore(raw);
  }

  /** The answer is the pair `(text, "")` exactly when "do not know" occurs
      somewhere in the stripped text, and the bare text otherwise. */
  lemma AnswerTaggedIffUnknown(raw: string)
    ensures Answer(raw).Tagged? <==> exists i :: OccursAt(Strip(raw), Unknown, i)
    ensures Answer(raw).Tagged? ==> Answer(raw) == Tagged(Strip(raw), "")
    ensures Answer(raw).Plain? ==> Answer(raw) == Plain(Strip(raw))
  {
    ContainsIff(Strip(raw), Unknown);
  }

  /** The phrase is found wherever it sits inside a longer text. */
  lemma UnknownFoundInside(before: string, after: string)
    ensures Contains(before + Unknown + after, Unknown)
  {
    var s := before + Unknown + after;
    assert s[|before|..|before| + |Unknown|] == Unknown;
    OccursAtContains(s, Unknown, |before|);
  }

  /** Whatever whitespace surrounds it, an output whose trimmed text contains
      "do not know" (for instance "  I do not know.  ") becomes the pair of that
      text and the empty string, not the bare text. */
  lemma DisclaimerBecomesPair(a: string, before: string, after: string, b: string)
    requires AllSpace(a) && AllSpace(b) && NoEdgeSpace(before + Unknown + after)
    ensures Answer(a + before + Unknown + after + b) == Tagged(before + Unknown + after, "")
  {
    var m := before + Unknown + after;
    assert a + before + Unknown + after + b == a + m + b;
    StripUnique(a, m, b);
    UnknownFoundInside(before, after);
  }

  /** What `get_answer_bot(query)` returns, for a model that answers `prompt`
      with `generate(prompt)`. The tagged context of `get_context_from_db` is
      computed by the source and never used, so it does not appear here. */
  function AnswerFor(generate: string -> string, query: string): (r: Reply)
    ensures r.Plain? || r.Tagged?
    ensures NoEdgeSpace(r.text)
    ensures r.Tagged? <==> exists i :: OccursAt(r.text, Unknown, i)
    ensures r.Tagged? ==> r.aside == ""
  {
    var raw := generate(Render(query));
    AnswerTaggedIffUnknown(raw);
    Answer(raw)
  }

  /** `get_answer_bot`: the model is called exactly once, on the prompt rendered
      from the raw query, and its output is post-processed. */
  method GetAnswerBot(query: string, llm: LanguageModel) returns (r: Reply)
    modifies llm`prompts
    ensures r == AnswerFor(llm.generate, query)
    ensures llm.prompts == old(llm.prompts) + [Render(query)]
  {
    var content := ContextFromDb(query);
    var raw := llm.Run(Render(query));
    r := Answer(raw);
  }

  /** The reply `bot` stores for `message`: the greeting when the message, as
      typed and not stripped, is at most one character long; otherwise the
      answer of `get_answer_bot`. */
  function ReplyFor(generate: string -> string, message: string): (r: Reply)
    ensures r != Pending
  {
    if |message| <= 1 then Plain(Greeting) else AnswerFor(generate, message)
  }

  /** The length test is on the message as typed: a lone space gets the
      greeting, while two spaces, which strip to nothing, go to the model. */
  lemma LengthTestIsUntrimmed(generate: string -> string)
    ensures ReplyFor(generate, " ") == Plain(Greeting)
    ensures ReplyFor(generate, "  ") == AnswerFor(generate, "  ")
    ensures Strip("  ") == []
  {
    StripEmptyIff("  ");
  }

  /** The transcript once `bot` has answered its last turn: same length, every
      earlier turn and the last message unchanged, and the last reply slot filled. */
  function Answered(turns: seq<Turn>, generate: string -> string): (r: seq<Turn>)
    requires |turns| > 0
    ensures |r| == |turns| && r[..|r| - 1] == turns[..|turns| - 1]
    ensures r[|r| - 1].message == turns[|turns| - 1].message
    ensures r[|r| - 1].reply == ReplyFor(generate, turns[|turns| - 1].message)
    ensures r[|r| - 1].reply != Pending
  {
    var last := turns[|turns| - 1];
    turns[..|turns| - 1] + [Turn(last.message, ReplyFor(generate, last.message))]
  }

  /** Answering keeps the one-pending-turn discipline: when only the last turn
      was pending, no turn is pending afterwards. */
  lemma AnsweredLeavesNothingPending(turns: seq<Turn>, generate: string -> string)
    requires |turns| > 0
    requires forall i :: 0 <= i < |turns| - 1 ==> turns[i].reply != Pending
    ensures forall i :: 0 <= i < |turns| ==> Answered(turns, generate)[i].reply != Pending
  {
    var r := Answered(turns, generate);
    forall i | 0 <= i < |turns| ensures r[i].reply != Pending {
      if i < |turns| - 1 {
        assert r[i] == r[..|r| - 1][i] == turns[..|turns| - 1][i];
      }
    }
  }

  /** `bot`: writes the reply of the last turn in place and returns the same
      list. The model is consulted once, on the rendered message, when the
      message is longer than one character, and not at all otherwise. */
  method Bot(history: array<Turn>, llm: LanguageModel) returns (h: array<Turn>)
    requires history.Length > 0
    modifies history, llm`prompts
    ensures h == history
    ensures history[..] == Answered(old(history[..]), llm.generate)
    ensures var q := old(history[history.Length - 1].message);
      llm.prompts == old(llm.prompts) + (if |q| <= 1 then [] else [Render(q)])
  {
    var n := history.Length;
    var query := history[n - 1].message;
    if |query| <= 1 {
      history[n - 1] := Turn(query, Plain(Greeting));
    } else {
      var result := GetAnswerBot(query, llm);
      history[n - 1] := Turn(query, result);
    }
    assert history[..] == old(history[..])[..n - 1] + [history[n - 1]];
    h := history;
  }

  /** The chat component's value: `None` or a list of turns. */
  datatype ChatValue = Cleared | Shown(turns: seq<Turn>)

  /** The turns a chat value displays; `None` displays as an empty chat. */
  function Displayed(v: ChatValue): seq<Turn> {
    match v
    case Cleared => []
    case Shown(turns) => turns
  }

  /** `clear_history`: the chat component is set to `None`. */
  function ClearHistory(): (v: ChatValue)
    ensures Displayed(v) == []
  {
    Cleared
  }

  /** The submit handler: `user` on the typed message and the current chat, then
      `bot` on the list `user` returned. */
  method Submit(message: string, chat: seq<Turn>, llm: LanguageModel)
    returns (textbox: string, shown: seq<Turn>)
    modifies llm`prompts
    ensures textbox == ""
    ensures shown == Answered(chat + [Turn(message, Pending)], llm.generate)
    ensures llm.prompts == old(llm.prompts) + (if |message| <= 1 then [] else [Render(message)])
  {
    var pending;
    textbox, pending := User(message, chat).0, User(message, chat).1;
    var a := new Turn[|pending|](i requires 0 <= i < |pending| => pending[i]);
    assert a[..] == pending;
    a := Bot(a, llm);
    shown := a[..];
  }
}
