# Chat-turn handling of the Falcon-7B chatbot demo

This project models the turn handling of `code/chatbot/chatbot_Falcon7B.py`, a
Gradio chat page in front of the `tiiuae/falcon-7b-instruct` model. The model
covers what happens on each turn:

- `user` appends a pending turn `(message, None)` to the transcript and clears the textbox.
- `bot` fills in the reply of the last turn, in place. A message of at most one
  character gets a fixed greeting and no generation.
- `get_answer_bot` renders the prompt template, calls the language model,
  strips the output and, when the stripped text contains "do not know",
  returns the pair `(text, "")` instead of the text.
- `get_context_from_db` tags the query with "Human: ". `clear_history` returns `None`.

The language model is treated as an arbitrary function `generate` from prompt
to completion. It sits in a `LanguageModel` object that records every prompt it
is given, so the contracts can say how many times it is called and on what.

Files and modules:

- `text.dfy`, module `Text`: Python's argument-less `str.strip()` (with
  CPython's whitespace set) and the substring test `sub in s`, each proved
  against an independent description. For `strip`, that description is "the
  unique middle piece between two whitespace runs". For `in`, it is "an
  occurrence at some index".
- `prompt.dfy`, module `Prompt`: the template of `get_llm_chain`, the filling
  of its single `{question}` field, and `get_context_from_db`.
- `chat.dfy`, module `Chat`: the reply slot (`Pending` for `None`, `Plain`
  for a string, `Tagged` for the pair), the turns, `user`, the post-processing
  and `get_answer_bot`, `bot` on an array of turns, `clear_history`, and the
  submit chain of `user` followed by `bot`.

Behaviour of the code worth noting:

- `bot` tests the length of the message as typed. A single space gets the
  greeting. Two spaces go to the model, although they strip to nothing.
- Nothing checks the model's output or catches its failures.
- When the answer contains "do not know", the reply slot holds the pair
  `(text, "")`. The model keeps the pair (`Tagged`).
- The value of `get_context_from_db` is discarded. The raw query reaches the
  chain, not the tagged text.

`user` appends a Python tuple, and `bot` assigns to `history[-1][1]`. That
assignment only works because the chat component hands `bot` its value as lists.
In the model a turn is an immutable `Turn` value. `bot` overwrites the last
element of an array of turns with a copy whose reply slot is filled. The source
instead writes into the inner list of the last entry. Nothing in the program
holds another reference to that inner list, so the two have the same effect.

## Model

| member | source | states |
|---|---|---|
| `Text.StripStart` | code/chatbot/chatbot_Falcon7B.py:117 | the result is a suffix of the input that does not start with whitespace, and everything removed is whitespace |
| `Text.StripEnd` | code/chatbot/chatbot_Falcon7B.py:117 | the result is a prefix of the input that does not end with whitespace, and everything removed is whitespace |
| `Text.StripIsCore` | code/chatbot/chatbot_Falcon7B.py:117 | `strip` returns one contiguous slice `s[i..j]`; all of `s[..i]` and `s[j..]` is whitespace; the slice has no whitespace at either edge |
| `Text.StripUnique` | code/chatbot/chatbot_Falcon7B.py:117 | for any split of a string into whitespace, a middle piece without edge whitespace, and whitespace, `strip` returns exactly that middle piece |
| `Text.AsciiWhitespace` | code/chatbot/chatbot_Falcon7B.py:117 | the whitespace set of `strip` (`Text.IsSpace`, CPython's) contains, among ASCII, exactly space, tab to carriage return and U+001C to U+001F, and no ASCII letter or digit |
| `Text.Strip` | code/chatbot/chatbot_Falcon7B.py:117 | `result.strip()`: the result is no longer than the input and has no whitespace at either edge; StripIsCore, StripUnique, StripIdempotent and StripEmptyIff pin it to "the middle piece between two whitespace runs" |
| `Text.StripIdempotent` | code/chatbot/chatbot_Falcon7B.py:117 | stripping an already stripped text changes nothing |
| `Text.StripEmptyIff` | code/chatbot/chatbot_Falcon7B.py:117 | `strip` gives the empty string exactly when the input is all whitespace |
| `Text.Contains` | code/chatbot/chatbot_Falcon7B.py:119 | `sub in s`: the empty string is in every string, and nothing longer than `s` is in it; ContainsIff proves it equal to "occurs at some index" |
| `Text.OccursAtContains` | code/chatbot/chatbot_Falcon7B.py:119 | an occurrence of `sub` at any index makes `sub in s` true |
| `Text.ContainsIff` | code/chatbot/chatbot_Falcon7B.py:119 | `sub in s` holds if and only if `sub` occurs in `s` at some index |
| `Prompt.TemplateHasOneField` | code/chatbot/chatbot_Falcon7B.py:90-94 | no `{` appears in the template outside its single `{question}` field |
| `Prompt.FillSlot` | code/chatbot/chatbot_Falcon7B.py:96-99 | filling the template's field leaves a text that cannot start the field unchanged; with FillSlotPassThrough and Render it puts the value exactly where the field was |
| `Prompt.FillSlotPassThrough` | code/chatbot/chatbot_Falcon7B.py:96-99 | filling the field leaves text that cannot start the field unchanged, and continues after it |
| `Prompt.Render` | code/chatbot/chatbot_Falcon7B.py:90-99 | the filled template is the fixed preamble, then the question verbatim, then the fixed closing text; this holds for every question, the empty one included |
| `Prompt.RenderHoldsQuestion` | code/chatbot/chatbot_Falcon7B.py:92 | the question is recovered from the prompt at the fixed offset of the field |
| `Prompt.RenderInjective` | code/chatbot/chatbot_Falcon7B.py:90-99 | equal prompts come from equal questions |
| `Prompt.ContextFromDb` | code/chatbot/chatbot_Falcon7B.py:85-86 | the result is "Human: " followed by the query unchanged |
| `Prompt.ContextNotInPrompt` | code/chatbot/chatbot_Falcon7B.py:114-116 | the prompt from the raw query differs from the prompt the tagged context would give |
| `Chat.LanguageModel.Run` | code/chatbot/chatbot_Falcon7B.py:116 | one generation call returns the model's completion of the prompt and appends exactly that prompt to the call log |
| `Chat.User` | code/chatbot/chatbot_Falcon7B.py:77-82 | the textbox becomes ""; the new list is the old turns in order, then one turn `(message, None)` |
| `Chat.Answer` | code/chatbot/chatbot_Falcon7B.py:117-122 | post-processing always yields a string or a pair, never `None` |
| `Chat.AnswerTextIsTrimmed` | code/chatbot/chatbot_Falcon7B.py:116-117 | the answer text is a contiguous slice of the raw output with only whitespace cut away; it has no edge whitespace, and stripping it again changes nothing |
| `Chat.AnswerTaggedIffUnknown` | code/chatbot/chatbot_Falcon7B.py:119-122 | the answer is `(text, "")` exactly when "do not know" occurs in the stripped text; otherwise it is the stripped text alone |
| `Chat.UnknownFoundInside` | code/chatbot/chatbot_Falcon7B.py:119 | "do not know" is detected wherever it sits in a text |
| `Chat.DisclaimerBecomesPair` | code/chatbot/chatbot_Falcon7B.py:117-122 | a padded output whose trimmed text contains "do not know" becomes the pair (trimmed text, ""), e.g. "  I do not know.  " gives ("I do not know.", "") |
| `Chat.AnswerFor` | code/chatbot/chatbot_Falcon7B.py:113-122 | the value of `get_answer_bot` is the bare text or a pair, its text has no edge whitespace, it is a pair exactly when "do not know" occurs in the text, and a pair's second part is "" |
| `Chat.GetAnswerBot` | code/chatbot/chatbot_Falcon7B.py:113-122 | the model is called exactly once, on the template filled with the raw query; the result is that output post-processed |
| `Chat.ReplyFor` | code/chatbot/chatbot_Falcon7B.py:128-133 | the reply `bot` stores is never `None` |
| `Chat.LengthTestIsUntrimmed` | code/chatbot/chatbot_Falcon7B.py:129 | a single space gets the greeting; two spaces, which strip to "", still go to the model |
| `Chat.Answered` | code/chatbot/chatbot_Falcon7B.py:125-135 | answering keeps the length, every earlier turn and the last message; the last reply becomes the greeting or the answer, never `None` |
| `Chat.AnsweredLeavesNothingPending` | code/chatbot/chatbot_Falcon7B.py:125-135 | if only the last turn was pending before, no turn is pending after answering |
| `Chat.Bot` | code/chatbot/chatbot_Falcon7B.py:125-135 | the caller's list is changed in place and returned. Only the last reply slot is written. The model is not called for a message of at most one character, and is called once on the rendered message otherwise |
| `Chat.ClearHistory` | code/chatbot/chatbot_Falcon7B.py:138-139 | the chat value becomes `None`, which displays as an empty chat |
| `Chat.Submit` | code/chatbot/chatbot_Falcon7B.py:154-156 | a submit clears the textbox. The shown chat is the old turns plus the new turn, answered. The model is called as `bot` calls it |

## Left out

- Model loading, tokenizer, quantisation, device placement and the pipeline's sampling settings (lines 23-74): these are calls into transformers and torch.
- Chat.LanguageModel.Run: a `LanguageModel` answers a repeated prompt identically, because `generate` is one fixed function per object. The source's sampling pipeline (`do_sample=True`, `top_k=10`, lines 68-69) need not.
- The generation itself: its output is an arbitrary string. Failures and exceptions of the model are not modelled, because the source does not handle them.
- `ConversationBufferWindowMemory(k=5)` (line 101): its windowing lives inside langchain. A fresh chain, and so a fresh memory, is built on every call, so no history carries between turns.
- `Prompt.FillSlot`: models the template filling as replacing the `{question}` field. Brace escapes and format specifications are not modelled, because the template uses neither.
- The Gradio page layout and event queue (lines 142-163): only the submit chain `user` then `bot` is modelled, as two sequential calls. What the chat component does with `None` after `clear_history` is the framework's; `Chat.Displayed` assumes it shows an empty chat.
- The model's characters are Unicode scalar values, and `len` counts them. Python's `str` may also hold lone surrogates (U+D800 to U+DFFF), which Dafny's `char` excludes.
