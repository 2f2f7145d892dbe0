# Mingle translation contract, modelled in Dafny

Mingle is a backend that relays a learner's chat message to a language model and reads the
reply back as a strictly shaped translation response. This project models that contract layer,
which lives in `backend/llm/openai.py`:

* the five record types `MessageDict`, `TranslationResponseInput`,
  `TranslationResponseCorrections`, `TranslationResponseOutput` and `TranslationResponse`. Each
  one's `from_dict` reads a decoded JSON dict under the wire key names, renaming `en-us`, `zh-cn`
  and `zh-pinyin` to `english`, `mandarin` and `pinyin`. Each one's `to_dict` writes the record back
  under its internal field names (module `Schema`, properties in `SchemaProperties`);
* the message list that `chat_with_translation` sends to the model. It holds one system
  instruction, then the caller's history without its `system` entries, then the new user message
  (module `Chat`, properties in `PromptProperties`).

Decoded JSON is the datatype `JsonValue.Json`. Python truthiness (`if corrections:`) and
`dict.get` are modelled in that module. A Python exception becomes an `Err` of `Schema.Error`:

* subscripting something that is not a dict is `NotAnObject`;
* a `KeyError` is `MissingKey(section, key)`;
* a non-`str` field value is `NotAString`;
* completion text that is not JSON is `NotJson`.

The errors follow Python's order of evaluation. A reader fails first when it is not given a dict.
It then fails at the first missing key, in the order the code subscripts the keys. Only after every
key is present is a non-string value rejected. `TranslationResponse.from_dict` reads `corrections`
first, then `input`, then `output`.

The model keeps two behaviours of the code as they are:

* An absent, null or otherwise falsy `corrections` becomes the empty dict `{}`, not None. It is
  modelled as `CorrectionsField.EmptyMapping`.
* `TranslationResponse.to_dict` dereferences `corrections` unconditionally. It therefore requires a
  parsed corrections section.

The system instruction asks the model to leave out `corrections` when the user's Chinese needs no
correction. Such a reply is read with the empty dict as its corrections, and `to_dict` cannot
write it back. The lemma `OmittedCorrectionsNotWritable` states this. The route in
`backend/routers/message.py` writes every response with `to_dict`. A record library that
validates the `{}` against the corrections type may reject the reply even earlier. That library
is not part of this model.

Because `to_dict` writes internal names, a written section cannot be read back. The lemmas
`InputNotReread`, `CorrectionsNotReread`, `OutputNotReread` and `ResponseNotReread` name the key at
which each read fails. Only `MessageDict` round-trips.

## Model

| member | source | states |
|---|---|---|
| JsonValue.Truthy | backend/llm/openai.py:135 | the `if corrections` test: None is false, and a string, list or dict is true exactly when it is non-empty |
| JsonValue.Get | backend/llm/openai.py:134 | `dict.get`: the value under a present key, None for an absent one |
| Schema.FirstMissing | backend/llm/openai.py:76-79 | the key reported missing is absent and every key the code subscripts before it is present; none is reported exactly when all keys are present |
| Schema.CheckSection | backend/llm/openai.py:75-80 | reading fails exactly when the value is not a dict holding a string under every required key; a non-dict fails first, then the first missing key in subscript order |
| Schema.Message.FromDict | backend/llm/openai.py:51-55 | succeeds exactly when `role` and `content` are present strings and takes each field from its key; a missing `role` is reported before a missing `content` |
| Schema.Message.ToDict | backend/llm/openai.py:56-60 | writes exactly the keys `role` and `content`, carrying the message's values |
| Schema.Input.FromDict | backend/llm/openai.py:74-80 | succeeds exactly when `raw`, `en-us`, `zh-cn` and `zh-pinyin` are present strings; `raw`, `english`, `mandarin` and `pinyin` come from those keys in turn; otherwise it fails at the first missing key |
| Schema.Input.ToDict | backend/llm/openai.py:81-87 | writes exactly the internal names `raw`, `english`, `mandarin` and `pinyin` |
| Schema.Corrections.FromDict | backend/llm/openai.py:95-101 | succeeds exactly when `critiques`, `reasoning`, `zh-cn` and `zh-pinyin` are present strings and takes each field from its key; otherwise it fails at the first missing key |
| Schema.Corrections.ToDict | backend/llm/openai.py:102-108 | writes exactly `critiques`, `reasoning`, `mandarin` and `pinyin` |
| Schema.Output.FromDict | backend/llm/openai.py:115-120 | succeeds exactly when `en-us`, `zh-cn` and `zh-pinyin` are present strings and takes `english`, `mandarin` and `pinyin` from them; otherwise it fails at the first missing key |
| Schema.Output.ToDict | backend/llm/openai.py:121-126 | writes exactly `english`, `mandarin` and `pinyin` |
| Schema.CorrectionsValue | backend/llm/openai.py:134 | `params.get('corrections')`: None when the key is absent, and any other result is the value under the key |
| Schema.Response.FromDict | backend/llm/openai.py:133-140 | succeeds exactly when the reply has the response wire shape; the corrections field is the empty dict exactly when `corrections` is absent or falsy, and is never None |
| Schema.Response.ToDict | backend/llm/openai.py:141-146 | requires a parsed corrections section and writes exactly `input`, `corrections` and `output`, each being that section's `to_dict` |
| SchemaProperties.MessageRoundTrip | backend/llm/openai.py:51-60 | reading a written message gives the same message back |
| SchemaProperties.MessageDictRoundTrip | backend/llm/openai.py:51-60 | writing a message that was read gives exactly `role` and `content`, with the values they were read from |
| SchemaProperties.InputRenames | backend/llm/openai.py:74-87 | after a read and a write, `english`, `mandarin` and `pinyin` carry the values of `en-us`, `zh-cn` and `zh-pinyin`, and `raw` carries `raw` |
| SchemaProperties.CorrectionsRenames | backend/llm/openai.py:95-108 | after a read and a write, `mandarin` and `pinyin` carry `zh-cn` and `zh-pinyin`; `critiques` and `reasoning` are kept |
| SchemaProperties.OutputRenames | backend/llm/openai.py:115-126 | after a read and a write, `english`, `mandarin` and `pinyin` carry `en-us`, `zh-cn` and `zh-pinyin` |
| SchemaProperties.InputNotReread | backend/llm/openai.py:74-87 | a written input section fails to read back, missing `en-us` |
| SchemaProperties.CorrectionsNotReread | backend/llm/openai.py:95-108 | a written corrections section fails to read back, missing `zh-cn` |
| SchemaProperties.OutputNotReread | backend/llm/openai.py:115-126 | a written output section fails to read back, missing `en-us` |
| SchemaProperties.ResponseNotReread | backend/llm/openai.py:133-146 | a written response fails to read back, at `zh-cn` of its corrections section |
| SchemaProperties.ResponseReadsWireKeys | backend/llm/openai.py:133-140 | a reply with the response wire shape is read successfully, and every field of its input and output sections equals the string under its one wire key |
| SchemaProperties.ResponseReadsCorrectionsKeys | backend/llm/openai.py:134-135 | when such a reply has truthy corrections, the result holds a parsed section whose every field equals the string under its one wire key |
| SchemaProperties.ResponseSections | backend/llm/openai.py:133-140 | a reply with the response wire shape is read section by section, and each section is its reader's result on the value under its key |
| SchemaProperties.MissingKeyFails | backend/llm/openai.py:133-140 | a missing `input` or `output`, or a missing key in a section that is read, makes the read fail: no default is produced |
| SchemaProperties.MissingSectionReported | backend/llm/openai.py:137-139 | with acceptable corrections, a missing `input` (or, after a good `input`, a missing `output`) is reported as that top-level key |
| SchemaProperties.MissingFieldReported | backend/llm/openai.py:137-139 | with acceptable corrections, an `input` dict that lacks a wire key fails naming `input` and its first missing key in subscript order; after a good `input`, the same holds for `output` |
| SchemaProperties.OmittedCorrectionsNotWritable | backend/llm/openai.py:18 | a reply without a `corrections` key, as the system instruction asks for when no correction is needed, is read successfully, but its corrections field is not a parsed section, so `to_dict` cannot write it |
| SchemaProperties.NoCorrectionsGivesEmptyMapping | backend/llm/openai.py:134-135 | an absent or falsy `corrections` yields the empty dict, not a parsed section |
| SchemaProperties.PresentCorrectionsParsed | backend/llm/openai.py:134-135 | a truthy `corrections` is parsed by the corrections reader |
| Chat.NonSystem | backend/llm/openai.py:153 | keeps only non-system entries, keeps every non-system entry, and never grows the history |
| Chat.ToDicts | backend/llm/openai.py:153 | the `h.to_dict()` of each message, one dict per message, each reading back as that message |
| Chat.Prompt | backend/llm/openai.py:152-154 | the list has 2 more entries than the kept history; every entry is a well-formed message dict; the first reads back as the system instruction, the last as the user's message, and no later entry has role `system` |
| Chat.BuildMessages | backend/llm/openai.py:152-154 | the list built step by step is the system entry, then the kept history's dicts, then the user entry |
| Chat.ChatWithTranslation | backend/llm/openai.py:151-160 | the result is the reading of the provider's reply to the built prompt, or `NotJson`; it succeeds exactly when the reply is JSON with the response wire shape |
| Chat.NonSystemAppend | backend/llm/openai.py:153 | filtering distributes over concatenation, so the kept entries stay in their original order |
| Chat.KeptStep | backend/llm/openai.py:153 | one more history entry adds its dict to the kept list unless its role is `system` |
| Chat.ToDictsAppend | backend/llm/openai.py:153 | writing each message distributes over concatenation |
| PromptProperties.CountRoleAppend | backend/llm/openai.py:152-154 | role counts add up over concatenation |
| PromptProperties.EntryRole | backend/llm/openai.py:56-60 | a written message has role `r` exactly when the message's role is `r` |
| PromptProperties.KeptHistoryHasNoSystemEntry | backend/llm/openai.py:153 | no kept history entry has role `system` |
| PromptProperties.KeptHistoryLength | backend/llm/openai.py:153 | the kept history is as long as the history minus its `system` entries |
| PromptProperties.CleanHistoryKept | backend/llm/openai.py:153 | a history with no `system` entry is passed on whole |
| PromptProperties.NonSystemSnoc | backend/llm/openai.py:153 | one more entry at the end of the history is kept at the end unless its role is `system` |
| PromptProperties.SelectsExtend | backend/llm/openai.py:153 | a selection of kept positions extends by the new entry's position exactly when that entry is kept |
| PromptProperties.NonSystemKeepsOrder | backend/llm/openai.py:153 | there are strictly increasing positions in the history carrying the kept entries one by one, covering every non-system position: each non-system entry is kept once, in its original order |
| PromptProperties.PromptShape | backend/llm/openai.py:152-154 | the list starts with `{'role':'system','content':prompt}`, ends with `{'role':'user','content':new_message}`, and holds exactly the kept history in between |
| PromptProperties.ExactlyOneSystemEntry | backend/llm/openai.py:152-154 | the list has exactly one `system` entry, however many the history had |
| PromptProperties.PromptLength | backend/llm/openai.py:152-154 | the list has 2 more entries than the history has non-system entries |

## Left out

- The OpenAI client and the completion call (backend/llm/openai.py:8, 155-159): foreign network code. Together with `json.loads` (line 160), it is the parameter `complete` of `Chat.ChatWithTranslation`. That parameter yields the decoded reply, or None when the text is not JSON. Provider errors are not modelled.
- The text of `SYSTEM_PROMPT` (backend/llm/openai.py:9-42) is a string parameter. The model ID and API key from `env` are not modelled.
- Record-library validation and coercion: fields are plain strings. A non-string value is modelled as a rejection (`NotAString`), without any coercion. What the library does with the `{}` passed at backend/llm/openai.py:135 is not modelled; the model keeps it as `EmptyMapping`.
- `TranslationRequest` validation is library behaviour at the HTTP boundary and is not modelled. `Chat.Request` simply holds the new message and the history.
- Nothing in the code checks that `input.raw` equals the request's `new_message`, and the model does not check it either.
- JSON numbers are reals, and only their truthiness is used. Duplicate keys in the completion text are not modelled because `json.loads` has already resolved them.
- backend/main.py (application wiring, server start-up, and an uptime endpoint on wall-clock time and float seconds) and backend/routers/message.py (HTTP routing and `json.dumps` of `to_dict`) are plumbing and are not part of this model.
