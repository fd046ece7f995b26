# Character chat: a verified model of the conversation manager

The system lets a user define named character profiles and chat with a language model that
plays each character. A profile holds a system prompt and example question/answer pairs. This
project models the part of the system with real logic, in Dafny:

- **The profile file** (`Profiles`). The JSON file of profiles is the class `ProfileFile`,
  whose `contents` are missing, malformed or a parsed list. `Load` is `load_profiles`: a
  missing or malformed file reads as the empty list. `SaveProfile` is `save_profile`: it
  drops every entry with the new profile's name and appends the new profile (`Upsert`).
  `FindByName` is the first-match lookup the server uses.
- **The conversation chain** (`Conversation`). `create_conversation_chain` becomes the class
  `Session`. It holds a system prompt, the model, and the message buffer of its memory.
  `CreateConversationChain` builds the prompt template first and raises when the system
  prompt does not build. `Session.Invoke` is `chain_invoke`. It formats the system prompt
  for the input, then sends `[formatted system prompt] ++ buffer ++ [human input]` to the
  model (`PromptMessages`). A formatting error is raised before the model is asked. Only
  after the model returns does it append the input and the reply to the buffer (`Step`).
  `ExecuteSampleQna` sends a profile's example questions through one chain in order and
  keeps one record per pair (`SampleRun`).
- **The prompt template** (`Template`). LangChain reads the system prompt as a Python
  format-string template. `Parse` is Python's format-string parser: `{{` and `}}` stand for
  braces, `{name!conversion:spec}` is a field, and a lone or unclosed brace is a
  `ValueError`. `Build` is what building the template checks: the prompt parses, and no
  field is named `stop`, a variable name LangChain reserves. `Format` formats the parsed
  template the way `string.Formatter` does, with the keyword arguments `history` and
  `input` and no positional arguments. A field whose name is empty, or whose part before the
  first `.` or `[` is all digits, raises `IndexError('tuple index out of range')`. A field naming any other keyword raises
  a `KeyError` for the part of its name before the first `.` or `[`. `{input}` becomes the
  message.
- **The HTTP service** (`Server`). The globals of the Flask application become the class
  `CharacterServer`. `profileChains` maps a character name to its `Session`. Chains are
  created lazily from the first matching profile (`GetChainForProfile`) and dropped by
  `ResetCharacter`. Creating a chain raises, and registers nothing, when the profile's
  prompt does not build. The routes answer with datatypes instead of HTTP responses.
  `ChatOutcome` covers 200, 400, 404 and 500; `ResetOutcome` covers 200 and 404.
  `ChatWithCharacter` is specified by the pure function `Chat`, which works over a view of
  the registry (name to prompt and buffer). The lemmas beside `Chat` state the route's rules.

The language model is the parameter `llm: seq<Turn> -> Result<string, string>`. Its
`Failure` is the exception that `llm.invoke` raises.

## What the code does not do

The model follows the code, which does less than one might expect:

- Nothing injects few-shot examples into the prompt. The `sample_qna` entry that the chat
  route passes to `chain_invoke` is never read (`ChainInput.sampleQna`).
- There is no streaming path and no concurrency control.
- An empty message is not refused. Only a missing body or a missing `"message"` key gives 400.
- The example runner uses the live chain, so its history accumulates. It does not send each
  question on its own.
- An error from the model ends the example run, and the records gathered so far are lost.
- A chain keeps only the system prompt of its profile, not the examples.
- Resetting an unknown name answers 404. It is not a no-op.

## Model

| member | source | states |
|---|---|---|
| `Profiles.LoadedProfiles` | langchain_app.py:63-68 | a parsed file reads as its list; a missing or malformed file reads as the empty list |
| `Profiles.WithoutName` | langchain_app.py:57 | the comprehension's length is the old length minus the number of entries with that name |
| `Profiles.WithoutNameMembers` | langchain_app.py:57 | the comprehension keeps exactly the entries whose name differs |
| `Profiles.Upsert` | langchain_app.py:57-58 | the new list ends with the new profile; its length is old length minus entries with that name plus one; it holds exactly the new profile and the old entries with other names |
| `Profiles.FindByName` | flask_server.py:17 | the lookup finds nothing exactly when no entry has the name; what it finds is a stored entry with that name |
| `Profiles.FindByNameFirst` | flask_server.py:17 | when several entries share a name, the lookup returns the first one |
| `Profiles.Names` | flask_server.py:26 | one name per stored profile, in stored order |
| `Profiles.WithoutNameAppend` | langchain_app.py:57 | dropping by name distributes over concatenation, so kept entries keep their relative order |
| `Profiles.WithoutNameNoneLeft` | langchain_app.py:57 | after the comprehension no entry with the name is left |
| `Profiles.WithoutNameOtherCount` | langchain_app.py:57 | the comprehension keeps every entry of every other name |
| `Profiles.WithoutNameTwice` | langchain_app.py:57 | dropping by a name twice is the same as dropping it once |
| `Profiles.UpsertSingleEntry` | langchain_app.py:57-58 | after a save exactly one entry carries the saved name, and it is the last element |
| `Profiles.UpsertKeepsOthers` | langchain_app.py:57-58 | a save keeps every entry with another name, in its original relative order, ahead of the new profile |
| `Profiles.UpsertFind` | langchain_app.py:57-58 | after a save, a lookup of the saved name finds the new profile, and a lookup of any other name finds what it found before |
| `Profiles.UpsertLastWins` | langchain_app.py:57-58 | saving twice under one name stores what the later save alone would store; re-saving the same profile changes nothing |
| `Profiles.ProfileFile.Load` | langchain_app.py:63-68 | a parsed file yields its list; a missing or malformed file yields the empty list |
| `Profiles.ProfileFile.SaveProfile` | langchain_app.py:45-61 | the file afterwards holds the upsert of the previous list (the empty list when the file was missing or malformed) with the new profile |
| `Template.ParseRoundTrip` | langchain_app.py:23-27 | `Parse` loses nothing: writing the pieces of a template that parses back out, literal braces doubled and each field in its braces, gives the template again |
| `Template.Build` | langchain_app.py:23-27 | a prompt builds exactly when it parses and none of its fields is named `stop`; what it builds is the parse; a parse error is raised as it is, and otherwise the failure is LangChain's `ValueError` for the reserved name |
| `Template.BuildRefusesStop` | langchain_app.py:23-27 | a `{stop}` field parses, but building the template raises LangChain's `ValueError` for the reserved name |
| `Template.BuildPlainText` | langchain_app.py:23-27 | a prompt without braces builds, into one literal per character |
| `Template.RenderPiece` | langchain_app.py:36 | a literal comes out as itself; a field formats only when it looks up `input` or `history`; any other field raises `IndexError('tuple index out of range')` when it is positional and otherwise the `KeyError` for its keyword; a plain `{input}` becomes the message |
| `Template.RenderSucceeds` | langchain_app.py:36 | `Render` succeeds exactly when every piece formats |
| `Template.RenderRaisesFirst` | langchain_app.py:36 | `Render` raises the error of the first piece that raises, whatever follows it |
| `Template.FormatBuilds` | langchain_app.py:23-36 | a prompt that formats for some message also builds, since a `{stop}` field would have raised its `KeyError` |
| `Template.Format` | langchain_app.py:36 | formatting succeeds only for a prompt that parses, so a prompt that cannot be built never reaches the model |
| `Template.ParseAfterEscaped` | langchain_app.py:23-27 | text with doubled braces in front of a prompt parses to one literal per character in front of the prompt's pieces, and parses exactly when the prompt does |
| `Template.RenderLiterals` | langchain_app.py:36 | literal pieces put their characters, and nothing else, in front of the formatted rest |
| `Template.FormatAfterEscaped` | langchain_app.py:36 | text with doubled braces in front of a prompt adds its single-brace form in front of the formatted text, or the same error |
| `Template.FormatEscaped` | langchain_app.py:36 | a prompt whose braces are all doubled is sent with single braces, whatever the message |
| `Template.FormatPlainText` | langchain_app.py:36 | a prompt without braces is sent as written, whatever the message |
| `Template.FormatSubstitutesInput` | langchain_app.py:36 | a plain `{input}` field between brace-free texts is replaced by the message |
| `Template.FormatMissingVariable` | langchain_app.py:36 | a field naming anything but `history` or `input` parses, but every call raises: `IndexError('tuple index out of range')` when the name is empty or its head is digits, otherwise the `KeyError` for its head (so `{.x}` raises `KeyError('')`); unless the field is named `stop`, the prompt builds, so the chain is created and every chat with it answers 500 |
| `Template.ParseLoneOpen` | langchain_app.py:23-27 | a prompt ending in a single `{` cannot be built |
| `Template.ParseLoneClose` | langchain_app.py:23-27 | a single `}` not followed by another `}` makes the prompt impossible to build |
| `Template.ParseUnclosed` | langchain_app.py:23-27 | a `{` that opens a field no `}` closes makes the prompt impossible to build |
| `Conversation.PromptMessages` | langchain_app.py:23-27 | the messages sent are exactly the formatted system prompt, then the buffered history in order, then the human input |
| `Conversation.Step` | langchain_app.py:34-40 | when the system prompt does not format for the input, the call raises that error before the model is asked and the buffer is unchanged; otherwise the reply is the model's answer to the prompt messages; on success the buffer grows by the input as a human message and then the reply as an AI message; on failure the buffer is unchanged |
| `Conversation.StepPlainPrompt` | langchain_app.py:34-37 | a system prompt without braces reaches the model as written |
| `Conversation.StepKeepsAlternating` | langchain_app.py:37-39 | a buffer of alternating human/AI messages stays alternating after a call, whether the call succeeds or raises |
| `Conversation.Session.constructor` | langchain_app.py:29-32 | a new chain keeps the given model and system prompt and starts with an empty buffer |
| `Conversation.Session.Invoke` | langchain_app.py:34-40 | the reply and the new buffer are those of `Step` on the `input` entry alone, so `sample_qna` has no effect; the buffer stays alternating |
| `Conversation.CreateConversationChain` | langchain_app.py:22-43 | a system prompt that does not build (does not parse, or has a field named `stop`) raises its `ValueError` and makes no chain; otherwise a fresh chain with that prompt and model and an empty buffer |
| `Conversation.SampleRun` | langchain_app.py:70-79 | a run only appends to the buffer, whether it completes or stops at an error |
| `Conversation.SampleRunFailureSticks` | langchain_app.py:72-73 | once one question has raised, the rest of the run does not happen |
| `Conversation.SampleRunRecords` | langchain_app.py:72-78 | a completed run returns one record per pair, in order, with question and expected answer copied from the pair |
| `Conversation.ExchangesAt` | langchain_app.py:72-78 | in the buffer a run leaves behind, position 2j holds question j and position 2j+1 holds its generated reply |
| `Conversation.SampleRunBuffer` | langchain_app.py:72-78 | a completed run grows the buffer by two messages per pair, question then reply |
| `Conversation.SampleRunHistory` | langchain_app.py:70-79 | in a completed run each question was sent under the system prompt formatted for it, with the starting buffer and every earlier exchange of the run, and its record holds the model's reply |
| `Conversation.ExecuteSampleQna` | langchain_app.py:70-79 | the records (or the error) and the buffer afterwards are those of `SampleRun` on the chain's prompt, model and starting buffer |
| `Server.Answer` | flask_server.py:38-50 | a missing profile on re-read gives 500 and leaves the chain alone; a model or formatting error gives 500 and leaves the chain alone; a reply echoes character and message, is the model's answer to the formatted prompt, buffer and message, and grows the buffer by that exchange; the prompt never changes |
| `Server.Chat` | flask_server.py:28-50 | a chat changes no other character's entry and registers no other name |
| `Server.ChatRequiresMessage` | flask_server.py:30-32 | a missing body or a missing "message" key gives 400, and only then, before any registry lookup or insertion |
| `Server.ChatUnknownCharacter` | flask_server.py:34-36 | with a message, 404 comes exactly when the name is neither registered nor stored, and the registry is unchanged |
| `Server.ChatTemplateError` | flask_server.py:20 | for an unregistered name with a stored profile, a chain is registered exactly when the profile's prompt builds; otherwise the route answers 500 with the build error and the registry is unchanged |
| `Server.ChatTouchesOnlyItsCharacter` | flask_server.py:14-21 | past validation and lookup the name is registered (unless a new chain's prompt did not build) with the existing chain's prompt or the first matching profile's, and every other entry is unchanged |
| `Server.ChatReplies` | flask_server.py:41-50 | a reply echoes the character and the message; the response is the model's answer to the chain's formatted prompt, buffer and message; the buffer grows by that exchange |
| `Server.ChatErrorKeepsHistory` | flask_server.py:38-44 | a 500 leaves the chain's buffer as it was (empty for a chain created by this request), or the registry unchanged when creating the chain raised |
| `Server.ChatAfterReset` | flask_server.py:52-57 | after a reset, the next chat builds a chain from the current profile: the model sees only that profile's prompt formatted for the message, and the message, and the buffer holds just this exchange |
| `Server.ChatRemembers` | flask_server.py:28-50 | a second chat with the same character sends the first exchange in its prompt and keeps the chain's original prompt, whatever the profile file says by then |
| `Server.CharacterServer.constructor` | flask_server.py:12 | the registry starts empty |
| `Server.CharacterServer.GetChainForProfile` | flask_server.py:14-21 | a registered name returns that same chain and changes nothing; otherwise, with no stored profile of that name, null and no change; with one whose prompt does not build, the build error and no change; otherwise a fresh chain with the first matching profile's prompt and an empty buffer, registered under the name and nowhere else |
| `Server.CharacterServer.ListCharacters` | flask_server.py:23-26 | the stored profile names, in stored order (none when the file is missing or malformed) |
| `Server.CharacterServer.ChatWithCharacter` | flask_server.py:28-50 | the answer and the registry's prompts and buffers afterwards are those of `Chat` on the registry before and the current profile list |
| `Server.CharacterServer.ChatRegistered` | flask_server.py:38-50 | once the registry holds the chain, the answer and the registry's view afterwards are those of `Chat` on the view the request found |
| `Server.CharacterServer.Respond` | flask_server.py:38-50 | the answer and the chain's buffer afterwards are those of `Answer`: 500 when the profile cannot be re-read, otherwise the chain's reply or its error |
| `Server.CharacterServer.ResetCharacter` | flask_server.py:52-57 | a registered name is removed, and only that entry, with a confirmation; an unregistered name gives 404 and leaves the registry unchanged |

## Left out

- The model provider (`init_llm`, Gemini, the API key and the temperature) is the `llm`
  parameter. The model is a function: the same messages always get the same answer.
- `init_llm(streaming=False)` at flask_server.py:8 passes an argument that `init_llm` does not
  accept, so the server module fails at load time. Here the server is simply given its model.
- The file system and JSON are left out. Reading is the three-way `FileContents`, and writing
  replaces it. Failed writes and the file's indentation are not modelled. Neither is parsed
  JSON that is not a list of profile objects. The Python code may iterate such a value as
  empty (`{}`, `""`), carry it through unchanged (`save_profile` copies entries that lack
  keys), or raise on it.
- Flask transport is left out: routing, `jsonify`, `request.json` and `app.run`. A request
  body is either absent or a map from string to string. JSON bodies that are not objects, and
  message values that are not strings, are not modelled. Neither are the answers Flask gives
  before the handler's own check: 415 for a request not sent as JSON, and Flask's 400 for a
  malformed JSON body. The model's missing body is the case where `request.json` is `None`.
- LangChain internals are left out. `ChatPromptTemplate` and `ConversationBufferMemory` appear
  only through their effect: the parsed and formatted system prompt, the prompt message list
  and the two appended messages. The
  chain's exposed `memory` entry is not modelled as separately reachable, since nothing else
  touches it.
- An exception that escapes a route is a `ServerError` outcome, which Flask answers with 500.
  An exception in `execute_sample_qna` is a `Failure` result.
- Concurrency is left out, including the check-then-insert race in `get_chain_for_profile`
  under a threaded server. The model is sequential.
- frontend.py is not part of this model. It covers Streamlit session state, the chain rebuilt
  on every rerun, and the display-only chat history.
- Template.RenderPiece: a field on `history`, or on `input` with the conversion `r` or `a`,
  a format spec, an attribute or an index, is kept as written, whereas Python renders it
  (the message list's text, `repr` of the message, padding, attribute lookup). Only a plain
  `{input}` or `{input!s}` is substituted. An unknown conversion on either raises, as in
  Python. Other errors those fields could raise (a bad format spec, a missing attribute or
  index) are not modelled.
- Template.Build: some LangChain versions also refuse, when the chain is built, a field name
  that contains `.` or `[`. Versions that strip attributes and indexes from variable names
  would refuse `{stop.x}` as well. The model refuses only a field named exactly `stop`.
- Template.RenderPiece: a huge positional index raises Python's `ValueError` about too many
  decimal digits rather than an `IndexError`. Only the ASCII digits count as a position,
  whereas Python also accepts other Unicode decimal digits. Exception texts are the
  messages alone, without the exception class or LangChain's wrapping.
