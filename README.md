# shell_gpt turn pipeline, modelled in Dafny

This project models the part of shell_gpt that decides which messages a
turn sends to the completion service and which messages the chat cache
keeps afterwards.

- **Prompt assembly** (`make_prompt.py`, module `Prompt`). A raw prompt and
  a role record become the ordered message list of a turn: the role's
  system message, optionally the role's lead-in examples, and the final
  user message. `{os}`, `{shell}` and `{prompt}` fields are filled from the
  host and the prompt. Messages are built by JSON interpolation.
- **Turn driver** (`handlers/handler.py`, module `Handler`). `handle` sends
  the handler's messages, echoes every streamed fragment and returns their
  concatenation.
- **Chat cache and continuity check** (`handlers/chat_handler.py`, module
  `Chat`). `ChatSession` is a bounded history per chat id, persisted in a
  storage directory. Its wrapper prepends the stored history and commits
  the last `length` messages once the stream is exhausted.
  `ChatHandler.validate` decides between a fresh chat, a continued chat and
  an identity conflict.
- **One-shot handler** (`handlers/default_handler.py`, module `OneShot`).
  It always assembles a fresh turn with lead-in and never touches the
  cache.

Shared pieces:

- **`Common`:** messages, roles, the error kinds (one per exception the
  core raises), and Option/Result in place of exceptions.
- **`Text`:** the parts of Python's string and path library the assembler
  uses: `str.strip`, `os.path.basename`, `os.path.splitext`.

How the world outside the core appears:

- **Host probing.** `platform.system()`, the distribution name, the
  release, the macOS version, and the SHELL and COMSPEC variables are a
  `Host` value. It also records whether `os.path` is `ntpath`.
- **Role store.** A map from role name to role record; a missing name is
  `RoleNotFound`.
- **Storage directory.** The `store` map of a `ChatSession`. Each id maps to
  what its file holds: a JSON list, another JSON value, or text that is not
  JSON.
- **Completion client.** A total function from the request (messages and
  keyword arguments) to a `Stream`. A stream is the fragments it yields,
  optionally followed by the error raised after the last of them. An HTTP
  failure and a consumer that stops early both appear as such an error.

Where the documented behaviour and the code differ, the model follows the
code:

- A chat file whose text is not JSON makes `_read` raise; it is not treated
  as empty.
- An empty chat id names the storage directory itself, so reading, writing
  or removing it raises (`NotARecord`).
- `CHAT_CACHE_LENGTH` is an arbitrary integer, sliced with Python's rules:
  `-0` keeps everything, and a negative length drops elements from the front.

## Model

| member | source | states |
|---|---|---|
| Prompt.RoleName | sgpt/make_prompt.py:35-36 | an absent or empty role name becomes "default"; any other name is kept |
| Prompt.OsName | sgpt/make_prompt.py:11-17 | Linux, Windows and Darwin map to the decorated name with the distribution, release or macOS version; any other platform string is used as it is |
| Prompt.OsNameIsNt | sgpt/make_prompt.py:11-19 | the mapped OS name is "nt" exactly when the platform string is "nt", because every decorated name differs from it |
| Prompt.ShellName | sgpt/make_prompt.py:18-20 | basename of SHELL (default "PowerShell"); on platform "nt", basename of COMSPEC (default "Powershell") without its extension |
| Text.Basename | sgpt/make_prompt.py:18 | the base name is no longer than the path |
| Text.BasenameIsLastComponent | sgpt/make_prompt.py:18 | the base name is a suffix of the path, holds no separator, and is the whole path or follows a separator |
| Text.StripExtension | sgpt/make_prompt.py:20 | the root is no longer than the name |
| Text.StripExtensionIsRoot | sgpt/make_prompt.py:20 | the root is a prefix. When something is removed, it is a last dot, preceded by a non-dot, with everything after it. When nothing is removed, no dot qualifies |
| Prompt.Context | sgpt/make_prompt.py:21-23 | `format` receives os and shell always, and prompt exactly when the prompt is non-empty |
| Prompt.Expand | sgpt/make_prompt.py:22-23 | a failed `format` is always a missing key (fields are keyword fields; positional ones are left out) |
| Prompt.ExpandDefined | sgpt/make_prompt.py:22-23 | expansion succeeds iff every field has a value; a reported key is used by the template and absent from the context |
| Prompt.MessageCompleter | sgpt/make_prompt.py:10-23 | completion errors are missing keys |
| Prompt.MessageCompleterDefined | sgpt/make_prompt.py:10-23 | completion succeeds iff the template uses only os, shell, and prompt with a non-empty prompt; the reported key is one the template uses |
| Prompt.PromptFieldNeedsPrompt | sgpt/make_prompt.py:21-23 | a template with a `{prompt}` field cannot be completed with an empty prompt |
| Text.Strip | sgpt/make_prompt.py:33 | the result is no longer than the input and has no whitespace at either end |
| Text.TrimStartIsSuffix | sgpt/make_prompt.py:33 | stripping the front keeps a suffix |
| Text.TrimEndIsPrefix | sgpt/make_prompt.py:33 | stripping the back keeps a prefix |
| Text.TrimStartDropsSpaces | sgpt/make_prompt.py:33 | everything removed from the front is whitespace |
| Text.TrimEndDropsSpaces | sgpt/make_prompt.py:33 | everything removed from the back is whitespace |
| Text.StripFixpoint | sgpt/make_prompt.py:50 | a text without whitespace at either end is its own strip |
| Text.StripIdempotent | sgpt/make_prompt.py:50 | stripping twice (lines 33 and 50) equals stripping once |
| Prompt.RoleTag | sgpt/make_prompt.py:64-69 | the role tag is JSON-safe and reads back as the same role |
| Prompt.Interpolate | sgpt/make_prompt.py:65-69 | the f-string pastes tag and content unescaped between the object's fixed parts; its length is theirs together (inverted by LoadMessage, see below) |
| Prompt.LoadMessage | sgpt/make_prompt.py:65-69 | the restricted `json.loads` fails only with a malformed-JSON error |
| Prompt.TakeStringSplits | sgpt/make_prompt.py:65 | the string read and the rest together make up the input |
| Prompt.LoadContentIsInterpolated | sgpt/make_prompt.py:65-69 | an accepted text after the role string is the rest of an interpolated message, with a JSON-safe content, and the role string is the role's tag |
| Prompt.TakeStringOf | sgpt/make_prompt.py:65 | a JSON string's characters end at the first quote |
| Prompt.LoadInterpolated | sgpt/make_prompt.py:64-69 | loading the interpolated JSON text gives back the role and the exact content when the content needs no escaping |
| Prompt.LoadMessageIsInterpolated | sgpt/make_prompt.py:65-69 | conversely, every text the loader accepts is the interpolation of the loaded role and a JSON-safe content |
| Prompt.MessageConstructor | sgpt/make_prompt.py:60-69 | error iff no flag is set (ValueError); otherwise the content is the text and system is preferred over user over assistant |
| Prompt.MessageConstructorIsJsonRoundTrip | sgpt/make_prompt.py:60-69 | the direct definition equals formatting the JSON text and loading it |
| Prompt.CompletedLeadIn | sgpt/make_prompt.py:26-29 | a completed lead-in has as many messages as the role's list |
| Prompt.CompletedLeadInDefined | sgpt/make_prompt.py:26-29 | the lead-in completes iff every entry's content completes |
| Prompt.CompletedLeadInElements | sgpt/make_prompt.py:26-29 | each completed entry keeps its role and position and holds its completed content |
| Prompt.CompletedLeadInError | sgpt/make_prompt.py:26-29 | a failed lead-in reports the error of one of its entries |
| Prompt.LeadInFailurePersists | sgpt/make_prompt.py:27-28 | once an entry fails, the whole loop fails with that error |
| Prompt.LeadInStep | sgpt/make_prompt.py:27-28 | one loop step appends the entry's completed message or fails with its error |
| Prompt.CompleteLeadIn | sgpt/make_prompt.py:26-29 | the in-place loop computes the completed lead-in |
| Prompt.FollowingPromptConstructor | sgpt/make_prompt.py:49-57 | a user message whose content is the stripped prompt, or PROMPT_STRUCTURE completed with it; the completion's errors propagate |
| Prompt.UserTextVerbatim | sgpt/make_prompt.py:49-52 | without PROMPT_STRUCTURE the user content is the prompt stripped once |
| Prompt.UserTextStructured | sgpt/make_prompt.py:53-57 | with PROMPT_STRUCTURE the user content is the structure completed with the prompt stripped once |
| Prompt.LeadInPart | sgpt/make_prompt.py:42-44 | the included lead-in has LeadInCount messages |
| Prompt.AssembleFor | sgpt/make_prompt.py:39-45 | a turn for a found role has 2 + lead-in count messages, starts with a system message and ends with a user message |
| Prompt.AssembleForDefined | sgpt/make_prompt.py:39-45 | a found role's turn is built iff its SYSTEM_MESSAGE, every included lead-in entry and its PROMPT_STRUCTURE (with the stripped prompt) can all be completed |
| Prompt.AssembleForError | sgpt/make_prompt.py:39-45 | a found role's turn fails only with the KeyError of a field one of those templates uses |
| Prompt.Assemble | sgpt/make_prompt.py:32-46 | an unknown role is RoleNotFound; otherwise the same shape as above |
| Prompt.AssembleDefined | sgpt/make_prompt.py:32-46 | `prompt_constructor` succeeds iff the role exists and all its completed templates have their fields; every error is RoleNotFound or the KeyError of a field one of them uses |
| Prompt.ExtendLeadIn | sgpt/make_prompt.py:42-44 | `extend` appends exactly the included completed lead-in, or fails with its error |
| Prompt.PromptConstructor | sgpt/make_prompt.py:32-46 | the step-by-step construction computes Assemble |
| Prompt.AssembleForParts | sgpt/make_prompt.py:39-45 | the first message holds the completed SYSTEM_MESSAGE, the middle is the lead-in part, the last is the user message |
| Prompt.AssembleLayout | sgpt/make_prompt.py:39-45 | the same layout for `prompt_constructor`, with the user text as stripped prompt or completed structure |
| Prompt.LeadInPlacement | sgpt/make_prompt.py:42-44 | lead-in messages follow the system message in the role's order, with roles unchanged and contents completed |
| Prompt.ChatInitWithoutLeadIn | sgpt/make_prompt.py:42-45 | without lead-in entries, `chat_init` makes no difference |
| Prompt.DropLeadInFor | sgpt/make_prompt.py:42-45 | for a role record, the `chat_init=False` turn is the `True` turn with the lead-in removed |
| Prompt.AddLeadInFor | sgpt/make_prompt.py:42-45 | for a role record, the `True` turn is the `False` turn with the completed lead-in inserted after the system message |
| Prompt.ChatInitDropsLeadIn | sgpt/make_prompt.py:42-45 | both directions above, for `prompt_constructor` |
| Prompt.SingleSystemMessageFor | sgpt/make_prompt.py:41-45 | when no included lead-in entry is a system message, no message after the first is one |
| Prompt.SingleSystemMessage | sgpt/make_prompt.py:41-45 | the first message is the only system message, under the same condition |
| Prompt.SystemMessageStable | sgpt/make_prompt.py:39-41 | the system message depends on neither the prompt nor `chat_init` |
| Prompt.EmptyPromptRejected | sgpt/make_prompt.py:50-54 | a role whose PROMPT_STRUCTURE uses `{prompt}` fails for a prompt that strips to "" |
| Handler.Concat | sgpt/handlers/handler.py:34-37 | the completion starts with the first fragment, and no fragments give "" |
| Handler.ConcatAppend | sgpt/handlers/handler.py:37 | `full_completion += word` keeps the accumulator equal to the concatenation so far |
| Handler.ConcatSplit | sgpt/handlers/handler.py:35-37 | concatenation distributes over splitting the fragment sequence |
| Handler.BaseGetMessages | sgpt/handlers/handler.py:12-14 | the base `get_messages` always raises NotImplementedError |
| Handler.GetCompletion | sgpt/handlers/handler.py:16-30 | messages and keyword arguments reach the client unchanged; its stream is passed on unchanged |
| Handler.Drain | sgpt/handlers/handler.py:34-39 | the echo trace is the fragment sequence; the result is their concatenation, or the stream's error |
| Handler.Handle | sgpt/handlers/handler.py:32-39 | `get_messages` once: on error nothing is sent or echoed; otherwise exactly that list is sent, every fragment echoed in order, and their concatenation returned |
| Chat.SliceStart | sgpt/handlers/chat_handler.py:70 | the start index of `s[-n:]` is within the list |
| Chat.KeepLast | sgpt/handlers/chat_handler.py:70 | `messages[-length:]` never grows the list |
| Chat.KeepLastIsSuffix | sgpt/handlers/chat_handler.py:70 | the kept messages are the most recent ones, in order |
| Chat.KeepLastPositive | sgpt/handlers/chat_handler.py:70 | for length ≥ 1, exactly min(length, size) messages are kept |
| Chat.KeepLastZero | sgpt/handlers/chat_handler.py:70 | length 0 keeps the whole list |
| Chat.KeepLastNegative | sgpt/handlers/chat_handler.py:70 | a negative length drops the first -length messages |
| Chat.KeepLastUnpinsFirst | sgpt/handlers/chat_handler.py:70 | past the bound, element 0 is dropped; the result is the same with or without it |
| Chat.Committed | sgpt/handlers/chat_handler.py:56-57 | the committed record (history, the turn's messages, the answer, cut by `_write` at line 70) is never longer than their total |
| Chat.CommittedEndsWithAnswer | sgpt/handlers/chat_handler.py:56-57 | a committed record ends with the assistant's answer and holds at most `length` messages (all of them for 0) |
| Chat.ChatSession.constructor | sgpt/handlers/chat_handler.py:24-32 | a session over a directory's existing records with the given length |
| Chat.ChatSession.Read | sgpt/handlers/chat_handler.py:61-66 | no file or a non-list JSON value gives [], a stored list is returned as it is, non-JSON text raises, the empty id raises |
| Chat.ChatSession.Exists | sgpt/handlers/chat_handler.py:80-81 | true iff the id is given, non-empty, and its history is non-empty; read errors propagate |
| Chat.ChatSession.Write | sgpt/handlers/chat_handler.py:68-70 | only the id's record changes, to the last `length` messages; reading it back gives exactly those |
| Chat.ChatSession.Invalidate | sgpt/handlers/chat_handler.py:72-74 | the id's record is removed; an absent id is an error and changes nothing; afterwards the chat does not exist |
| Chat.ChatSession.Wrapper | sgpt/handlers/chat_handler.py:42-57 | without an id, forward and leave the store alone; with one, send history then messages, pass fragments on, and commit only after a normal end |
| Chat.Validate | sgpt/handlers/chat_handler.py:130-146 | fresh: the whole turn with lead-in; initiated and matching: the hypothetical turn minus its system message; otherwise IdentityConflict with both texts |
| Chat.ValidateFresh | sgpt/handlers/chat_handler.py:143-144 | a fresh chat's messages start with the system message and end with the user message |
| Chat.ValidateContinuing | sgpt/handlers/chat_handler.py:133-138 | a continued chat adds exactly one message, the user message |
| Chat.ValidateConflict | sgpt/handlers/chat_handler.py:133-142 | a conflict happens iff the turn assembles and its system text differs from the stored first message |
| Chat.SameRoleContinues | sgpt/handlers/chat_handler.py:131-137 | a chat started by the same role on the same host never conflicts |
| Chat.SecondCommitDropsSystem | sgpt/handlers/chat_handler.py:68-70 | with length 4, the second commit of a chat no longer holds its system message |
| Chat.SecondCommitLosesSystem | sgpt/handlers/chat_handler.py:130-142 | the third turn then compares against the first user message and conflicts |
| Chat.ChatHandler.Init | sgpt/handlers/chat_handler.py:93-109 | the handler's fields hold the given values |
| Chat.ChatHandler.Open | sgpt/handlers/chat_handler.py:93-109 | read the history, ask `initiated`, validate; a handler exists iff none of them raises, with the validated messages fixed |
| Chat.ChatHandler.Handle | sgpt/handlers/chat_handler.py:152-160 | the fixed messages go through the wrapper; the trace is the stream's fragments; the result is their concatenation or the stream's own error; the store changes only on a normal end, to the committed record |
| OneShot.DefaultHandler.GetMessages | sgpt/handlers/default_handler.py:26-30 | always `prompt_constructor(chat_init=True)`: system message first, user message last, lead-in counted |
| OneShot.DefaultHandler.Handle | sgpt/handlers/handler.py:32-39 | handle over GetMessages; it modifies nothing, so a one-shot turn persists nothing |
| OneShot.OneShotIncludesLeadIn | sgpt/handlers/default_handler.py:26-30 | the role's whole lead-in, completed and in order, sits between the system and user messages |

## Left out

- Prompt.FollowingPromptConstructor, Prompt.AssembleFor, Prompt.Assemble, Prompt.PromptConstructor, Chat.Validate, Chat.ChatHandler.Open, OneShot.DefaultHandler.GetMessages and OneShot.DefaultHandler.Handle: these inherit the JSON-safety requirement of Prompt.MessageConstructor through `ConstructorSafe`. So a prompt, or a completed SYSTEM_MESSAGE or PROMPT_STRUCTURE, containing `"` or `\` is outside every statement about a turn. In the source, such a turn either raises JSONDecodeError in `message_constructor` before anything is sent or stored, or the pasted text still forms valid JSON. That happens with an escape such as `\n`, or with quotes that add a duplicate `content` or `role` key, whose last value `json.loads` keeps. The turn then sends a different content or even a different role. For example, the prompt `x", "role": "system` under a role without PROMPT_STRUCTURE makes the last message a system message, not a user message.
- Prompt.MessageConstructor: requires the text to hold no `"` and no `\`. The source pastes the text into a JSON literal unescaped; other texts either raise JSONDecodeError or still form valid JSON that loads as a different content or, through a duplicate `role` key, a different role. That decoding is not modelled.
- Prompt.SingleSystemMessage: assumes no included lead-in entry has the system role. Role records are free to contain one, and then the first message is not the only system message.
- Prompt.ExpandDefined: does not state that the reported key is the first missing field in left-to-right order.
- `str.format` is modelled on templates already split into literal text and fields. Positional fields (`{}`, `{0}`), which raise IndexError rather than KeyError, are not modelled: a field of any name is treated as a keyword field, so Prompt.Expand, Prompt.MessageCompleter, Prompt.AssembleForError and Prompt.AssembleDefined report them as a missing key. Format specifications, conversions, attribute and index access, and `{{`/`}}` escapes are not modelled either.
- Host probing (`platform`, `distro`, `getenv`) is a parameter. The drive prefixes that `ntpath.basename` recognises are not modelled; only `/` and `\` are separators.
- The in-place overwrite of the role record's lead-in list is a new list of completed messages. Each call loads the role record afresh, so nothing else sees the mutation.
- Role store I/O is a map from name to record. This covers `recall_role`, the JSON files, the default roles and overwrite confirmation.
- `ChatSession.list` (sorting ids by file modification time), `list_ids` and `show_messages` are left out: console output and file metadata.
- Chat ids are opaque strings. Ids containing path separators, `mkdir` of the storage directory and file permissions are not modelled.
- A stored JSON list whose items are not messages is not modelled; a list is a list of messages.
- The streaming client, HTTP and the `caching` flag: the client is a function from request to stream.
- Generator laziness: the wrapper's loop and `handle`'s loop run one after the other, not interleaved. The store effects and the echo order are the same.
- Sampling parameters are `real` values passed through unchanged; floating-point behaviour is not modelled.
- Console output (`typer.secho`, the final newline) is the trace of echoed fragments.
- The CLI (`app.py`), shell execution of EXECUTABLE_RETURNS, editor input, and concurrent access to the storage directory are left out.
- ChatHandler.Handle takes the `chat_id` keyword argument separately from the handler's own id, as the source does. The CLI passes the same id to both.
