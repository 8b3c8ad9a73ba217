# wchat: a verified model of the automated group-chat module

The `wchat` plugin of the userbot answers group messages as a persona
("bot role") using a generative-language model. It keeps its state in the
`custom.wchat` collection of the bot's key-value store and in four
module-level caches loaded from that store at import time:

- the enabled and disabled topic lists;
- the per-group "answer every topic" flags;
- the per-group roles.

A *topic* is `"<chat id>:<thread id>"`. This project models that module in
Dafny and proves properties of the model:

- `Store`, `Topics`: the collection as a map from key to a JSON-like value,
  and the naming of topics and per-topic keys.
- `Policy`: the `wchat on|off|del|all` sub-commands, and the test that
  decides whether a topic is answered.
- `Persona`: role resolution (topic role, then group role, then the
  built-in default) and the `role group|topic` command.
- `Transcript`: `get_chat_history`, which seeds, appends and stores a
  topic's history.
- `KeyPool`: the list of API keys, the current index and the `setwkey`
  command.
- `Retry`: the two key-rotating retry loops around the remote call. The
  single-shot loop makes 3 attempts and moves to the next key after each
  retryable error. The chat loop makes 2 × (number of keys) attempts and
  moves to the next key after every second one. A `RetryLoop` method runs
  the loop, and a `Loop` function specifies it.
- `Voice`: the `.el` voice marker. The reply after the first marker is
  stripped and handed to speech synthesis. When synthesis fails, the text
  is sent instead.
- `Media`: the file-type chain of the file handler, the two prompts, and
  the upload wait.
- `Engine`: the `Wchat` class. Its fields are the store, the caches and
  the client's image buffer and timers. Its methods are the handlers of
  text, sticker, file and photo messages, the firing of the image timer,
  and the commands. Each method is proved against a function of the old
  state, and the class invariant (`Consistent`) is preserved:
  - every cache mirrors the store;
  - the topic lists are duplicate-free and disjoint;
  - the stored group roles are non-empty;
  - the key index points at a key;
  - a topic has a pending image task exactly while its buffer is non-empty.

The remote model is an *oracle*: a function from (attempt number, key) to
an answer or an exception message. Speech synthesis, downloads, the file
service's processing states and `Image.open` are parameters in the same
way. Python's `str` operations the module uses are defined in `Text`:
`strip`, `split`, `lower`, `find`, `in`, `endswith`, `capitalize` and
`int()`.

## Model

| member | source | states |
|---|---|---|
| Text.Strip | modules/custom_modules/wchat.py:163 | the result is the input's slice between its leading and trailing whitespace, and neither of its ends is whitespace |
| Text.Words | modules/custom_modules/wchat.py:327 | `split()` yields only non-empty words without whitespace; `WordsOfJoin` and `WordsSkipSpaces` relate it to joining and to leading whitespace |
| Text.WordsSkipSpaces | modules/custom_modules/wchat.py:327 | leading whitespace does not change the words |
| Text.WordsOfJoin | modules/custom_modules/wchat.py:382 | splitting the single-space join of `split()` words gives back exactly those words, in order |
| Text.JoinWith | modules/custom_modules/wchat.py:382 | `" ".join` and `"\n".join`; `JoinedWordsStripped`, `WordsOfJoin` and `Transcript.ContextLines` state what splitting and stripping a join give |
| Text.JoinedWordsStripped | modules/custom_modules/wchat.py:382 | joining `split()` words with single spaces gives text that `strip()` leaves unchanged, and it is empty exactly when there are no words |
| Text.JoinedWordsEnds | modules/custom_modules/wchat.py:382 | such a join is empty exactly when there are no words, and otherwise neither end is whitespace |
| Text.Lower | modules/custom_modules/wchat.py:328 | lower-casing keeps the length |
| Text.LowerContains | modules/custom_modules/wchat.py:82 | a case-insensitive occurrence of a word is found by a search in the lower-cased text |
| Text.Find | modules/custom_modules/wchat.py:108 | `find` returns the first index where the pattern occurs, or -1 when it occurs nowhere |
| Text.ContainsAt | modules/custom_modules/wchat.py:107 | an occurrence at any index makes `in` true |
| Text.MissingCharNotContained | modules/custom_modules/wchat.py:82 | a text lacking one of the pattern's characters does not contain the pattern |
| Text.Contains | modules/custom_modules/wchat.py:82 | `p in s`, as a `find` that does not return -1; `ContainsAt` and `MissingCharNotContained` give its two directions |
| Text.EndsWith | modules/custom_modules/wchat.py:297 | `endswith`, the test behind `Media.DocumentKind` |
| Text.Capitalize | modules/custom_modules/wchat.py:97 | `capitalize()` keeps the length |
| Text.ParseInt | modules/custom_modules/wchat.py:443 | `int(key)` on one word: an optional sign and ASCII digits, otherwise the `ValueError`; `ParseIntText` shows it reads back every printed integer |
| Text.ParseIntText | modules/custom_modules/wchat.py:443 | `int(str(i)) == i` for every integer |
| Text.DecimalValue | modules/custom_modules/wchat.py:443 | the digits of a natural number read back as that number |
| Text.IntTextInjective | modules/custom_modules/wchat.py:443 | different integers print differently |
| Text.DecimalInjective | modules/custom_modules/wchat.py:443 | different naturals give different digit strings |
| Text.Repr | modules/custom_modules/wchat.py:443 | `repr` of a string, as the `ValueError` of `int()` shows it: the quote is `"` exactly when the text holds a `'` and no `"`; backslashes and that quote are escaped, as are tab, newline, carriage return and the non-printable characters below U+0100 (`\xhh`); `ReprRoundTrip` shows nothing is lost |
| Text.ReprRoundTrip | modules/custom_modules/wchat.py:443 | reading back the text between the quotes of `repr(s)` gives `s`, for every string |
| Text.ReprPlain | modules/custom_modules/wchat.py:443 | printable ASCII without quote or backslash is shown between single quotes, unchanged |
| Text.Unescape | modules/custom_modules/wchat.py:443 | reads a string literal's body back; the partner of `Repr` in `ReprRoundTrip` |
| Store.KeysDistinct | modules/custom_modules/wchat.py:55-59 | history keys and role keys never collide with each other or with the six fixed keys, and each is injective in the topic |
| Store.FixedKeysDistinct | modules/custom_modules/wchat.py:45-48 | the six fixed keys of the collection are pairwise different |
| Topics.GroupId | modules/custom_modules/wchat.py:140 | `str(message.chat.id)`; `TopicKey` and `TopicKeyInjective` state what it contributes to a topic key |
| Topics.ThreadText | modules/custom_modules/wchat.py:141 | the thread shown in a topic key, `None` when there is none; `TopicKeyInjective` relies on it |
| Topics.TopicKey | modules/custom_modules/wchat.py:141 | a topic key starts with its group id and is longer than it |
| Topics.TopicKeyInjective | modules/custom_modules/wchat.py:141 | different (chat, thread) pairs give different topic keys |
| Policy.RemoveFirst | modules/custom_modules/wchat.py:334 | `list.remove` drops exactly one occurrence of a present element, keeps every other element, and keeps a duplicate-free list duplicate-free; a missing element leaves the list unchanged |
| Policy.RemoveFirstAt | modules/custom_modules/wchat.py:334 | the element removed is the first occurrence, and the elements before and after it keep their order |
| Policy.FlagOf | modules/custom_modules/wchat.py:143 | `wchat_for_all_groups.get(group_id, False)`; used by `Ignored` and `ToggleAll`, whose effects `ToggleAllEffect` states |
| Policy.ParseCommand | modules/custom_modules/wchat.py:328-364 | `parts[1].lower()` compared with `on`, `off`, `del`, `all`, anything else giving the usage reply; `Engine.Wchat.ApplyWchatCommand` is proved to dispatch on it |
| Policy.Ignored | modules/custom_modules/wchat.py:142-146 | the early return shared by the three handlers; `EnableEffect`, `DisableEffect`, `StaysDisabled` and `ApplyLocal` state how the commands change it |
| Policy.Enable | modules/custom_modules/wchat.py:332-339 | `wchat on` on the two lists; its effect is stated by `EnableEffect` |
| Policy.Disable | modules/custom_modules/wchat.py:340-347 | `wchat off` on the two lists; its effect is stated by `DisableEffect` |
| Policy.ToggleAll | modules/custom_modules/wchat.py:353-357 | `wchat all` on the group flags; its effect is stated by `ToggleAllEffect` |
| Policy.Apply | modules/custom_modules/wchat.py:332-360 | one `wchat` sub-command; `ApplyValid`, `ApplyLocal` and `StaysDisabled` state what it keeps |
| Policy.EnableEffect | modules/custom_modules/wchat.py:332-339 | after `on` the topic is enabled, not disabled and answered whatever the group flag; other topics and the flags are unchanged; a second `on` is a no-op |
| Policy.DisableEffect | modules/custom_modules/wchat.py:340-347 | after `off` the topic is disabled, not enabled and ignored in every group; other topics are unchanged; a second `off` is a no-op |
| Policy.ToggleAllEffect | modules/custom_modules/wchat.py:353-357 | `all` flips exactly this group's flag, two toggles restore it, and the lists are untouched |
| Policy.ApplyValid | modules/custom_modules/wchat.py:332-360 | every sub-command keeps both lists duplicate-free and disjoint |
| Policy.StaysDisabled | modules/custom_modules/wchat.py:142-146 | a disabled topic stays ignored through any sequence of commands without an `on` for it |
| Policy.ApplyLocal | modules/custom_modules/wchat.py:332-360 | a command in one topic does not change whether any other topic is answered (for `all`, in other groups) |
| Transcript.WithUserLineShape | modules/custom_modules/wchat.py:54-60 | a missing history becomes the role seed plus the user line; an existing one keeps every line and gains exactly the user line at the end |
| Transcript.RecordTurnsAppends | modules/custom_modules/wchat.py:54-60 | after any run of turns, the stored history is the earlier one (seeded with the first turn's role) followed by one line per turn, in order |
| Transcript.WithUserLine | modules/custom_modules/wchat.py:54-58 | the history `get_chat_history` builds; its shape is stated by `WithUserLineShape` |
| Transcript.Record | modules/custom_modules/wchat.py:59 | the store write of a topic's history; `RecordTurnsAppends` states what a run of turns leaves |
| Transcript.SeedLine | modules/custom_modules/wchat.py:56 | the persona line `Role: …` that starts a fresh history; `WithUserLineShape` states where it appears |
| Transcript.UserLine | modules/custom_modules/wchat.py:58 | the line `name: message` recorded for a user turn; `WithUserLineShape` and `RecordTurnsAppends` state where it goes |
| Transcript.Prior | modules/custom_modules/wchat.py:55-57 | the stored history, or the seed line when there is none; `WithUserLineShape` states both cases |
| Transcript.Context | modules/custom_modules/wchat.py:192 | `"\n".join(chat_history)`, the prompt of the chat loop and the start of the file and image prompts; `ContextLines` shows it splits back into the history |
| Transcript.ContextLines | modules/custom_modules/wchat.py:192 | the joined context splits back into the history when no line holds a newline |
| Transcript.ContextMergesMultiLine | modules/custom_modules/wchat.py:192 | a message holding a newline gives the same context as two separate lines |
| Persona.ResolveRole | modules/custom_modules/wchat.py:171-175 | the topic role wins when non-empty, then the group role, then the default |
| Persona.TopicRoleSetEffect | modules/custom_modules/wchat.py:408-411 | `role topic X` makes the topic resolve to X, clears its history (so the next turn is seeded with X) and changes only that topic's two keys |
| Persona.TopicRoleResetEffect | modules/custom_modules/wchat.py:399-404 | `role topic` with no text makes the topic resolve to the group's current role or the default, and clears its history |
| Persona.TopicResetPinsGroupRole | modules/custom_modules/wchat.py:399-404 | after that reset, a later `role group Y` no longer reaches the topic, which keeps the role copied at the reset |
| Persona.GroupRoleEffect | modules/custom_modules/wchat.py:386-398 | `role group [X]` sets or removes only this group's entry and writes it back; histories and topic roles are untouched; topics without a role now resolve to X or the default |
| Persona.RoleCommandKeepsRolesNonEmpty | modules/custom_modules/wchat.py:386-398 | the stored group roles stay non-empty |
| Persona.RoleCommandNoScope | modules/custom_modules/wchat.py:377-379 | too few words give the usage reply, an unknown scope the invalid-scope reply, and neither changes anything |
| Persona.RoleTextWords | modules/custom_modules/wchat.py:376-382 | for `split()` words, the role is the words after the scope joined by single spaces, `split()` gives those words back, and it is empty exactly when nothing follows the scope |
| Persona.RoleText | modules/custom_modules/wchat.py:382 | `" ".join(parts[2:]).strip()`; `RoleTextWords` states what it is for `split()` words |
| Persona.RoleCommand | modules/custom_modules/wchat.py:373-423 | the `role` command on the store and the group roles; `RoleCommandNoScope` and `RoleCommandKeepsRolesNonEmpty` state its cases |
| Persona.GroupRoleCommand | modules/custom_modules/wchat.py:386-398 | `role group`; its effect is stated by `GroupRoleEffect` |
| Persona.TopicRoleCommand | modules/custom_modules/wchat.py:399-414 | `role topic`; its effects are stated by `TopicRoleSetEffect`, `TopicRoleResetEffect` and `TopicResetPinsGroupRole` |
| KeyPool.PoolKept | modules/custom_modules/wchat.py:435-436 | the pool invariant depends only on the two pool entries |
| KeyPool.AddEffect | modules/custom_modules/wchat.py:438-441 | `add k` appends exactly k and keeps the index |
| KeyPool.SetEffect | modules/custom_modules/wchat.py:442-452 | `set w` selects key w (1-based) exactly when w is an integer between 1 and the pool size; otherwise the store is unchanged |
| KeyPool.DeleteEffect | modules/custom_modules/wchat.py:453-463 | `del w` removes exactly key w when it exists; the index moves only when it is now past the end, and then to the last key or 0; otherwise the store is unchanged |
| KeyPool.KeyCommandValid | modules/custom_modules/wchat.py:426-477 | every `setwkey` command keeps the pool invariant |
| KeyPool.ListingEffect | modules/custom_modules/wchat.py:464-471 | the listing changes nothing and names the current key, or `None` for an empty pool |
| KeyPool.DeleteBeforeCurrentShifts | modules/custom_modules/wchat.py:456-460 | deleting a key before the current one leaves the selection on the key that followed it |
| KeyPool.DeleteLastCurrent | modules/custom_modules/wchat.py:456-460 | deleting the current last key selects the new last key (index length − 2, or 0) |
| KeyPool.KeyCommand | modules/custom_modules/wchat.py:426-477 | the `setwkey` dispatch on the split words; `KeyCommandValid` states that every case keeps the pool invariant |
| KeyPool.AddKey | modules/custom_modules/wchat.py:438-441 | `setwkey add`; its effect is stated by `AddEffect` |
| KeyPool.SelectKey | modules/custom_modules/wchat.py:442-452 | `setwkey set`; its effect is stated by `SetEffect` |
| KeyPool.DeleteKey | modules/custom_modules/wchat.py:453-463 | `setwkey del`; its effect is stated by `DeleteEffect` |
| KeyPool.DeleteAt | modules/custom_modules/wchat.py:456-460 | the removal and the index clamp; `DeleteBeforeCurrentShifts` and `DeleteLastCurrent` state where the selection goes |
| KeyPool.ListKeys | modules/custom_modules/wchat.py:464-471 | the listing; its effect is stated by `ListingEffect` |
| KeyPool.PyIndex | modules/custom_modules/wchat.py:468 | Python's `xs[i]`, with negative indices and the `IndexError`; `ListingEffect` and `Retry.LoopStep` use it |
| KeyPool.IntErrorText | modules/custom_modules/wchat.py:443 | the `ValueError` text of `int(word)`: the prefix and then at most the first 200 characters of `repr(word)`, all of it when it fits |
| KeyPool.PlainIntError | modules/custom_modules/wchat.py:443 | for a short word of plain printable ASCII the message is the prefix and the word between single quotes |
| Retry.RetryLoop | modules/custom_modules/wchat.py:63-88 | the imperative loop ends as the `Loop` specification does, and leaves the store `AfterRun` describes |
| Retry.Loop | modules/custom_modules/wchat.py:68-88 | the `while retries > 0` loop as a function of the oracle; `LoopStep` and `Schedule` state its turns and its whole run |
| Retry.SingleShot | modules/custom_modules/wchat.py:63-88 | the loop of `generate_gemini_response` on the store; `SingleShotSchedule` states its schedule |
| Retry.ChatRun | modules/custom_modules/wchat.py:181-220 | the loop of the text handler on the store; `ChatSchedule` and `EmptyPool` state its schedule |
| Retry.AfterRun | modules/custom_modules/wchat.py:78-85 | the store after a loop; `AfterRunFrame` and `AfterRunPool` state what it writes and keeps |
| Retry.AfterRunFrame | modules/custom_modules/wchat.py:78-85 | a loop writes only the topic's history and the key index; the history gains the reply exactly when the loop replied |
| Retry.AfterRunPool | modules/custom_modules/wchat.py:84-85 | a loop that only stores indices of keys keeps the pool invariant |
| Retry.SingleShotKeepsPool | modules/custom_modules/wchat.py:63-88 | the single-shot loop keeps the pool invariant |
| Retry.ChatRunKeepsPool | modules/custom_modules/wchat.py:181-220 | the chat loop keeps the pool invariant |
| Retry.RotationStep | modules/custom_modules/wchat.py:214-217 | one more retried failure adds a rotation exactly when the cadence rotates at the remaining count |
| Retry.KeyStep | modules/custom_modules/wchat.py:84 | after a retried failure the loop's index is the key of the next attempt |
| Retry.LoopStep | modules/custom_modules/wchat.py:68-88 | one turn at a valid index: a retryable failure costs a retry and continues at the next key when the cadence rotates; anything else ends the loop with this attempt, replying with its stripped text or raising its error |
| Retry.Schedule | modules/custom_modules/wchat.py:68-88 | attempt j uses key `KeyAt(j)`; every attempt but the last failed retryably; the last decides the end; at most the budget is used; the index left behind is the next attempt's |
| Retry.SingleShotSchedule | modules/custom_modules/wchat.py:63-88 | over a valid non-empty pool: 1 to 3 calls with keys start, start+1, start+2 (mod n); after 3 retryable failures it gives up with the index 3 keys on |
| Retry.SingleShotLoop | modules/custom_modules/wchat.py:63-88 | the same schedule for any classifier and any valid start |
| Retry.ChatSchedule | modules/custom_modules/wchat.py:181-220 | over a valid non-empty pool of n keys: at most 2n calls; attempts 2m and 2m+1 use key start+m (mod n); after trying every key twice it gives up with the index back at the start |
| Retry.ChatLoopSchedule | modules/custom_modules/wchat.py:181-220 | the same schedule for any classifier and any valid start |
| Retry.EmptyPool | modules/custom_modules/wchat.py:183-185 | with no keys the chat loop makes no call and ends silently, while the single-shot loop raises the `IndexError` of `gemini_keys[0]` |
| Retry.RetryableCases | modules/custom_modules/wchat.py:82 | a "429" anywhere, or "invalid" in any case, makes an error retryable |
| Retry.NotRetryableWithout | modules/custom_modules/wchat.py:82 | a message with no '4' and no 'v' or 'V' is never retryable |
| Retry.IndexErrorNotRetryable | modules/custom_modules/wchat.py:70 | an out-of-range key index is re-raised, not retried |
| Retry.NotSubscriptableNotRetryable | modules/custom_modules/wchat.py:70 | a missing key list (`None[...]`) is re-raised, not retried |
| Retry.NoLenNotRetryable | modules/custom_modules/wchat.py:183 | `len(None)` is re-raised, not retried |
| Retry.IsRetryable | modules/custom_modules/wchat.py:82 | `"429" in str(e) or "invalid" in str(e).lower()`; `RetryableCases` and `NotRetryableWithout` give its two directions |
| Retry.MakesCall | modules/custom_modules/wchat.py:68-75 | the first turn of a loop reaches the model: the key list exists and the index names a key |
| Retry.NoCallIgnoresOracle | modules/custom_modules/wchat.py:65-70 | a loop that makes no call ends the same for every model: the single-shot loop raises, the chat loop raises or gives up, and neither writes anything back |
| Retry.FirstCallAsks | modules/custom_modules/wchat.py:68-80 | a loop that makes a call takes at least one turn, asks first with the current key, and a first answer is its stripped reply |
| Voice.ThreadArg | modules/custom_modules/wchat.py:115-131 | the thread is passed exactly when it is truthy |
| Voice.HandleVoiceCases | modules/custom_modules/wchat.py:106-134 | the handler reports success exactly when it sent something: a voice note iff synthesis gave a non-empty path, the payload text iff synthesis raised, nothing without the marker |
| Voice.MarkedReply | modules/custom_modules/wchat.py:107-111 | a reply starting with the marker is spoken without it, stripped |
| Voice.MarkedSpacedReply | modules/custom_modules/wchat.py:107-111 | the marker, a space and unpadded text: the text is spoken as it is |
| Voice.HandleVoice | modules/custom_modules/wchat.py:106-134 | `handle_voice_message`; `HandleVoiceCases` states what it sends and returns |
| Voice.VoicePayload | modules/custom_modules/wchat.py:107-111 | the text after the first marker, stripped; `MarkedReply` and `MarkedSpacedReply` state it for replies that start with the marker |
| Media.FileKind | modules/custom_modules/wchat.py:287-303 | a typed attachment is one of video, audio, pdf or document |
| Media.DocumentKind | modules/custom_modules/wchat.py:297-303 | a named document is "pdf" exactly when its name ends with ".pdf", and "document" otherwise |
| Media.CaptionPart | modules/custom_modules/wchat.py:275 | the caption part is empty exactly when the caption is |
| Media.PromptsKeepContext | modules/custom_modules/wchat.py:273-277 | both the image and the file prompt start with the whole chat context |
| Media.ImagePromptKeepsCaption | modules/custom_modules/wchat.py:273-277 | different captions give different image prompts |
| Media.AwaitUpload | modules/custom_modules/wchat.py:91-98 | the wait returns the file at the first check where it is no longer processing, if it is active then; it fails with "<Type> failed to process." iff that state is failed |
| Media.SettledFrom | modules/custom_modules/wchat.py:93-95 | the first check from i on where the file is no longer processing |
| Media.FirstSettledUnique | modules/custom_modules/wchat.py:93-95 | that first check is unique |
| Media.UploadOf | modules/custom_modules/wchat.py:91-98 | the end of `upload_file_to_gemini`; `AwaitUpload` states that the loop reaches it |
| Media.ImagePrompt | modules/custom_modules/wchat.py:273-277 | the batch prompt; `PromptsKeepContext` and `ImagePromptKeepsCaption` state what it keeps |
| Media.FilePrompt | modules/custom_modules/wchat.py:307-310 | the file prompt; `PromptsKeepContext` states that it starts with the context |
| Media.FileRequest | modules/custom_modules/wchat.py:307-310 | the part of the file prompt after the context; `PromptsKeepContext` relies on it |
| Media.UploadFailedText | modules/custom_modules/wchat.py:97 | `f"{file_type.capitalize()} failed to process."`; `AwaitUpload` states when it is raised |
| Engine.SenderName | modules/custom_modules/wchat.py:232 | the sender label is never empty and is the first name when there is one |
| Engine.WriteBackConsistent | modules/custom_modules/wchat.py:332-357 | writing a valid policy back to the store keeps the client invariant |
| Engine.FreeKeyConsistent | modules/custom_modules/wchat.py:349 | writing a key no cache mirrors keeps the client invariant |
| Engine.AfterRunConsistent | modules/custom_modules/wchat.py:78-85 | the store after a model loop keeps the client invariant whenever the pool invariant holds |
| Engine.OpenBuffer | modules/custom_modules/wchat.py:255-257 | the topic has a buffer afterwards; an existing buffer and timer are kept; a new topic gets an empty buffer and no timer |
| Engine.PhotoStepConsistent | modules/custom_modules/wchat.py:250-285 | buffering a photo keeps each topic's task pending exactly while its buffer is non-empty |
| Engine.FireConsistent | modules/custom_modules/wchat.py:266-267 | taking a batch keeps that invariant |
| Engine.PhotoStepEffect | modules/custom_modules/wchat.py:250-285 | a downloaded photo is appended to its topic and a task is started, capturing this message's reply target, caption and history, exactly when none was pending; other topics are untouched; a failed download changes no buffer |
| Engine.ThreePhotosOneBatch | modules/custom_modules/wchat.py:250-285 | three photos to an idle topic make one batch of all three paths in order, under one task that keeps the first photo's reply target, caption and history |
| Engine.FireEffect | modules/custom_modules/wchat.py:266-270 | a pending task takes a non-empty buffer and leaves the topic empty and idle; other topics are unchanged |
| Engine.BatchReplyDropsLaterLines | modules/custom_modules/wchat.py:78-79 | a batch reply is stored after the history captured with the first photo, so user lines recorded while the batch was pending are lost |
| Engine.FileStepEffect | modules/custom_modules/wchat.py:287-315 | the handler hands a request to the model exactly when the kind is typed, the download gave a non-empty path, the upload became active and the loop makes a call; the request carries the file prompt and that path; the store changes only the history and the key index, and only when a request was made; the pool invariant is kept |
| Engine.UploadStepEffect | modules/custom_modules/wchat.py:305-315 | after the download: a request exactly when the upload became active and the loop makes a call, carrying the file prompt and the path; the store changes only then, and only under the history and the key index |
| Engine.PhotoStep | modules/custom_modules/wchat.py:250-285 | the photo branch on the buffers; `PhotoStepEffect`, `PhotoStepConsistent` and `ThreePhotosOneBatch` state what it does |
| Engine.Fire | modules/custom_modules/wchat.py:266-267 | a pending task taking its batch; `FireEffect` and `FireConsistent` state what it does |
| Engine.FileStep | modules/custom_modules/wchat.py:287-317 | the non-photo branch of `handle_files`; `FileStepEffect` states what it does |
| Engine.UploadStep | modules/custom_modules/wchat.py:305-315 | upload, prompt and single-shot run for one downloaded file; `FileStepEffect` states what it does |
| Engine.ChatOutputs | modules/custom_modules/wchat.py:199-211 | what the chat loop sends at its end; `Wchat.Deliver` and `Wchat.ChatLoop` are proved to send it |
| Engine.FileOutputs | modules/custom_modules/wchat.py:315-321 | what the file handler sends after a single-shot run; `Wchat.AskAboutFile` is proved to send it |
| Engine.ImageOutputs | modules/custom_modules/wchat.py:279-282 | what a finished image task sends; `Wchat.AskAboutImages` and `Wchat.FireImageTimer` are proved to send it |
| Engine.VoiceOutputs | modules/custom_modules/wchat.py:115-132 | what `handle_voice_message` sent, with the thread passed only when truthy; `Voice.HandleVoiceCases` and `Voice.ThreadArg` state its cases |
| Engine.AddPhoto | modules/custom_modules/wchat.py:259-284 | appending a photo, and starting the task that captures the message when none is pending; `PhotoStepEffect` states it |
| Engine.CaptionText | modules/custom_modules/wchat.py:244 | `message.caption.strip() if message.caption else ""`; `Wchat.OnFile` records it as the user line |
| Engine.WriteBack | modules/custom_modules/wchat.py:335-357 | the store after the `db.set` calls of a `wchat` command, each made exactly when its cache changed; `WriteBackConsistent` states it keeps the invariant |
| Engine.Wchat.Load | modules/custom_modules/wchat.py:45-48 | the caches are loaded from the store, the image state is empty and the invariant holds |
| Engine.Wchat.EnableTopic | modules/custom_modules/wchat.py:332-339 | the caches become `Enable` of the old ones, each list is written back only when it changed, and the invariant is kept |
| Engine.Wchat.DisableTopic | modules/custom_modules/wchat.py:340-347 | the caches become `Disable` of the old ones, with the same write-back and invariant |
| Engine.Wchat.ToggleGroup | modules/custom_modules/wchat.py:353-357 | the flags become `ToggleAll` of the old ones and are written back |
| Engine.Wchat.WchatCommand | modules/custom_modules/wchat.py:324-370 | splits the stripped text into words; too few words report the `IndexError` and change nothing; otherwise the caches follow `Apply`, `del` clears only the topic's history, and the reply names the topic or the group's new flag |
| Engine.Wchat.ApplyWchatCommand | modules/custom_modules/wchat.py:327-364 | the same outcome for text already split into words |
| Engine.Wchat.SetCustomRole | modules/custom_modules/wchat.py:373-423 | the store and the group roles become what `RoleCommand` gives for the stripped, split text; the topic caches and image state are unchanged |
| Engine.Wchat.ApplyRoleCommand | modules/custom_modules/wchat.py:377-417 | the same outcome for text already split into words |
| Engine.Wchat.SetGroupRole | modules/custom_modules/wchat.py:386-398 | the store and the group roles become what `GroupRoleCommand` gives |
| Engine.Wchat.SetTopicRole | modules/custom_modules/wchat.py:399-414 | the store becomes what `TopicRoleCommand` gives |
| Engine.Wchat.SetGeminiKey | modules/custom_modules/wchat.py:426-477 | the store and the reply are what `KeyCommand` gives for the stripped, split text, and the invariant is kept |
| Engine.Wchat.ApplyKeyCommand | modules/custom_modules/wchat.py:430-472 | the same outcome for text already split into words |
| Engine.Wchat.AddGeminiKey | modules/custom_modules/wchat.py:438-441 | the store and the reply are what `AddKey` gives |
| Engine.Wchat.SelectGeminiKey | modules/custom_modules/wchat.py:442-452 | the store and the reply are what `SelectKey` gives |
| Engine.Wchat.DeleteGeminiKey | modules/custom_modules/wchat.py:453-463 | the store and the reply are what `DeleteKey` gives |
| Engine.Wchat.ListGeminiKeys | modules/custom_modules/wchat.py:464-471 | the reply is what `ListKeys` gives, and nothing changes |
| Engine.Wchat.GetChatHistory | modules/custom_modules/wchat.py:54-60 | returns `WithUserLine` of the old store and stores it under the topic |
| Engine.Wchat.GenerateGeminiResponse | modules/custom_modules/wchat.py:63-88 | ends as `SingleShot` of the old store, and leaves `AfterRun` of it |
| Engine.Wchat.ChatAttempts | modules/custom_modules/wchat.py:181-220 | ends as `ChatRun` of the old store, and leaves `AfterRun` of it; every call sends the history joined by newlines, and the request is handed over exactly when the loop makes a call |
| Engine.Wchat.ChatLoop | modules/custom_modules/wchat.py:181-220 | sends the reply as text, or through the voice path when it holds the marker; reports a re-raised error to the operator; sends nothing when the loop gives up; the request is the newline-joined history, handed over exactly when the loop makes a call |
| Engine.Wchat.Deliver | modules/custom_modules/wchat.py:199-211 | a reply with the marker goes through the voice path, any other reply is sent as text to the thread |
| Engine.Wchat.OnText | modules/custom_modules/wchat.py:156-224 | no sender reports the error even in ignored topics; an ignored topic gets nothing and makes no request; otherwise the user line is recorded under the resolved role, the chat loop runs on that store, and its request is the newline-joined history with that line |
| Engine.Wchat.OnSticker | modules/custom_modules/wchat.py:137-153 | an ignored topic gets nothing; any other gets the chosen smiley in reply |
| Engine.Wchat.BufferPhoto | modules/custom_modules/wchat.py:250-285 | the buffers become what `PhotoStep` gives, with its output, and the invariant is kept |
| Engine.Wchat.ProcessFile | modules/custom_modules/wchat.py:287-317 | the store, output and request are what `FileStep` gives |
| Engine.Wchat.AskAboutFile | modules/custom_modules/wchat.py:305-315 | the store, output and request are what `UploadStep` gives |
| Engine.Wchat.OnFile | modules/custom_modules/wchat.py:226-321 | no sender reports the error; an ignored topic gets nothing; otherwise the caption line is recorded, a photo goes to `PhotoStep` and any other attachment to `FileStep` on that store |
| Engine.Wchat.FireImageTimer | modules/custom_modules/wchat.py:263-281 | the topic's non-empty buffer is taken and its timer cleared; when every image opens, the model is asked, when the loop makes a call, with the image prompt built from the captured context and caption, the reply is stored after the captured history, and the first photo gets the reply; otherwise nothing is sent |
| Engine.Wchat.AskAboutImages | modules/custom_modules/wchat.py:272-282 | the request (the image prompt with the paths, when the loop makes a call), the store and the reply are the single-shot run on the batch's captured history |

## Left out

- Delivery through the chat client is modelled as a list of `Output`
  values: sent texts, replies and voice notes, and the error messages
  sent to "me". What the commands write with `edit_text` is modelled by
  their reply values (`WchatReply`, `RoleReply`, `KeyReply`), and a
  command's own failure by its `WchatFailed` or `KeyError` reply, which
  carries the error text the source sends to "me" after the command's
  prefix. The failures of the client calls themselves are not modelled.
  Neither are the deletion of command messages, the sleeps, the typing
  action or the random choices, which are taken as parameters.
- `Text.Repr`, `KeyPool.IntErrorText`: characters from U+0100 on are
  written as they are. Python writes those that Unicode does not count as
  printable (U+200B, for one) as `\uXXXX` or `\UXXXXXXXX` escapes; the
  Unicode character database is not part of this model.
- The calls that configure the model (`genai.configure`, the model
  object and its safety settings) have no effect on the model and are
  left out. `setwkey set` does not re-configure the model here.
- `Engine.Wchat.OnText`, `Engine.Wchat.OnFile`: a missing sender is
  modelled by the error it raises. Errors raised by transport calls
  inside the handlers (editing, replying, sending to "me") are not
  modelled.
- `os.remove` of a downloaded file is not modelled. Neither is the voice
  file's removal (wchat.py:121). The file handler only reaches the remove
  when the path is empty, so it never removes anything.
- `Media.AwaitUpload`: the file service's processing states are a
  function from check number to state. A ghost `settled` check, at which
  the file is no longer processing, bounds the wait. A file that never
  leaves processing, which would make the source loop forever, is
  excluded. Exceptions raised by `upload_file` itself are not modelled.
- Concurrency is not modelled. Handlers run one at a time, and a
  `process_images` task fires as a separate step. Consequently, a photo
  whose download finishes after its topic's batch was taken cannot be
  appended to the popped buffer (the source would raise a `KeyError`
  there).
- `Engine.Wchat.Load` requires a store that already satisfies the
  invariant. A running store can break it: a chat loop that rotates the
  key index while a `setwkey del` runs during its 4-second sleep can leave
  the index past the end of the key list.
- `Text.Lower` and `Text.Capitalize` fold ASCII letters only.
  `Text.ParseInt` accepts an optional sign and ASCII digits; it rejects
  underscores and non-ASCII digits, which Python's `int()` accepts.
- `Persona.DefaultBotRole` is the source's text. Nothing is proved about
  its contents.
- `message.reply_text(None)` after a loop that gives up is modelled as
  the output `ReplyNone`. What the client then does is left out.
- Whether a downloaded image opens is a parameter of
  `Engine.Wchat.FireImageTimer`. The content of the images is not
  modelled; a request lists their paths.
- `Engine.Wchat.FireImageTimer`: the source's `if not image_paths:
  return` branch is unreachable under the class invariant. The contract
  states that the taken buffer is non-empty instead.
- Three behaviours of the code that a user might not expect:
  - `role topic` with no text copies the group's current role into the
    topic, so a later `role group` no longer reaches that topic
    (`Persona.TopicResetPinsGroupRole`).
  - `setwkey del` moves the current index only when it now points past
    the end, so deleting a key before the current one keeps the selection
    on the key that followed it (`KeyPool.DeleteBeforeCurrentShifts`).
  - An image batch carries only the first photo's caption
    (`Engine.ThreePhotosOneBatch`).
- The store is taken to have value semantics: `db.get` returns a fresh
  copy of the stored list, so appending to a history read earlier does
  not change the store until it is written back. The store module
  (`utils/db`) is not part of this model. `Engine.BatchReplyDropsLaterLines`
  and the history captured in `Engine.ThreePhotosOneBatch` depend on this.
- `Retry.ChatRun`, `Engine.Wchat.ChatLoop`: in the source, the reply is
  delivered inside the retry `try` (wchat.py:199-211), after it has been
  appended to the history and stored (wchat.py:195-196). A delivery error
  whose text holds "429" or "invalid" is therefore retried, with another
  model call and another history line. The model treats delivery as
  unable to fail, so a loop ends at its first reply.
- Every plugin other than `modules/custom_modules/wchat.py` is not part
  of this model.
