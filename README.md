# AI chatbot back end and chat page helpers, modelled in Dafny

This project models a small Flask chat application built on a local language model. It covers:
- the chat store and its endpoints: create, get, delete, rename;
- the message handler `send_message`, which stores a pending block, then updates the user profile (facts extracted as JSON and short memory sentences kept to the 20 most recent), classifies the request and answers;
- the request classifier: image requests, file requests and the file format;
- the retry loop with exponential backoff around every model call;
- file-name sanitising, the upload filter, generated file names and the bold segmentation of PDF lines;
- the profile endpoints;
- the feedback store and its statistics;
- the helpers of the browser script: truncating chat names, the fenced-code half of `formatAIText`, hiding the feedback buttons on automatic messages, and the bubbles drawn when a chat is selected.

Every outside effect is an input. The model server's answers are a sequence of attempt outcomes, where the k-th element is what the k-th call produced and a call past the end fails. The HTML cleaner, the JSON parser, the clock, the file and image writers and the markdown chain of the browser script are parameters as well.

The modules follow the program:

| module | file | what it holds |
|---|---|---|
| `Wrappers` | wrappers.dfy | `Option` |
| `Strings` | strings.dfy | Python-style `lower`, `strip`, `in` and `find`; `str(int)` |
| `Retry` | retry.dfy | `executar_prompt` |
| `Classifier` | classifier.dfy | `is_image_request`, `user_wants_file`, `get_file_type` |
| `Files` | files.dfy | `sanitize_filename`, `allowed_file`, generated files, `write_markdown_line` |
| `Profiles` | profiles.dfy | the two extractors, the memory merge, the profile endpoints |
| `Chats` | chats.dfy | `Chat`, `ChatManager`, the chat endpoints, the history, the automatic name |
| `Pipeline` | pipeline.dfy | `send_message`, the cancel flags, the default settings |
| `Feedback` | feedback.dfy | `add_feedback`, `feedback_stats` |
| `Frontend` | frontend.dfy | the helpers of `static/script.js` |

Where the code and the system's design description differ, the model follows the code:
- The design names a chat after its "first completed block". The code names it whenever the answered chat has exactly one block, even if the user renamed it before the first message.
- The design checks the cancel flag after any generation. In the code the file-link and image exits return before the flag is read, so the flag stays raised for a later message.
- The design says the profile step never fails the request. In the code, a memory value that is not a list makes the merge raise, and the request fails with the block left pending.
- The cancel answer carries no block index.
- The "message too long" error text says 10000 characters, but the code compares the length with 20000.

## Model

| member | source | states |
|---|---|---|
| Retry.Backoff | app.py:210-221 | the waits are 1, 2, 4, …: the k-th wait is 2^k |
| Retry.PromptResult | app.py:210-221 | there is a result exactly when one of the first `max_retries` attempts succeeded |
| Retry.ExecutePrompt | app.py:210-221 | returns the content of the first successful attempt, and every earlier attempt failed; with no success it makes all `max_retries` attempts and returns `None`; the waits between attempts double from 1 and there is none after the last attempt |
| Classifier.IsImageRequest | app.py:300-306 | true exactly when the lower-cased text contains one of the ten keywords |
| Classifier.ImageRequestInContext | app.py:300-306 | text around an image request, or a change of case, does not stop it from being one |
| Classifier.UserWantsFile | app.py:820-867 | the explicit pattern answers yes with no model call; otherwise the first non-empty answer in three attempts decides, and with none the answer is no |
| Classifier.NoAnswerMeansNo | app.py:836-867 | three attempts without a non-empty answer mean no |
| Classifier.FirstAnswerDecides | app.py:840-859 | the first non-empty answer is yes exactly when it starts with or contains one of the affirmative tokens |
| Classifier.ExplicitScenario | app.py:823-830 | a typical request ("gera um ficheiro txt com olá mundo") matches the explicit file pattern |
| Classifier.FindKnownType | app.py:788-791 | finds the first of the eight formats, in list order, contained in the text |
| Classifier.DecideAttempt | app.py:799-817 | one model attempt returns a named format, gives up with `''` on the second attempt, returns a non-empty answer as it is, or retries |
| Classifier.AskFileType | app.py:797-818 | the model loop of `get_file_type` returns the value and the number of calls its specification gives |
| Classifier.GetFileType | app.py:786-818 | a format named in the message comes first; a model answer is used only when there is none |
| Classifier.FileTypeFromMessage | app.py:787-791 | a format in the message is returned with no model call, and it is the first such format in list order |
| Classifier.FirstAnswerVerbatim | app.py:809-810 | a non-empty first answer that names no format is returned, normalised, after one call |
| Classifier.SecondAttemptGivesUp | app.py:806-808 | when the first attempt decides nothing and the second names no format, the loop returns `''` after two calls |
| Classifier.AiFileTypeSound | app.py:797-818 | at most three calls; a known format returned by the model loop was named in one of its answers |
| Classifier.FileTypeSound | app.py:786-818 | a known format returned was named in the message or in a model answer |
| Files.SanitizeAt | app.py:77-79 | every character of the result is in `[a-zA-Z0-9_.-]`; a safe input character stays where it was and any other becomes `_` |
| Files.SanitizeFixedPoint | app.py:77-79 | a name is left unchanged exactly when all its characters are safe |
| Files.SanitizeIdempotent | app.py:77-79 | sanitising twice is the same as sanitising once |
| Files.AllowedFileIff | app.py:641-642 | a name is allowed exactly when it ends in a dot followed by a dot-free extension whose lower-case form is `pdf` or `txt` |
| Files.ExtensionDecides | app.py:641-642 | for a dot-free extension, `base.ext` is allowed exactly when the extension is |
| Files.GeneratedFileName | app.py:701-785 | a name is returned exactly for one of the eight formats whose writer succeeded; it is `gerado_`, the timestamp's decimal digits (which read back as the timestamp), a dot and the format |
| Files.GeneratedNameIsSafe | app.py:723-769 | a generated name is already safe, so the download route's sanitising keeps it |
| Files.GeneratedFileListed | app.py:641-642 | a generated file passes the listing filter exactly when it is a PDF or a text file |
| Files.FileText | app.py:713-766 | the content is written whenever it is non-empty and the reply otherwise, so without `com` in the message the reply is written; the text is empty only when the reply is |
| Files.SplitContentShape | app.py:713 | without `com` the content is the reply; otherwise it is the stripped text after the first `com`, even one inside a word |
| Files.PartsJoin | app.py:688-698 | joining the parts of the split gives the line back |
| Files.BoldPartsShape | app.py:690-694 | every odd-numbered part is `**`, text without a line break, `**` |
| Files.PlainLine | app.py:688-698 | a line without `**` is one regular write followed by a line feed |
| Files.BoldIsClosed | app.py:691-697 | each switch to bold is followed by one write and a switch back, so every line ends in the regular font |
| Profiles.BraceSpanShape | app.py:229-233 | the span runs from the first `{` to the last `}`; there is none exactly when no `}` follows a `{` |
| Profiles.InfoAfterMerge | app.py:233 | a key of the extracted object takes its new value and every other key keeps its old one |
| Profiles.ExtractInfo | app.py:223-240 | the profile merged with the object found in the reply; unchanged without a reply, braces, valid JSON or an object; at most three calls |
| Profiles.GreetingsBeyondLength | app.py:243-259 | skipping a message is the five whitespace-letter patterns, `boa madrugada`, or fewer than ten characters |
| Profiles.NoBreakSpaceGreeting | app.py:248-258 | a repeated greeting separated by a no-break space matches the greeting class, since `\s` is Unicode whitespace |
| Profiles.AcceptSentence | app.py:260-264 | a sentence is accepted exactly when a non-empty reply exists whose stripped form is not `N/A`, and the sentence is that stripped form |
| Profiles.ExtractMemory | app.py:242-264 | skipped messages cost no model call and give no sentence; otherwise at most three calls, and the accepted reply is the sentence |
| Profiles.SentenceIsStripped | app.py:262-263 | an accepted sentence is not `N/A` and has no surrounding whitespace |
| Profiles.KeepRecent | app.py:369 | the last 20 entries, in order, or the whole list when it is shorter |
| Profiles.MergeMemorySpec | app.py:363-370 | the flag is set exactly when the sentence is new; then the list is the most recent old entries followed by the sentence, at most 20 of them; otherwise the list is unchanged; the sentence is in the list after the merge |
| Profiles.MergeKeepsNoDuplicates | app.py:366-369 | a list without repeats stays without repeats |
| Profiles.RememberInKeeps | app.py:363-370 | on a profile whose memories are a list or missing, the merge never fails and changes no other key |
| Profiles.RememberInOther | app.py:363-370 | on a profile whose memories are not a list, nothing changes and nothing is appended; the handler fails unless they are a string containing the sentence or an object with it as a key |
| Profiles.RememberInList | app.py:363-370 | the merged list holds the sentence, stays at most 20 long and free of repeats when it was, and the flag says whether the sentence was new |
| Profiles.SanitizeProfile | app.py:481-494 | the stored profile has exactly the posted keys |
| Profiles.SanitizeProfileBounded | app.py:484-491 | stored strings, alone or in lists, are cleaned and at most 200 characters long; lists keep their length; other values are kept as they are |
| Profiles.ProfileStore.constructor | app.py:148 | the store holds the loaded profiles |
| Profiles.ProfileStore.StoreInfo | app.py:356-360 | the extracted profile is written only when it differs from the current one |
| Profiles.ProfileStore.Remember | app.py:363-370 | the default user's profile becomes the merged one, with the merge's flags |
| Profiles.ProfileStore.SetProfile | app.py:481-494 | the sanitised posted profile replaces the default user's profile whole |
| Profiles.ProfileStore.DeleteMemory | app.py:509-522 | succeeds exactly when there is a memory list and the index converts and is in range; then only that entry is removed; otherwise nothing changes |
| Profiles.ProfileStore.DeleteAll | app.py:524-531 | succeeds exactly when the memory key exists, then empties it; otherwise nothing changes |
| Profiles.DeleteAtSpec | app.py:517 | removing one entry keeps the others in order and drops exactly that sentence |
| Chats.NewChat | app.py:164-165 | a new chat has the default name and no blocks |
| Chats.SingleBlock | app.py:115-120 | a new block holds one variant, one response and shows variant 0 |
| Chats.WithBlock | app.py:328-332 | one block appended and the rest of the chat unchanged |
| Chats.AddMessage | app.py:115-120 | appending a message is appending its answered block (`Chat.add_message` is not called by any handler) |
| Chats.SetLastReply | app.py:413 | only the last block changes, and in it only the first response, which becomes the text |
| Chats.AnswerPending | app.py:328-332 | answering the pending block gives the block that would have been appended with the answer in it |
| Chats.PyIndex | app.py:389-390 | Python indexing: defined exactly from `-len` to `len - 1`, and negative indices count from the end |
| Chats.History | app.py:386-390 | two messages per block |
| Chats.HistorySpec | app.py:386-390 | the history exists exactly when every block's selection is valid, and block k gives its selected variant and its selected response |
| Chats.SuggestedName | app.py:266-280 | the model's suggestion stripped, or the first 30 characters of the message when the call fails |
| Strings.StripShape | app.py:276 | the stripped text is the slice from the first to the last non-whitespace character, with only whitespace around it |
| Chats.ChatStore.constructor | app.py:147 | the store holds the loaded chats |
| Chats.ChatStore.Blocks | app.py:182-187 | the blocks of a known chat, and nothing for an unknown id |
| Chats.ChatStore.Create | app.py:175-180 | the new id maps to an empty chat with the default name |
| Chats.ChatStore.Delete | app.py:189-195 | succeeds exactly for a known id, which it removes |
| Chats.ChatStore.Rename | app.py:197-207 | a cleaned name over 200 characters is refused; a known chat and a non-empty name rename it; otherwise nothing changes |
| Chats.ChatStore.AppendPending | app.py:326-333 | the chat gains the message's block with its response pending |
| Chats.ChatStore.SetReply | app.py:413 | the chat's last response becomes the text |
| Chats.ChatStore.SetName | app.py:468 | the chat's name becomes the given name |
| Pipeline.DefaultSettings | app.py:150-159 | dark theme, automatic language, saved memories on, chat history off |
| Pipeline.RouteFrom | app.py:408-459 | the format is asked for exactly when a file is wanted in an unknown format; the file link is taken exactly when a file was generated; past those, an image request takes the image link when generation succeeds and fails otherwise; then the cancel exit exactly when the flag is set; the plain reply exactly when none of these applies |
| Pipeline.CrashIff | app.py:372-450 | an accepted request fails exactly when the profile step raised, the prompt context could not be built, or image generation failed |
| Pipeline.RejectedChangesNothing | app.py:317-324 | an empty, too long or unroutable request is refused and changes nothing; it is refused as empty exactly when the message is missing or empty |
| Pipeline.AppendsOneBlock | app.py:326-474 | an accepted message adds exactly one block holding the cleaned message, and leaves every other block and chat untouched; the block index returned is the new block's |
| Pipeline.ReplyIsStored | app.py:411-469 | the text returned is the text stored; after a failure the block stays pending |
| Pipeline.CancelOnlyOnPlainPath | app.py:452-459 | the flag is cleared exactly when the cancel text is returned, which is the only answer without a block index |
| Pipeline.CancelledRoute | app.py:408-459 | the cancel exit is reached exactly when the flag is set, the message is no image request, and any wanted file has a known format but was not generated |
| Pipeline.MemoryFlag | app.py:415-474 | the memory flag is false on the format and image exits, true on the file exit, and elsewhere says whether a sentence was appended |
| Pipeline.NamedOnlyByFirstMessage | app.py:464-468 | a chat's name changes only on the plain path, only when the chat had no blocks before, and then it is the suggested name |
| Pipeline.ProfileIndependentOfRoute | app.py:355-370 | the profile change does not depend on the exit taken |
| Pipeline.HistoryEndsWithPending | app.py:386-393 | the history sent ends with the new message and its pending response |
| Pipeline.CancelFlags.constructor | app.py:282-285 | no flag is raised at start |
| Pipeline.CancelFlags.Cancel | app.py:282-285 | raises the flag for the id, whatever the id |
| Pipeline.CancelFlags.Clear | app.py:454 | lowers the flag for the id |
| Pipeline.UpdateProfile | app.py:355-370 | the store, the updated facts and the flags after the two extractors are those of the profile specification |
| Pipeline.Classify | app.py:408-453 | the exit is the one the specification routes to |
| Pipeline.Exit | app.py:408-474 | the writes of each exit give the world and the answer of the specification |
| Pipeline.SendMessage | app.py:315-474 | the chats, profiles, cancel flags and answer after the handler are those of the specification, including the failure when referenced memories are not iterable or the history cannot be built |
| Pipeline.UnreadableMemoriesFail | app.py:372-383 | referenced saved memories that are a non-zero number or `true`, left in place by both extractors, make the handler fail with the new block pending and the profiles unchanged |
| Feedback.PutGet | app.py:584 | reading a key just written gives the value written; other keys keep their values and their presence |
| Feedback.PutDistinct | app.py:584 | writing keeps the keys of a dictionary distinct |
| Feedback.GetSnoc | app.py:616 | a lookup in a dictionary with one more pair at its end |
| Feedback.UpsertSpec | app.py:586-605 | with a match only the first matching record changes, in its feedback, comment and timestamp; without one the record is appended; afterwards the first record for the pair carries the new values |
| Feedback.UpsertRecord | app.py:586-605 | the loop stopping at the first match gives the upserted list |
| Feedback.AddFeedbackSpec | app.py:572-608 | the user's topic holds the new record; every other topic and user is unchanged; the dictionaries stay well formed |
| Feedback.FeedbackStore.constructor | app.py:583 | the store holds the loaded feedback |
| Feedback.FeedbackStore.Add | app.py:572-608 | the store becomes the result of `add_feedback` |
| Feedback.CountBounded | app.py:617-621 | positives and negatives together never exceed the number of records |
| Feedback.AddTopicsGet | app.py:615-621 | adding a user's topics changes only the entry of a topic the user has, by that topic's counts |
| Feedback.StatsTotal | app.py:610-622 | a topic's entry holds the positives and negatives of its records, summed over all users |
| Feedback.StatsKeys | app.py:614-616 | the topics in the statistics are exactly those some user has, including topics with no counts |
| Feedback.CountRecords | app.py:617-621 | the increments over a list give its counts |
| Feedback.CountTopic | app.py:616-621 | one topic's list is added into the statistics |
| Feedback.CountTopics | app.py:615-621 | one user's topics are added into the statistics |
| Feedback.FeedbackStats | app.py:610-622 | the nested loops compute the statistics of the specification |
| Frontend.SliceFromStart | static/script.js:739 | a prefix of the string |
| Frontend.TruncateChatName | static/script.js:738-740 | a name within the limit is kept; a longer one becomes exactly `maxlen` characters ending in `...` when `maxlen >= 3`, and otherwise is a prefix of the name followed by `...` |
| Frontend.FenceAt | static/script.js:286 | a match ends inside the text, and its code never contains a closing fence |
| Frontend.ExtractCodeBlocks | static/script.js:285-290 | the text and the blocks are those of the global replace: each fence becomes the placeholder of its block |
| Frontend.ExtractedCodeHasNoFence | static/script.js:286 | no stored block's code contains a fence |
| Frontend.NoFenceUnchanged | static/script.js:286-290 | text without a fence is unchanged, and no block is stored |
| Frontend.FenceOfBlock | static/script.js:286 | the fence pattern matches a whole fenced block: its language, then its code up to the closing fence |
| Frontend.EscapeIsEach | static/script.js:343 | because `&` is replaced first, the three passes escape each character exactly once |
| Frontend.EscapeRoundTrip | static/script.js:343 | decoding the escaped code gives the code back exactly |
| Frontend.EscapedHasNoAngles | static/script.js:343 | the escaped code contains no `<` and no `>` |
| Strings.DigitsRoundTrip | static/script.js:342 | reading back the digits of a number gives the number |
| Frontend.PlaceholderReadBack | static/script.js:289-342 | the placeholder written for block i is read back as i, whatever follows it |
| Frontend.ReinsertPlaceholder | static/script.js:341-344 | a placeholder is replaced by the element of the block it names, or an empty element when there is none |
| Frontend.FormatAIText | static/script.js:281-282 | a missing or empty text gives `''` |
| Frontend.FencedBlockRendered | static/script.js:281-347 | a message that is one fenced block comes out as one `<pre><code>` element with the block's class and the escaped code |
| Frontend.CancelReplyHasNoFeedback | static/script.js:357-372 | the cancel reply the back end returns gets no feedback buttons |
| Frontend.AutoMessagesHaveNoFeedback | static/script.js:356-372 | none of the nine automatic messages the page knows gets feedback buttons on a bot bubble |
| Frontend.JsIndex | static/script.js:207-209 | JavaScript indexing: a value only from 0 to `length - 1` |
| Frontend.BlockBubbles | static/script.js:206-212 | one user bubble with the selected variant; a bot bubble only when the selected response is a non-blank string |
| Frontend.RenderBlocks | static/script.js:206-213 | the loop draws the bubbles of the specification |
| Frontend.BubblesShape | static/script.js:206-213 | one user bubble per block and at most one bot bubble; no bot bubble is blank |
| Frontend.PendingBlockShowsOnlyUser | static/script.js:209-212 | a block whose response is pending shows only the user's message |

## Left out

- Reading and writing the data files (`load_data`, `save_data`, the feedback file) is not modelled. Each store starts from a given value, and `load_feedback`'s fallback to `{}` on a read error is that value.
- Locks, the periodic save thread, the `atexit` hook and the server's concurrency are not modelled. Handlers run one at a time, so the pending block is never read by a concurrent request.
- The model server, Stable Diffusion and DuckDuckGo calls are not modelled; their outcomes are inputs. The web search endpoint is left out because it only forwards to the search library.
- The document writers (PDF, text, CSV, JSON, Python, Word, Excel, PowerPoint) are left out, apart from the file name, the text they are given and the PDF bold segmentation. Each writer's success is one input.
- `bleach.clean`, `json.loads`, `uuid4`, `time.time`, `time.strftime`, `werkzeug`'s `secure_filename` and `str()` of non-string values are parameters.
- Files.FileText: the json and xlsx writers first try to parse the raw content as JSON or CSV; that parse is not modelled, only the text they fall back to.
- Upload, listing and download are left out, apart from `allowed_file` and the sanitised download path.
- The settings endpoints are left out (they replace the settings whole). The settings only matter to `send_message` through the two memory flags, which are a parameter.
- `list_chats` is left out: the store is a map, so insertion order is not modelled.
- The system prompt and the profile context sent to the model are free text and are not modelled. The history sent with them is.
- Profiles.Value: a dictionary is kept only as its keys, and a number, `true`, `false` or `null` only as its text and its truth value; nested values of a dictionary are not modelled.
- Feedback.Record: a feedback value is a string or missing; other JSON values are not modelled.
- Strings.Lower: lower-casing is modelled for ASCII and Latin-1 capitals only; other characters are kept.
- Strings.Strip: whitespace is the six ASCII whitespace characters; Unicode spaces are not trimmed.
- Profiles.GreetingsBeyondLength: the message is stripped of ASCII whitespace only (see Strings.Strip), while the greeting classes use Python's full Unicode `\s`; a message with a leading or trailing no-break space is therefore not trimmed as Python would.
- Frontend.FormatAIText: the markdown regular-expression chain between extraction and reinsertion is a parameter, and the DOM, the typewriter animation and the feedback widgets are not modelled.
- Frontend.TruncateChatName: lengths count code points, whereas JavaScript counts UTF-16 units; the two agree outside the astral planes.
- Strings.DigitsValue: `parseInt` is exact here; JavaScript loses precision past 2^53. Such an index is out of range either way.
- Classifier.UserWantsFile: the regular expression's `\b` uses a Latin-1 approximation of `\w`: ASCII word characters and the Latin-1 letters; superscripts, fractions and other scripts are not word characters.
