# Human-in-the-loop over Discord, modelled in Dafny

This project models the core of `final_working_version.py`. That program is an
MCP server speaking JSON-RPC 2.0 on stdin and stdout. Its `ask_human` tool posts
a question into a Discord thread and waits up to six hours for the watched user
to answer there. Its `report_to_human` tool only posts a message. One thread is
kept for the whole session and renamed as the conversation grows.

The model has six modules:

- `Text` (`text.dfy`): the Python string operations the program relies on.
  These are `str.strip()` over Python's whitespace set, `split` and `join` on
  one character, substring search, ASCII `lower()`, `replace`, slicing and
  `str(int)`. Partner lemmas connect them: `Join(Split(s, d), [d]) == s` and
  its converse, the substring search against contiguous slices, and digits
  read back to their number.
- `ThreadNaming` (`thread_naming.dfy`): `create_thread_name`. It is a total
  function plus a method that runs the source's delimiter and question loops,
  proved equal to the function.
- `TitleSynthesis` (`title_synthesis.dfy`): the parts of retitling that do not
  talk to Discord.
  - The keyword and question fallback, both as a function and as the source's
    nested loops.
  - What is kept of the title generator's answer.
  - The six-message window.
  - The counts at which a retitle is attempted.
- `Correlation` (`correlation.dfy`): the global `pending_questions` table as a
  class. It maps each thread to the future its asker waits on. It comes with
  the bot's inbound filter (`on_message`).
- `Session` (`session.dfy`): `HumanInDiscord` as a class with the source's
  fields. Its methods are `get_or_create_thread`, `report_message`, `ask` and
  `update_thread_title_if_needed`.
- `Dispatch` (`dispatch.dfy`): `MCPHandler.handle_request`, which routes a
  decoded request to a response with error codes -32601 and -32603 (section
  5.1 of the JSON-RPC 2.0 specification).

Discord, the title generator and the clock are not called. Each operation is
given their answers as values:

- A `Discord` value holds:
  - whether the user is found;
  - which threads are live;
  - what kind of channel the watched channel is, if it exists;
  - the created thread or the creation error;
  - a send error;
  - the generator's answer;
  - whether a rename fails.
- The replies that arrive while a question waits are a sequence of inbound
  messages. `Ask` feeds them one by one through the bot's `OnMessage`, the way
  the event loop would. When that sequence holds no reply for the thread, the
  six-hour wait times out.

Where one might expect otherwise, the model follows the code:

- A retitle is attempted at 6 messages and then at every multiple of ten (10,
  20, 30, ...), not at 16, 26, ...
- `.` is tried before `?`, so `"Why does my Discord bot crash on startup? It
  throws an error."` is named `"Why does my Discord bot crash on startup? It
  throws an error"`.
- A fallback title from a technical keyword alone is that keyword followed by
  `について`.

## Model

| member | source | states |
|---|---|---|
| Text.Strip | final_working_version.py:46-49 | `str.strip()`: the result is a contiguous piece of the input. It is empty exactly when the input is all whitespace, and otherwise starts and ends with a non-space. |
| Text.StripExact | final_working_version.py:46-49 | only whitespace lies before and after the piece `str.strip()` keeps, which with the non-space ends fixes the result |
| Text.StripStrip | final_working_version.py:65 | stripping twice is stripping once |
| Text.StripKeeps | final_working_version.py:65 | every non-space character of the input survives stripping |
| Text.StripIdentity | final_working_version.py:49 | text with no whitespace at either end is its own strip |
| Text.Split | final_working_version.py:49-55 | `s.split(d)`: at least one piece, no piece contains `d`, and the first piece is the text before the first `d` |
| Text.JoinSplit | final_working_version.py:49-55 | joining the pieces of a split with the separator gives back the text |
| Text.SplitJoin | final_working_version.py:49-55 | splitting a join of separator-free pieces gives back the pieces |
| Text.Join | final_working_version.py:154 | `sep.join(parts)`: empty for no parts, and it starts with the first part |
| Text.SplitKeeps | final_working_version.py:173-175 | every character other than the separator lands in some piece |
| Text.SplitPieceInfix | final_working_version.py:55 | every piece is a contiguous piece of the text |
| Text.OccursIsInfix | final_working_version.py:160-161 | the substring test `kw in text` holds exactly when `kw` occurs as a contiguous slice |
| Text.FirstWith | final_working_version.py:63-66 | the first item holding one of the marks: it is an item and holds a mark, and there is none exactly when no item holds a mark |
| Text.FirstWithAt | final_working_version.py:63-66 | when item `i` is the first to hold a mark, the search returns it |
| Text.Lower | final_working_version.py:160-161 | ASCII `lower()`: same length, each character lowered |
| Text.ReplaceChar | final_working_version.py:177 | `replace('\n', ' ')`: same length, only the replaced character changes |
| Text.Truncate | final_working_version.py:76-77 | `s[:n]`: a prefix of at most `n` characters, the whole text when it fits |
| Text.NatToString | final_working_version.py:199 | `str(n)`: non-empty decimal digits without a leading zero |
| Text.NatToStringValue | final_working_version.py:199 | the digits of `str(n)` read back as `n` |
| Text.IntToString | final_working_version.py:199 | `str(i)`: a minus sign exactly for a negative number, followed by digits that read back as the number's magnitude, with no leading zero |
| ThreadNaming.FirstLine | final_working_version.py:49 | `split('\n')[0]`: the prefix of the text up to the first line break, and the whole text when it has none |
| ThreadNaming.ChooseDelimiter | final_working_version.py:53-56 | the first of `.`, `!`, `?`, in that order, that occurs in the line, and none exactly when none occurs |
| ThreadNaming.NonBlank | final_working_version.py:55 | the kept sentences are never empty |
| ThreadNaming.NonBlankFrom | final_working_version.py:55 | every kept sentence is the stripped form of one split piece |
| ThreadNaming.Sentences | final_working_version.py:52-59 | there is always at least one sentence to choose from |
| ThreadNaming.SentenceInfix | final_working_version.py:52-59 | every sentence is a contiguous piece of the first line |
| ThreadNaming.PickIsInfix | final_working_version.py:62-69 | the picked sentence is empty or a contiguous piece of the line |
| ThreadNaming.PickSentence | final_working_version.py:62-69 | the first sentence holding `?`, stripped, which keeps its `?`; without one, the first sentence stripped |
| ThreadNaming.ThreadName | final_working_version.py:44-83 | the name has 1 to 100 characters and starts with a non-space. A blank question gives "AI Assistant Question". |
| ThreadNaming.NameIsPick | final_working_version.py:68-81 | the final length check never fires: the name is the pick cut to 100 characters, or the default when the pick is empty |
| ThreadNaming.NameFromQuestionPiece | final_working_version.py:49-77 | when the first line, split on its delimiter, has a piece holding `?`, the name is the first such piece, stripped and cut to 100 characters |
| ThreadNaming.NameFromFirstPiece | final_working_version.py:49-77 | when no piece holds `?`, the name is the first piece that strips to something, stripped and cut to 100 characters |
| ThreadNaming.NameFromBlankPieces | final_working_version.py:49-77 | when every piece strips to nothing, the name is the whole first line, stripped and cut to 100 characters |
| ThreadNaming.FirstQuestionPiece | final_working_version.py:55-66 | the first piece holding `?` gives the first kept sentence holding `?` |
| ThreadNaming.NoQuestionPiece | final_working_version.py:55-66 | pieces without `?` give kept sentences without `?` |
| ThreadNaming.NameFromFirstLine | final_working_version.py:49-77 | the name is the default or a contiguous piece of the first line of the stripped question, so it never contains a line break |
| ThreadNaming.NameWithoutDelimiter | final_working_version.py:53-59 | a first line without `.`, `!` or `?` is used whole, stripped and cut to 100 characters |
| ThreadNaming.LongQuestionIsCut | final_working_version.py:76-77 | 150 `a`s give 100 `a`s |
| ThreadNaming.PeriodBeforeQuestionMark | final_working_version.py:53-56 | `.` is tried before `?`. A line whose only `.` ends it is named by the whole line without that period, even with a `?` inside. |
| ThreadNaming.DiscordExample | final_working_version.py:53-66 | "Why does my Discord bot crash on startup? It throws an error." is named without its final period only, not cut at the `?` |
| ThreadNaming.SplitSentences | final_working_version.py:52-59 | the delimiter loop with `break` computes `Sentences` |
| ThreadNaming.FindQuestion | final_working_version.py:62-66 | the question loop returns the first sentence holding `?`, stripped, or nothing |
| ThreadNaming.CreateThreadName | final_working_version.py:44-83 | the step-by-step derivation equals `ThreadName` |
| TitleSynthesis.KeywordsLowercase | final_working_version.py:157-161 | every keyword is already lower case, so `kw.lower()` is `kw` |
| TitleSynthesis.Found | final_working_version.py:160-161 | a keyword is found exactly when it is in the list and occurs in the lowered text |
| TitleSynthesis.FoundFirst | final_working_version.py:163-169 | the first found keyword is the first one in list order that occurs, wherever it sits in the text |
| TitleSynthesis.ScanQuestions | final_working_version.py:171-179 | a sentence the question search returns holds `?` or `？` |
| TitleSynthesis.ScanFindsFirstQuestion | final_working_version.py:171-179 | the search returns the first question sentence of the first message holding a question mark, and never moves past that message |
| TitleSynthesis.QuestionSurvivesStrip | final_working_version.py:176-178 | a question sentence never strips to nothing, so its cleaned form is a valid name |
| TitleSynthesis.FirstMessages | final_working_version.py:171 | `messages[:3]` is a prefix of at most three messages |
| TitleSynthesis.QuestionInText | final_working_version.py:154-172 | a question mark in the first three messages is a question mark in the joined text |
| TitleSynthesis.FallbackTitle | final_working_version.py:152-182 | the fallback title always has 1 to 100 characters |
| TitleSynthesis.KeywordTitle | final_working_version.py:160-169 | with a technical keyword present, the title is built from the first action keyword and the first technical keyword in list order. With no action keyword it is `<tech>について`. |
| TitleSynthesis.QuestionTitle | final_working_version.py:170-182 | without keywords, the title is the cleaned first question sentence of the first three messages. Question marks only in later messages give "AI Assistant Question". |
| TitleSynthesis.FallbackTitleGeneration | final_working_version.py:152-182 | the keyword filters and the nested loops compute `FallbackTitle` |
| TitleSynthesis.QuestionLoop | final_working_version.py:171-179 | the nested loops with early return compute the cleaned result of `ScanQuestions` |
| TitleSynthesis.CleanSentence | final_working_version.py:177-179 | the cleaned sentence is the stripped sentence with each line break turned into a space, cut to 100 characters: its length is min(stripped length, 100), and it is empty exactly when the sentence is all whitespace |
| TitleSynthesis.GeneratedTitle | final_working_version.py:139-150 | an answer is kept exactly when there is one and it is not empty. A kept answer is its stripped text cut to 100 characters, a contiguous piece of the answer, and empty exactly when the answer is all whitespace. |
| TitleSynthesis.CleanAnswerKept | final_working_version.py:139-145 | an answer with no surrounding whitespace and at most 100 characters is kept as it is |
| TitleSynthesis.AnalyzeConversation | final_working_version.py:85-100 | with fewer than 6 messages there is no title. Otherwise there always is one, of 1 to 100 characters: the generated title when the answer is not blank, else the fallback over the last six messages. |
| TitleSynthesis.WindowTitle | final_working_version.py:94-100 | the title chosen from the six recent messages has 1 to 100 characters. It is the generated title when the answer is not blank, and otherwise the fallback over those messages. |
| TitleSynthesis.OnlyRecentMessagesCount | final_working_version.py:91 | messages older than the last six never change the title |
| TitleSynthesis.TitleCheckDue | final_working_version.py:257 | a retitle at 6, none below 6 or between 7 and 9; from 10 on, exactly at multiples of ten |
| TitleSynthesis.NextTitleCheck | final_working_version.py:257 | the next count at which a retitle is attempted, with no due count in between and at most 9 counts ahead |
| TitleSynthesis.TitleCheckCounts | final_working_version.py:304 | retitles are attempted at 6, 10, 20 and 30, and not at 5, 7, 16 or 26 |
| Correlation.ReplyTarget | final_working_version.py:343-351 | a message answers a thread exactly when all of these hold: it is not the bot's own, it is in a thread whose parent is the watched channel, and its author is the watched user. The thread is the message's channel. |
| Correlation.FirstReply | final_working_version.py:343-355 | the content of the first message answering the thread, and none exactly when no message does |
| Correlation.FirstReplyAppend | final_working_version.py:352-355 | a later message does not displace an earlier answer |
| Correlation.CorrelationTable.constructor | final_working_version.py:28 | the table starts empty |
| Correlation.CorrelationTable.Register | final_working_version.py:293-294 | a fresh waiting future, which replaces any entry the thread already had |
| Correlation.CorrelationTable.Resolve | final_working_version.py:352-355 | the entry is popped, and its future takes the reply exactly when it is still waiting. Settled futures never change. |
| Correlation.CorrelationTable.Expire | final_working_version.py:308-309 | on timeout the asker's future is cancelled if still waiting, and the thread's entry is dropped |
| Correlation.Bot.OnMessage | final_working_version.py:343-355 | a message that answers no thread leaves the table unchanged. One that answers a thread resolves that thread's entry. |
| Correlation.Bot.constructor | final_working_version.py:330-338 | the bot keeps the watched channel and user, and shares the table |
| Correlation.SecondReplyIgnored | final_working_version.py:352-355 | a second reply in the same thread claims nothing |
| Correlation.ReplyOrTimeout | final_working_version.py:293-310 | the reply wins exactly when it comes first. After the timeout a late reply finds no entry. No entry is left behind either way. |
| Correlation.SecondQuestionTakesReply | final_working_version.py:294 | after a second registration for the same thread, the reply goes to the second question and the first future stays waiting |
| Session.HumanInDiscord.constructor | final_working_version.py:34-42 | no thread, title or channel kind yet, and an empty history; the bot watches the same channel and user as the session, as the two are built from the same arguments |
| Session.HumanInDiscord.GetOrCreateThread | final_working_version.py:184-226 | the cached-thread fields become `Acquire` of the old ones. A live cached thread is reused with its id and title unchanged. Without one, a missing channel raises "Channel <id> not found". Otherwise a new thread named `ThreadName(question)` becomes the cached one. |
| Session.HumanInDiscord.CreateThread | final_working_version.py:196-226 | the channel kind is recorded before creation, so it is recorded even when creation fails. The new thread's title is `ThreadName(question)`, and the fields become `Acquire` of the old ones. |
| Session.HumanInDiscord.OpenThread | final_working_version.py:204-226 | a created thread becomes the cached one, and a forum thread opens with the question as its first post |
| Session.HumanInDiscord.Publish | final_working_version.py:277-290 | the text joins the history and the count grows by one. The cached-thread fields become `Acquire` of the old ones even when the send then fails, so a created thread stays cached. On success the text appears exactly once more in the thread, sent or as a forum's opening post. The error raised is the one `PublishError` names. |
| Session.HumanInDiscord.UpdateThreadTitle | final_working_version.py:315-325 | the title becomes `Retitled` of the old one over the history, and nothing else changes |
| Session.HumanInDiscord.ReportMessage | final_working_version.py:228-264 | a missing user changes nothing and raises nothing. Otherwise the message is added and published, and the raised error is the publishing error. After a failure the thread fields are `Acquire` of the old ones. After success they are `AfterCount` of that, so the title is reconsidered only at a due count. |
| Session.HumanInDiscord.Ask | final_working_version.py:266-313 | a missing user gives "Error: User <id> not found" and changes nothing. A publishing failure gives "Error: <e>" and leaves the fields `Acquire` made. Otherwise the answer is the first reply by the watched user in the thread, added to the history, or the six-hour timeout text. An answered question then applies `AfterCount`, so the title is reconsidered only at a due count. Either way the thread's entry is gone afterwards. |
| Session.HumanInDiscord.Converse | final_working_version.py:296-310 | the reply, when there is one, is added to the history and the thread fields become `AfterCount` of the old ones. A timeout changes no field. |
| Session.HumanInDiscord.AwaitReply | final_working_version.py:293-310 | the routing loop yields exactly the first reply in the thread, leaves no entry for it, and never changes a settled future |
| Session.FirstReplyPrefix | final_working_version.py:297 | once a reply is found, later messages do not matter |
| Session.Reusable | final_working_version.py:187-192 | a cached thread is reused only when it is live, and an id of 0 never is, since Python treats 0 as false |
| Session.ChannelMissing | final_working_version.py:199 | "Channel <id> not found", with the id written by `str` |
| Session.UserMissing | final_working_version.py:275 | "Error: User <id> not found": an "Error: " answer, then "User ", then the id written by `str` |
| Session.PublishError | final_working_version.py:197-290 | on a reused thread only the send can fail. A missing channel raises "Channel <id> not found". A failed creation raises its own error. A new ordinary thread gets the text sent, so only that send can fail. A new forum thread opens with the text and never fails. |
| Session.Acquire | final_working_version.py:184-226 | the invariant of the cached-thread fields is kept. A live cached thread is kept as it is. A changed id is the created thread, named `ThreadName(question)`. Without a channel the channel kind is untouched. |
| Session.CreatedThreadReused | final_working_version.py:187-225 | a created thread that stays live is reused by the next call, whatever it is asked |
| Session.Retitled | final_working_version.py:315-325 | the title stays or becomes the produced title when the rename succeeds. It never changes before 6 messages or when the rename fails. A new title has 1 to 100 characters. |
| Session.AfterCount | final_working_version.py:257 | only the title may change, and only at a due count |
| Session.ReusedThreadKept | final_working_version.py:187-194 | a live cached thread keeps its id and title across a counted message when no retitle is due |
| Dispatch.Argument | final_working_version.py:416 | `arguments.get(key, "")` |
| Dispatch.MethodText | final_working_version.py:465 | a present method renders as itself, and a missing one as "None" |
| Dispatch.Route | final_working_version.py:363-466 | each route is taken exactly under its method and tool name condition. Everything else, including an unknown tool, is an unknown method. |
| Dispatch.UnknownToolIsUnknownMethod | final_working_version.py:411-466 | `tools/call` with an unknown tool is answered "Unknown method: tools/call" |
| Dispatch.FixedReply | final_working_version.py:363-466 | only `notifications/initialized` gets no response. `initialize` and `tools/list` get fixed results, and anything unknown gets -32601. The id is echoed. |
| Dispatch.AskReply | final_working_version.py:419-429 | `ask_human` always answers with a text result carrying `ask`'s answer |
| Dispatch.ReportReply | final_working_version.py:443-460 | `report_to_human` answers with an error exactly when reporting raised: -32603 "Internal error: <e>" |
| Dispatch.ErrorCodes | final_working_version.py:363-466 | every error response has code -32601 or -32603, and -32603 exactly on the report route |
| Dispatch.McpHandler.constructor | final_working_version.py:360-361 | the handler keeps the session it calls |
| Dispatch.McpHandler.HandleRequest | final_working_version.py:363-466 | requests that call no tool get `FixedReply` and leave the session untouched. `ask_human` answers with the text `ask` returns: the missing-user error, "Error: <e>", the first reply in the thread, or the timeout text. `report_to_human` answers -32603 exactly when reporting raised, and the fixed success text otherwise. With a missing user neither tool changes the session. Otherwise both pass on the new history, posts and thread fields (`Acquire`, then `AfterCount` once a counted message lands) that `ask` and `report_message` leave. |

## Left out

- Discord I/O is not called. This covers `get_channel`, `get_user`/`fetch_user`, `create_thread`, `send`, `edit` and the forum-channel test. Their answers are fields of the `Discord` value.
- Messages are assumed to be fully posted when a call reports success. A send that raises is taken to have posted nothing.
- Session.HumanInDiscord.constructor: requires the bot to watch the same channel and user as the session. `main` always builds the two from the same arguments (final_working_version.py:515-518). A session paired with a bot that watches something else is not modelled.
- `_generate_ai_title` (final_working_version.py:102-150) and the Gemini SDK are not modelled. The SDK's answer is the `generated` field, and only lines 139-145 (strip and cut) are modelled.
- asyncio is not modelled: futures, `wait_for` with its 21600-second bound, `sleep(timeout)` and `gather`. The time a question waits is the sequence of messages that arrive before the timeout.
- The model covers only one task at a time. Two tool calls running at once, with their interleaving, are not modelled. The consequences of an overwritten entry are shown by `SecondQuestionTakesReply`.
- `handle_stdin_input` and `main` (final_working_version.py:468-542) are not modelled. They cover JSON framing on stdin and stdout, argparse, the environment token and process exit. Logging is not modelled either.
- JSON typing is not modelled. The request's method, tool name and arguments are strings. On `tools/call`, a `params` that is not an object would raise before any response, and is not modelled; the other methods never read `params`. A `question` that is a list is sliced and passed on by the source rather than rejected, and is not modelled either.
- The `timeout` argument of `report_to_human` is not modelled. A numeric timeout raises nothing. A non-numeric one makes `asyncio.sleep` raise (final_working_version.py:254) after the message was counted and sent, and the client then gets -32603. The model's `ReportMessage` never fails at that point.
- Text.Strip: its own contract leaves out that only whitespace is removed. `Text.StripExact` proves that separately, because stating it on `Strip` slows every proof that uses `Strip`.
- Text.Lower: ASCII letters only. Python's `lower()` also folds non-ASCII letters. Every keyword is already lower case, so this matters only for the text being searched.
- Whether the cached thread is live (it resolves and is not archived) is an input. An exception raised while looking it up counts as "not live", as the source's bare `except` does.
- setup.py is packaging metadata only and is not part of this model.
