# Antigravity chat bridge: a verified model of the bridge core

The bridge connects a chat server to an AI coding backend ("Antigravity").
A user's message opens a backend session ("cascade") and a chat thread,
or resumes the session already bound to the thread. The bridge forwards
the message and then polls the session's full step list. Each planner
response is turned into chat messages in these steps:

- it extracts the text between `<discord_reply>` tags;
- it splits that text into 1900-character chunks;
- it grows a chain of reply messages so that each chunk has one;
- it edits each chunk into its message, rate-limited to one update per
  1500 ms while the turn runs, with a two-state activity indicator on the
  last chunk.

A finished response also raises an approve/reject panel for every
`<discord_review file="…">` marker whose file exists. Slash commands
switch the global model and mode, and model buttons select a model.
Behind all this sits the backend client. It discovers a CSRF token and a
listening port from command output, and it decodes and validates the
backend's replies.

The model is split into these modules:

- `Wrappers`: the `Option`, `Result` and `Outcome` datatypes.
- `Strings`: the JavaScript string operations the source relies on.
- `Json`: the backend's JSON values, truthiness and property access.
- `Rpc`: discovery, requests and reply validation. The mutable endpoint is
  the class `AntigravityClient`.
- `Directives`: reply extraction and the scanner for review markers.
- `Chunking`: the chunk loop and its round trip.
- `ChatModel`: the chat as messages with abstract handles, and the class
  `Chat` that sends and edits them.
- `Reconciler`: the streaming loop. Each imperative method is proved
  against a specification function.
- `StreamProperties`: what the loop guarantees.
- `GlobalConfig`: the configuration object, the `/mode` command, the model
  buttons and the selection panel.
- `Bot`: routing, authorization, the thread-to-session map and a whole
  conversation turn.

Time, file existence, the outcomes of backend calls and the chat service's
refusals of edits are all inputs. The clock at loop entry is `start`, and
the clock at step `j` of poll `i` is `clock(i, j)`. The chunk edits that
fail at that step are `failures(i, j)`. Which files exist is
`fileExists`. The backend's replies are `Transfer` values. A turn takes
the `makeRequest` replies of its `getCascadeSteps` calls, and `Rpc.Polls`
decodes them into the polls the loop reads.

Where the documented design and the code differ, the model follows the
code:

- The update time starts at loop entry, not at "never". A first changed
  response that arrives within 1500 ms of entry is therefore recorded but
  not shown (`StreamProperties.FirstResponseWithinWindowHidden`). The
  rate-limit `break` also skips the rest of that snapshot.
- Every planner step of a snapshot is processed in order, not only the
  latest one. A resumed session's snapshot replays earlier finished
  responses, so the new turn ends on its first poll
  (`StreamProperties.ResumedSessionEndsAtFirstPoll`).
- The update time is set before the edits are attempted. It counts even
  when every edit fails.
- The review buttons' handlers can never run, because the button handler
  returns for every id that does not start with `model_`. The model keeps
  that behaviour (`GlobalConfig.ReviewButtonsIgnored`).

## Model

| member | source | states |
|---|---|---|
| Strings.Trim | src/discordBot.ts:351 | `trim()` has no white space at either end and is never longer than its input |
| Strings.TrimBlank | src/discordBot.ts:89 | `trim()` is empty exactly when the text is all white space, so `!s.trim()` tests blankness |
| Strings.TrimIsInfix | src/discordBot.ts:351 | what `trim()` removes is white space before and after the infix it keeps |
| Strings.TrimPadded | src/discordBot.ts:351 | trimming a text padded with white space gives the text back |
| Strings.TrimIdempotent | src/antigravityClient.ts:39 | trimming twice is trimming once |
| Strings.IndexOf | src/discordBot.ts:345-349 | `indexOf(pat, from)` is -1 or an index at or after `from` where the pattern fits in the text |
| Strings.IndexOfFirst | src/discordBot.ts:345-349 | `indexOf(pat, from)` returns an occurrence and skips none: there is none between `from` and its result, and none at all after `from` when it returns -1 |
| Strings.IndexOfIs | src/discordBot.ts:345-349 | the first occurrence at or after `from` is what `indexOf` returns |
| Strings.Includes | src/antigravityClient.ts:45 | `includes` is true exactly when the pattern occurs somewhere |
| Strings.Split | src/antigravityClient.ts:36 | `split(sep)` gives at least one piece, no piece holds the separator, and joining the pieces gives the text back |
| Strings.SplitJoin | src/antigravityClient.ts:36 | separator-free pieces, joined and split again, come back unchanged |
| Strings.LowerAscii | src/discordBot.ts:67 | `toLowerCase()` on the ASCII letters: the length is kept, no capital A-Z is left, each capital becomes its small letter and every other character is kept |
| Strings.LowerAsciiIdempotent | src/discordBot.ts:67 | lowering a lowered text changes nothing |
| Strings.ReplaceChar | src/discordBot.ts:254 | `replace(/\n/g, ' ')` keeps the length, leaves no line break, puts a space for each line break and keeps every other character |
| Strings.ReplacePrefix | src/discordBot.ts:105 | `replace('model_', '')` on an id that starts with `model_` leaves the rest of the id |
| Strings.NatToStringRoundTrip | src/antigravityClient.ts:95 | the decimal rendering of a status reads back as the same number |
| Json.Lookup | src/antigravityClient.ts:123 | a property read finds the last member with that key, or nothing when no member has it |
| Json.Get | src/antigravityClient.ts:123 | a property read on anything but an object is `undefined` |
| Rpc.FindCsrfToken | src/antigravityClient.ts:21-27 | a token found by `/--csrf_token\s+([a-zA-Z0-9]+)/` is a non-empty alphanumeric run |
| Rpc.CsrfTokenFound | src/antigravityClient.ts:21-23 | the alphanumeric run written after the flag and white space is the token found |
| Rpc.NoFlagNoToken | src/antigravityClient.ts:21-27 | without the flag in the output there is no token, so initialization fails |
| Rpc.AddressPort | src/antigravityClient.ts:46-47 | a port found by `/127\.0\.0\.1:(\d+)/` is a non-empty digit run |
| Rpc.TrimmedNonEmpty | src/antigravityClient.ts:39 | the pid list keeps only trimmed, non-empty pieces, in order |
| Rpc.ParsePids | src/antigravityClient.ts:39 | every process id is trimmed and non-empty |
| Rpc.FirstPortIsFirst | src/antigravityClient.ts:41-54 | the port settled on is that of the first qualifying line, and there is one exactly when some line qualifies |
| Rpc.FindPort | src/antigravityClient.ts:41-54 | the nested scan returns the port of the first non-blank line that matches some pid and names a loopback port; a matching line without an address does not stop it; it finds nothing exactly when no line qualifies |
| Rpc.BuildRequest | src/antigravityClient.ts:80-87 | every request carries the JSON content type, protocol version 1, the CSRF token and the payload |
| Rpc.RequestPathNamesMethod | src/antigravityClient.ts:80 | the path is `/<service>/<method>`: split at `/` it gives back exactly the service and the method |
| Rpc.DecodeResponse | src/antigravityClient.ts:94-101 | a reply fails exactly when its status is not 200, and then with that status and body; a 200 reply is the parsed body, or the raw text when it does not parse |
| Rpc.HttpMessageRoundTrip | src/antigravityClient.ts:95 | the error text `HTTP <status>: <body>` holds the status and the body recoverably |
| Rpc.PayloadsCarrySessionLabel | src/antigravityClient.ts:113-120 | the start and poll payloads carry the session label `discord-bridge-session`, the request id and the cascade id |
| Rpc.CascadeIdOf | src/antigravityClient.ts:122-126 | `startCascade` succeeds exactly when the reply has a truthy `cascadeId`, and returns that value; otherwise it fails with the reply |
| Rpc.StepsOf | src/antigravityClient.ts:163 | `res.steps \|\| []` is the steps value when it is truthy and the empty list otherwise |
| Rpc.DecodeStep | src/discordBot.ts:292-294 | a null step fails; type and status are its string properties; a non-planner step has text ""; a planner step's text is its non-empty string `plannerResponse?.response`, "" when that is missing or falsy, and a truthy non-string response fails the step |
| Rpc.PlannerStepText | src/discordBot.ts:292-294 | a planner step as the backend sends it decodes to its status and its response text |
| Rpc.DecodeEach | src/discordBot.ts:291 | a decoded snapshot has one step per element, each the element decoded; a failure comes from a malformed element |
| Rpc.DecodeAll | src/discordBot.ts:291 | decoding a list succeeds with one value per element, each that element decoded, or fails with the error of some element |
| Rpc.DecodeSteps | src/discordBot.ts:289-291 | an array is iterated element by element, a string yields no steps, any other value is not iterable |
| Rpc.PollSteps | src/antigravityClient.ts:162-163 | a failed request fails the poll with its error, a `null` reply fails it as a null reply, and otherwise `res.steps \|\| []` is decoded |
| Rpc.MissingStepsIsEmptyPoll | src/antigravityClient.ts:163 | a reply without `steps` is a poll with no steps |
| Rpc.AntigravityClient.constructor | src/antigravityClient.ts:9-10 | port and token start unset |
| Rpc.AntigravityClient.Initialize | src/antigravityClient.ts:14-64 | each failed discovery stage fails with its own error; the token is stored before the port search and kept when that search fails; the port is the first qualifying line's |
| Rpc.AntigravityClient.MakeRequest | src/antigravityClient.ts:67-108 | an uninitialized client fails before any request is sent; otherwise it sends the built request and returns the transport error or the decoded reply |
| Rpc.AntigravityClient.StartCascade | src/antigravityClient.ts:111-127 | posts exactly when the client is ready (a refused call opens no connection), to `StartCascade` with the labelled payload; a refused call fails as not initialized; a connection error fails with it; a reply fails with its HTTP error or yields `CascadeIdOf` of the decoded body |
| Rpc.AntigravityClient.GetCascadeSteps | src/antigravityClient.ts:151-164 | posts exactly when the client is ready (a refused call opens no connection), to `GetCascadeTrajectorySteps`; a refused call fails as not initialized; a connection error fails with it; a reply fails with its HTTP error or yields `StepsOf` of the decoded body |
| Rpc.AntigravityClient.SendUserMessage | src/antigravityClient.ts:129-149 | posts exactly when the client is ready (a refused call opens no connection), to `SendUserCascadeMessage` with the cascade, the text and the model; a refused call fails as not initialized; a connection error fails with it; a non-200 status fails with that status and body; a 200 reply passes |
| Rpc.TokenWithoutPortRefuses | src/antigravityClient.ts:14-70 | a fresh client whose port discovery fails reports the missing port and keeps the token it found, yet refuses its next request as not initialized without sending it |
| Directives.ExtractTagged | src/discordBot.ts:340-363 | the extracted reply is trimmed at both ends and never longer than the response |
| Directives.Section | src/discordBot.ts:345-358 | the untrimmed section (after the open tag, before the close tag, the whole response when finished without an open tag, or nothing) is never longer than the response |
| Directives.IndexOfShift | src/discordBot.ts:349 | a search that starts inside a suffix finds what the search of the suffix finds, shifted by the prefix |
| Directives.FirstOccurrenceAfter | src/discordBot.ts:345 | `indexOf` of a tag finds it right after a prefix that does not contain it |
| Directives.FirstOccurrenceFrom | src/discordBot.ts:349 | the search for the close tag from the content start finds it right after a body that does not contain it |
| Directives.SectionBetween | src/discordBot.ts:345-351 | for tags whose first character does not recur in them, the section cut from a response is exactly the text between the first open tag and the first close tag after it |
| Directives.SectionUnclosed | src/discordBot.ts:349-354 | with no close tag after the content start, the section runs to the end of the response |
| Directives.TaggedBetween | src/discordBot.ts:345-351 | for any such pair of tags, the extraction is the trimmed text between them |
| Directives.TaggedAfterOpen | src/discordBot.ts:345-354 | for any such open tag, an unclosed text is extracted trimmed up to the end |
| Directives.ReplyBetweenTags | src/discordBot.ts:345-351 | with an open tag and a close tag after it, the reply is the trimmed text between the first open tag and the first close tag after it, finished or not |
| Directives.ReplyAfterOpenTag | src/discordBot.ts:345-354 | with an open tag and no close tag after it, the reply is the trimmed rest of the response |
| Directives.ReplyWithoutTags | src/discordBot.ts:355-363 | without an open tag, a finished response shows its trimmed text and a running one shows nothing |
| Directives.DisplayText | src/discordBot.ts:365-367 | the shown text is never blank: the extracted reply, or the "Processing task" placeholder exactly when the reply is empty |
| Directives.ReviewAt | src/discordBot.ts:300 | a marker match starts at `<discord_review` and captures a non-empty path without quotes |
| Directives.ReviewPaths | src/discordBot.ts:300-303 | every captured path is non-empty and quote-free |
| Directives.MarkerAt | src/discordBot.ts:300 | a match of the marker syntax starts with its head, captures a non-empty path without quotes and consumes at most the text |
| Directives.ScanPaths | src/discordBot.ts:300-303 | every path the global scan captures is non-empty and quote-free |
| Directives.MarkerForMatched | src/discordBot.ts:300 | a marker written in the syntax, followed by any text, is matched with its path captured and exactly its own length consumed |
| Directives.ReviewAtMarker | src/discordBot.ts:300 | a `<discord_review file="…">` marker followed by any text is matched, with its path captured and its whole length consumed |
| Directives.ScanSkipText | src/discordBot.ts:302 | text in which no copy of the marker head starts yields no match and is skipped |
| Directives.HeadFreeGap | src/discordBot.ts:302 | no copy of the head starts in text without the head's first character |
| Directives.AbsentGap | src/discordBot.ts:302 | when the head's first character does not recur in it, no copy starts in text that holds no whole head and runs up to the head's first character or to the end |
| Directives.ReviewHeadUnrepeating | src/discordBot.ts:300 | `<` does not recur in `<discord_review` |
| Directives.ScanMarkedText | src/discordBot.ts:300-303 | the scan of markers separated by gaps holding no whole head returns exactly their paths, in text order |
| Directives.ReviewPathsSkipText | src/discordBot.ts:302 | text without `<` yields no match and is skipped; so does text holding no `<discord_review` that runs up to the next `<` or to the end |
| Directives.ReviewPathsOfDocument | src/discordBot.ts:300-303 | the scan returns exactly the paths of the markers of a response, in text order, when the text between markers holds no `<discord_review` (it may hold `<discord_reply>` tags) |
| Chunking.Chunks | src/discordBot.ts:370-375 | there is at least one chunk, and the first one is the text's first 1900 characters |
| Chunking.ChunksFrom | src/discordBot.ts:370-375 | from any index, the chunks are the next 1900 characters followed by the chunks of the rest, or the remainder alone when it fits |
| Chunking.ChunksConcat | src/discordBot.ts:370-375 | the chunks laid end to end give the text back |
| Chunking.ChunksOfConcat | src/discordBot.ts:370-375 | pieces cut the way the loop cuts are what the loop returns for their concatenation |
| Chunking.ChunksSizes | src/discordBot.ts:370-375 | every chunk has at most 1900 characters, and all but the last exactly 1900 |
| Chunking.ChunksCount | src/discordBot.ts:370-375 | there are max(1, ceil(length / 1900)) chunks |
| Chunking.ChunksOfNonEmptyText | src/discordBot.ts:372-373 | no chunk of a non-empty text is empty |
| Chunking.SplitChunks | src/discordBot.ts:370-375 | the index loop with its fallback single chunk computes the chunks |
| ChatModel.Posted | src/discordBot.ts:269 | a posted message is fresh, holds the text and answers nothing |
| ChatModel.Replied | src/discordBot.ts:378 | a reply is a fresh message holding the text and answering the parent; nothing else changes |
| ChatModel.Edited | src/discordBot.ts:388-390 | an edit replaces the message's text when it goes through and otherwise changes nothing; no message appears or disappears |
| ChatModel.WithPanel | src/discordBot.ts:319-324 | a panel is appended and the messages are unchanged |
| ChatModel.Chat.Post | src/discordBot.ts:269 | sending updates the chat as `Posted` says |
| ChatModel.Chat.Reply | src/discordBot.ts:378 | replying updates the chat as `Replied` says |
| ChatModel.Chat.Edit | src/discordBot.ts:388-390 | editing updates the chat as `Edited` says |
| ChatModel.Chat.SendPanel | src/discordBot.ts:319-324 | sending a panel updates the chat as `WithPanel` says |
| Reconciler.Flip | src/discordBot.ts:385 | each flip changes the indicator |
| Reconciler.PanelsFor | src/discordBot.ts:302-318 | at most one panel per marker; each panel answers the last message, names an existing file, and both its buttons carry the session id |
| Reconciler.PanelsForExactlyExisting | src/discordBot.ts:302-304 | a file that exists gets a panel, and a missing one gets none |
| Reconciler.PanelsForNext | src/discordBot.ts:302-318 | one more marker adds one panel, for its file, exactly when that file exists |
| Reconciler.PanelsForDocument | src/discordBot.ts:299-329 | for a response whose text between markers holds no `<discord_review` and whose marked files all exist, there is exactly one panel per marker, in text order |
| Reconciler.AllExistingPanels | src/discordBot.ts:304-318 | when every file exists there is one panel per file, in order |
| Reconciler.RaiseReviewPanels | src/discordBot.ts:299-329 | the scan loop appends exactly those panels and changes no message |
| Reconciler.Grow | src/discordBot.ts:377-380 | after growth there are at least as many messages as chunks |
| Reconciler.Render | src/discordBot.ts:340-391 | an update never shortens the chain, and the indicator flips exactly when the turn runs |
| Reconciler.RenderResponse | src/discordBot.ts:340-391 | the chunk, growth and edit loops compute `Render` |
| Reconciler.ProcessStep | src/discordBot.ts:292-392 | a step never shortens the chain |
| Reconciler.HandleStep | src/discordBot.ts:292-392 | the step body computes `ProcessStep`, including the rate-limit break |
| Reconciler.Snapshot | src/discordBot.ts:291-394 | a snapshot never shortens the chain |
| Reconciler.Run | src/discordBot.ts:288-404 | the loop never shortens the chain |
| Reconciler.PollStepsAndStream | src/discordBot.ts:282-406 | the nested poll and step loops compute `Run` from the entry state, ending on a finished turn, a failed poll or the last poll |
| StreamProperties.GrowAppends | src/discordBot.ts:377-380 | growth only appends fresh messages, each a "..." reply to the one before; existing messages, replies and panels are unchanged |
| StreamProperties.GrowNew | src/discordBot.ts:377-380 | growth keeps the chain as a prefix and adds fresh "..." messages, each a reply to the one before |
| StreamProperties.GrowKeeps | src/discordBot.ts:377-380 | growth changes no existing message text, reply link or panel |
| StreamProperties.EditFromKeys | src/discordBot.ts:382-391 | the edits change message texts only |
| StreamProperties.EditFromOthers | src/discordBot.ts:382-391 | a message that holds none of the chunks keeps its text |
| StreamProperties.EditFromAt | src/discordBot.ts:382-391 | chunk `l`, as shown, lands in message `l` unless its edit fails |
| StreamProperties.ConcatShown | src/discordBot.ts:382-387 | the shown chunks laid end to end are the text plus the indicator only while the turn runs, so only the last chunk carries it |
| StreamProperties.ChainEffect | src/discordBot.ts:377-391 | after growth and edits, each chunk is in the message with its index unless its edit failed (then the old text, or "..." for a new message); messages past the chunks are unchanged |
| StreamProperties.RenderEffect | src/discordBot.ts:340-391 | one update keeps the chain well formed and its prefix, shows each chunk of the display text, and flips the indicator only while the turn runs |
| StreamProperties.RenderShowsText | src/discordBot.ts:340-391 | when no edit fails, the chunk messages read in order show exactly the display text, followed by the indicator while the turn runs |
| StreamProperties.OtherStepsIgnored | src/discordBot.ts:292 | a step that is not a planner response changes nothing |
| StreamProperties.UnchangedTextSkipped | src/discordBot.ts:332 | while the turn runs, unchanged text makes no edit, no panel and no message |
| StreamProperties.RateLimitedStep | src/discordBot.ts:332-337 | changed text within 1500 ms of the last update is recorded as reported, not shown, and ends the snapshot |
| StreamProperties.ChangedStepShown | src/discordBot.ts:332-391 | changed text outside the window is shown; the update time becomes now and the indicator flips |
| StreamProperties.DoneStepFlushes | src/discordBot.ts:296-391 | a finished response is always shown, whatever the clock; every chunk is shown without the indicator, and one panel per existing marked file answers the last message |
| StreamProperties.PanelsOnlyWhenDone | src/discordBot.ts:296-329 | panels are raised only for a finished planner response |
| StreamProperties.StepPreserves | src/discordBot.ts:292-392 | a step keeps the chain well formed and append-only; once done, the turn stays done; a rate-limited step leaves the chat unchanged |
| StreamProperties.SnapshotPreserves | src/discordBot.ts:291-394 | a snapshot keeps the chain well formed and append-only and never undoes the end of the turn |
| StreamProperties.SnapshotWithDoneFirst | src/discordBot.ts:291-297 | a snapshot whose first step is a finished response ends the turn |
| StreamProperties.RunAppendOnly | src/discordBot.ts:288-404 | the whole loop keeps the chain well formed and append-only |
| StreamProperties.RunStopsAtDone | src/discordBot.ts:288-404 | the loop stops at the first poll that ends the turn; later polls are never read |
| StreamProperties.ResumedSessionEndsAtFirstPoll | src/discordBot.ts:288-297 | a snapshot that starts with an earlier finished response ends the new turn on its first poll |
| StreamProperties.FirstResponseWithinWindowHidden | src/discordBot.ts:282-337 | because the update time starts at entry, a first changed response within 1500 ms of entry is not shown |
| GlobalConfig.FirstEntry | src/discordBot.ts:109-114 | the search returns the first entry with the key, or nothing when no entry has it |
| GlobalConfig.ModelMapDistinct | src/discordBot.ts:6-15 | no two models share a display name or an id |
| GlobalConfig.ReverseLookupInverts | src/discordBot.ts:107-114 | the reverse lookup of every id in the table is its display name |
| GlobalConfig.UnknownIdsHaveNoName | src/discordBot.ts:108 | an id not in the table is named "Unknown Model" |
| GlobalConfig.ModeModels | src/discordBot.ts:70-75 | the mode commands select the ids the table gives "Gemini 3.1 Pro (High)" and "Gemini 3 Flash" |
| GlobalConfig.ModeArgOf | src/discordBot.ts:67 | the argument is the word after `/mode `, lower-cased, whatever follows it |
| GlobalConfig.WordOf | src/discordBot.ts:70-78 | the argument is read as planning, fast or auto exactly when it is that word |
| GlobalConfig.ModeTransitions | src/discordBot.ts:66-85 | planning sets Planning, M37 and its name; fast sets Fast, M18 and its name; auto toggles only the flag; anything else changes nothing and replies "Invalid mode" |
| GlobalConfig.AutoTwiceRestores | src/discordBot.ts:78-79 | two auto commands restore the configuration |
| GlobalConfig.ButtonPressSelects | src/discordBot.ts:102-118 | `model_<id>` selects the id and its looked-up name and keeps the mode and the flag; a bare `model_` changes nothing |
| GlobalConfig.ReviewButtonsIgnored | src/discordBot.ts:102-103 | the review buttons change nothing |
| GlobalConfig.Buttons | src/discordBot.ts:166-170 | there is one button per model |
| GlobalConfig.ButtonsOf | src/discordBot.ts:166-170 | there is one button per table entry, in order, each the button for its entry |
| GlobalConfig.PanelRows | src/discordBot.ts:163-180 | the row loop, with its flush every five buttons and its final partial row, builds the rows of five of the buttons |
| GlobalConfig.RowsFlatten | src/discordBot.ts:163-180 | read row by row, the panel holds every button once, in order |
| GlobalConfig.RowsSizes | src/discordBot.ts:163-180 | every row holds one to five buttons, every row but the last exactly five, and there are ceil(n / 5) rows |
| GlobalConfig.PanelShape | src/discordBot.ts:163-180 | the eight models give rows of five and three, and exactly the current model's button is selected |
| GlobalConfig.PanelButtonSelects | src/discordBot.ts:166-170 | pressing a panel button selects that entry's id and display name |
| GlobalConfig.GlobalState.constructor | src/discordBot.ts:17-22 | the configuration starts as Gemini 3.1 Pro (High), Planning, auto-approve off |
| GlobalConfig.GlobalState.SetMode | src/discordBot.ts:66-85 | the command's assignments and its reply follow `ModeCommand` |
| GlobalConfig.GlobalState.SelectModel | src/discordBot.ts:102-118 | the button handler's assignments follow `ButtonPress` |
| GlobalConfig.GlobalState.SelectionRows | src/discordBot.ts:163-180 | the row loop builds the rows of five of the current buttons |
| Bot.RoutingGates | src/discordBot.ts:55-91 | bot messages are ignored and messages from users who are not allowed are blocked; only a permitted human reaches a command; a message reaches the conversation exactly when it is no command and not blank |
| Bot.ModeIsNotModels | src/discordBot.ts:62-66 | `/mode …` is never taken for `/models` |
| Bot.ThreadNameShape | src/discordBot.ts:254-255 | a thread name starts with "Task: ", has no line break, has 7 to 36 characters, and holds the text's first 30 characters with line breaks made spaces; only an empty text gets the fallback |
| Bot.BindResumes | src/discordBot.ts:237-248 | a thread with a session resumes it and starts no new one |
| Bot.BindStarts | src/discordBot.ts:237-266 | otherwise one session is requested; on success the thread (the new one for a channel message) is bound to it; on failure the map is unchanged; no other binding changes |
| Bot.BoundThreadResumes | src/discordBot.ts:237-266 | a session bound by one message is resumed by the next message in that thread |
| Bot.AnnounceEffect | src/discordBot.ts:248-269 | the tracking message is new and says "Thinking…"; in a thread it answers the user's message; no existing message changes |
| Bot.FailedStartChangesNothing | src/discordBot.ts:243-251 | a session that cannot be started leaves the map and the chat unchanged |
| Bot.FailedSendShowsError | src/discordBot.ts:273-279 | a message that cannot be forwarded turns the tracking message into the error text |
| Bot.ForwardedTurnStreams | src/discordBot.ts:273-279 | a forwarded message is streamed into a chain that starts with the tracking message, in the bound session; a failed poll turns the tracking message into the error |
| Bot.ForwardedTurnKeepsChat | src/discordBot.ts:233-279 | a forwarded turn leaves the chat well formed, the map as `Bind` says, and a tracking message that is new and still present at the end, after the loop or the error edit |
| Bot.StreamKeepsTracking | src/discordBot.ts:282-406 | the poll loop keeps the chat well formed and never loses the message it started from |
| Bot.ErrorText | src/antigravityClient.ts:68-94 | the error shown to the user is the not-initialized text, the connection error's own message, or `HTTP <status>: <body>` from which the status and the body read back |
| Bot.DiscordBot.constructor | src/discordBot.ts:185 | the thread map starts empty |
| Bot.DiscordBot.HandleUserMessage | src/discordBot.ts:187-280 | the map and the chat end as `Turn` says; a thread name is chosen exactly when a channel message starts a session |
| Bot.DiscordBot.OpenTurn | src/discordBot.ts:233-269 | the thread map follows `Bind`; a session that cannot be started changes no message; otherwise the tracking message is announced as `Announce` says; a thread name is chosen exactly when a channel message starts a session |
| Bot.DiscordBot.SwitchMode | src/discordBot.ts:66-85 | the configuration and the reply follow `ModeCommand` for the parsed word |
| Bot.DiscordBot.OnMessage | src/discordBot.ts:53-92 | ignored and blocked messages change nothing; `/models` returns the panel rows; `/mode` applies the command and replies; a conversation message runs a turn |
| Bot.DiscordBot.OnButton | src/discordBot.ts:94-118 | a permitted user's press follows `ButtonPress`; anyone else's changes nothing |

## Left out

- Text is modelled as sequences of Unicode characters. The source counts UTF-16 code units, so an emoji counts as two. Chunk boundaries and the 30-character thread-name cut can differ for text outside the Basic Multilingual Plane.
- The chat SDK is reduced to posting, replying, editing and sending panels on abstract handles. Embeds, attachments, button styles, ephemeral replies and the `/models` panel message itself are not in the chat model. `OnMessage` returns the panel's rows instead.
- The model does not capture failures of chat sends. A failed "..." reply, a failed thread creation or a failed panel send is not modelled, and a failed error edit is `errorEditOk`. Only a failed chunk edit is modelled.
- HTTP/2 connections, process and netstat execution, and `fetch` of image attachments are external I/O. Their outputs are inputs to the model.
- Random request ids are inputs.
- The text of the system prompt, including the GitHub credentials, is constant text built from editor settings. It is not modelled. Because that prompt is always appended, the source's "no items" return can never be taken.
- `ErrorText` does not model the texts of run-time type errors (a null reply, a non-iterable steps value, a malformed step). They come from the script engine and are the input `engineText`.
- `ErrorText` does not model the start-failure message with `JSON.stringify`. That error escapes the handler and is never shown.
- `approveWait` is modelled as a call without effect. The client as written has no such method. With auto-approve on, the call would throw a type error after every poll that does not finish the turn, and the turn would end through the error edit.
- `sendUserMessage` is declared with a text parameter, but the bot passes it an item list. The outgoing payload is modelled with a text, and the item list is not modelled.
- Several turn loops can run concurrently, and the configuration can change while a loop runs. The model runs one loop at a time, with the model name and mode fixed for the turn.
- Poll delays are not modelled. The loop runs over the given sequence of polls and stops when they run out, which bounds the model's `while (!isDone)`.
- JSON numbers are exact reals.
- Rpc.DecodeEach: a snapshot is decoded whole before any of its steps is processed, so a `null` element fails the poll at once. The source throws only when its step loop reaches that element (src/discordBot.ts:291-294), after the steps before it have raised their panels and edited their messages. The model drops those partial effects. `Rpc.PollSteps` and the turn's polls inherit this.
- Rpc.DecodeStep: a truthy response that is not a string fails its step as soon as the step is read. In the source the failure comes later, when the text is searched for tags. A finished step first scans the text for review markers. A step held back by the rate limit never fails. An array response on a running step shows the placeholder. The model does not follow these paths of a non-string response.
- Strings.LowerAscii: lowers only A-Z. JavaScript's `toLowerCase` also lowers other letters ('É' to 'é') and can lengthen a text ('İ' becomes 'i' followed by a combining dot). This cannot change which of planning, fast or auto `WordOf` recognises. Apart from A-Z, the only character that lowers to a lone ASCII letter is the Kelvin sign (U+212A, to 'k'), and none of the three words contains 'k'.
- Cascade ids are treated as strings.
- The review-button handlers are not modelled as operations, because they cannot be reached (see above).
- Activation, the status bar, the settings UI and the test scripts are outside the bridge core.
