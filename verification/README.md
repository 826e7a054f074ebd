# Gravity: verified model

A Dafny model of the parts of the Gravity gateway and client where a mistake stays silent: the
hand-written wire codecs and incremental parsers, the request orchestrator with its tool loop and
account rotation, and the small stores that meter and police the gateway. Each loop of the
original is a method with its loop, each object that changes in place is a class, and both are
proved against functions whose properties are then proved for all inputs, runs or histories.

`dafny verify dfyconfig.toml` checks the whole project.

## How to read it

- **Oracles.** What the program gets from outside is a function that may depend on everything that
  happened before in the run: the provider's replies, credential refreshes, the clock. What tools return, whether
  they panic and in which order a batch finishes may depend on the exchanges before their round and on a
  call's position in its batch. The JSON library and gunzip are arbitrary functions of their
  input. A theorem for all oracles is a theorem for all providers.
- **Runs.** The orchestrators return their trace. `ChatOver` says what the next action must be after any
  history of events, and the loops are proved to follow it; the run theorems are about histories. The tool
  executor is a transition system, and its theorems range over all schedules. The stores have operations on
  one state, and their theorems range over all sequences of operations with a clock that does not go back.
- **Text.** Rust strings are sequences of characters. Indices the Kiro scanner computes are byte offsets in
  the original; they always stand at ASCII characters, so positions in characters say the same. SSE text
  stays in bytes.
- **Words.** 64-bit words, masks and shifts are written as quotients and remainders; `|=` of disjoint bits
  is addition. Overflow is checked as in a debug build: a shift of 64 or an address beyond 2^64 aborts
  (`Panicked`). A frame length is truncated to 32 bits, as the cast does.
- **Numbers.** Times and scores of the Python stores are exact reals. Durations are nanoseconds; dates have
  the range chrono can express.
- **Objects.** JSON objects are sequences of members, since the original builds its JSON library with member
  order preserved.

Where the code does less than its documentation, or than one would expect, the model follows the code:

- The comment on `execute_tools_parallel` (API/gravity/crates/gravity-client/src/afc.rs:74-76)
  promises that a panic becomes an error result. The code fills the first empty slot instead of the panicked one.
  `ToolExec.PanicsAreContainedIffTheyLead` gives the exact condition under which every call gets what it is
  promised. (In the release profile, which aborts on panic, no panic is contained at all.)
- A Kiro request can carry a tool result twice, in its history and with its current message.
  `KiroHistory.EachResultOnceIff` says exactly when it does not, `KiroHistory.FirstResultIsSentTwice` shows one that does.
- The comment on `hard_ban` (src/abuse.py:189-191) says that address `*` bans a key on any address. `check` only
  looks up the caller's own address: `Abuse.WildcardBansOneAddress`.
- The comments on `DUP_LIMIT` and `ERROR_RATIO` (src/abuse.py:29-31) speak of prompts per minute and of a share of all calls.
  The code counts streaks without end, and compares a minute of errors with ten seconds of calls:
  `Abuse.SpamCountsStreaks` and `Abuse.StormComparesWindows` say exactly what, `Abuse.SpamIsPerMinuteUnless` and
  `Abuse.StormAgainstShare` when that differs, `Abuse.SlowRepeatsAreSpam` and `Abuse.StormBelowSixtyPercent` show
  that it does.
- A sweep of abuse records can forget errors recorded a moment ago: `Abuse.SweepForgetsErrorsIff` says exactly when,
  `Abuse.CollectionForgetsErrors` shows one that does.
- An hourly quota admits up to twice its limit around the end of a window: `Quota.TwiceTheLimitAtMost` and
  `Quota.TwiceTheLimitIsReached`. From the stored window end and usage, `Quota.LimitHoldsIff` says exactly when a
  stretch of time stays within the limit; for up to 3599 s (`Quota.OneLimitWithinTheHour`) that is when the
  window has ended, outlasts the stretch, or is used up.

## Model

| member | source | states |
|---|---|---|
| `Proto.Varint` | API/gravity/crates/gravity-providers/src/cursor/proto.rs:16-24 | the bytes pushed are the base-128 form of the word, and there are at most ten of them |
| `Proto.VarintSize` | API/gravity/crates/gravity-providers/src/cursor/proto.rs:16-24 | a number below 2^(7k) takes at most k bytes |
| `Proto.ReadVarint` | API/gravity/crates/gravity-providers/src/cursor/proto.rs:141-155 | the loop reads what the recursive reader reads: value and size, `Cut` when the bytes run out, `Overflow` when a shift of 64 would be needed |
| `Proto.ReadInvertsVarint` | API/gravity/crates/gravity-providers/src/cursor/proto.rs:16-24 | reading a written varint gives back its value and exactly its length, whatever bytes follow, for every 64-bit word |
| `Proto.CutVarintIsNotRead` | API/gravity/crates/gravity-providers/src/cursor/proto.rs:141-155 | every proper prefix of a written varint reads as cut, never as a shorter number |
| `Proto.FieldVarint` | API/gravity/crates/gravity-providers/src/cursor/proto.rs:27-31 | the bytes are those of a varint field: tag with wire type 0, then the value |
| `Proto.FieldBytes` | API/gravity/crates/gravity-providers/src/cursor/proto.rs:34-39 | the bytes are those of a length-delimited field: tag with wire type 2, length, content |
| `Proto.FieldDouble` | API/gravity/crates/gravity-providers/src/cursor/proto.rs:52-56 | the bytes are those of a 64-bit field: tag with wire type 1, then eight bytes |
| `Proto.ReadField` | API/gravity/crates/gravity-providers/src/cursor/proto.rs:101-136 | one round of the decoding loop yields the field that lies at the position, its end, or the abort of checked arithmetic |
| `Proto.EncodeAllAppend` | API/gravity/crates/gravity-providers/src/cursor/proto.rs:27-56 | concatenating field lists concatenates their encodings |
| `Proto.DecodeFields` | API/gravity/crates/gravity-providers/src/cursor/proto.rs:97-139 | on any bytes, the map holds exactly the fields of the wire-order decode, grouped by number, each list in wire order and none empty; it aborts exactly where checked arithmetic does |
| `Proto.DecodeOneWritten` | API/gravity/crates/gravity-providers/src/cursor/proto.rs:100-136 | one encoded field decodes to its number and content and consumes exactly its bytes, whatever follows |
| `Proto.DecodeOneCut` | API/gravity/crates/gravity-providers/src/cursor/proto.rs:100-136 | every proper non-empty prefix of an encoded field stops the decoder; none decodes to another field |
| `Proto.CompleteIsMost` | API/gravity/crates/gravity-providers/src/cursor/proto.rs:97-139 | the fields counted as complete within k bytes fit into k bytes, and one more would not |
| `Proto.DecodeCut` | API/gravity/crates/gravity-providers/src/cursor/proto.rs:97-139 | cutting the encoding of any field list at any byte decodes to exactly the fields complete before the cut, in order |
| `Proto.DecodeWritten` | API/gravity/crates/gravity-providers/src/cursor/proto.rs:97-139 | the encoding of any field list decodes to that list, in order |
| `Proto.MessagesMerge` | API/gravity/crates/gravity-providers/src/cursor/proto.rs:97-139 | two encoded messages, one behind the other, decode to the fields of both in order, so each field number collects the values of the first and then of the second |
| `ProtoValue.EncodeStruct` | API/gravity/crates/gravity-providers/src/cursor/proto.rs:244-252 | the loop emits one entry field per member: key as field 1, value as field 2 |
| `ProtoValue.EncodeList` | API/gravity/crates/gravity-providers/src/cursor/proto.rs:254-260 | the loop emits one field 1 per item |
| `ProtoValue.EncodeValue` | API/gravity/crates/gravity-providers/src/cursor/proto.rs:263-272 | the bytes are those of the one `google.protobuf.Value` field of the case: 1 null, 2 number, 3 string, 4 bool, 5 struct, 6 list |
| `ProtoValue.FieldsOfIsLookup` | API/gravity/crates/gravity-providers/src/cursor/proto.rs:97-139 | looking a field number up in whatever the decoding loop returns gives the values that the value decoder reads |
| `ProtoValue.DecodeInvertsEncode` | API/gravity/crates/gravity-providers/src/cursor/proto.rs:244-272 | a decoder that uses only the field decoder recovers every JSON value, of any nesting, from its encoding |
| `ProtoValue.EncodeIsInjective` | API/gravity/crates/gravity-providers/src/cursor/proto.rs:263-272 | two JSON values with the same encoding are equal |
| `ConnectFrames.BigEndian32` | API/gravity/crates/gravity-providers/src/cursor/proto.rs:206-212 | the four bytes read back, big-endian, as the length modulo 2^32 |
| `ConnectFrames.EncodeFrame` | API/gravity/crates/gravity-providers/src/cursor/proto.rs:206-212 | a frame is a zero flag, the 32-bit length, the payload |
| `ConnectFrames.DecodeFrames` | API/gravity/crates/gravity-providers/src/cursor/proto.rs:216-239 | on any bytes, the result is the complete frames in order, each payload gunzipped where its flag is odd and gunzip succeeds |
| `ConnectFrames.CutKeepsCompleteFrames` | API/gravity/crates/gravity-providers/src/cursor/proto.rs:216-239 | cutting concatenated frames at any byte keeps exactly the frames complete before the cut |
| `ConnectFrames.FramesInvert` | API/gravity/crates/gravity-providers/src/cursor/proto.rs:206-239 | concatenated frames decode to those frames, in order |
| `ConnectFrames.FrameInvertsIffFits` | API/gravity/crates/gravity-providers/src/cursor/proto.rs:206-239 | one encoded payload decodes to itself if and only if it is shorter than 2^32 bytes; a longer one has its length truncated |
| `KiroParser.NextObjectStart` | API/gravity/crates/gravity-providers/src/kiro/parser.rs:45-51 | the index is the first position at or after `from` where one of the six markers begins; none means no marker begins anywhere |
| `KiroParser.ObjectEnd` | API/gravity/crates/gravity-providers/src/kiro/parser.rs:55-78 | the loop returns where the brace-counting scanner closes the object that starts at `start` |
| `KiroParser.ClassifyInvertsReport` | API/gravity/crates/gravity-providers/src/kiro/parser.rs:81-125 | every kind of event is recognised, with all it carries, from the object that reports it |
| `KiroParser.FollowupSilencesContent` | API/gravity/crates/gravity-providers/src/kiro/parser.rs:81-125 | a content object with a follow-up prompt that is not null reports nothing |
| `KiroParser.ParseStreamBuffer` | API/gravity/crates/gravity-providers/src/kiro/parser.rs:137-161 | the loop yields the events of the complete objects in order and the text after the last of them |
| `KiroParser.EarliestStable` | API/gravity/crates/gravity-providers/src/kiro/parser.rs:45-51 | later text neither moves the first marker nor brings one forward |
| `KiroParser.ScanStable` | API/gravity/crates/gravity-providers/src/kiro/parser.rs:55-78 | an object that is closed stays closed at the same place when text is appended |
| `KiroParser.ParseTwoPieces` | API/gravity/crates/gravity-providers/src/kiro/parser.rs:137-161 | parsing a + b yields the events of a followed by those of (the tail of a) + b, with the same final tail, for every split |
| `KiroParser.ParseTailAgain` | API/gravity/crates/gravity-providers/src/kiro/parser.rs:137-161 | parsing a tail again yields nothing and the same tail |
| `KiroParser.FeedIsParse` | API/gravity/crates/gravity-providers/src/kiro/parser.rs:137-161 | streaming any list of chunks yields the events and the tail of one parse of their concatenation |
| `KiroJson.PrintIsNeutral` | API/gravity/crates/gravity-providers/src/kiro/parser.rs:55-78 | any RFC 8259 value, with strings that hold braces, quotes and escapes, leaves the scanner inside an object as it was |
| `KiroJson.ObjectEndIsClosingBrace` | API/gravity/crates/gravity-providers/src/kiro/parser.rs:55-78 | for every printed JSON object followed by any text, the scanner stops exactly at its closing brace |
| `KiroJson.StreamOfObjects` | API/gravity/crates/gravity-providers/src/kiro/parser.rs:137-161 | objects with any bytes between them in which no object starts yield what each classifies to, in order, and leave only the text after the last |
| `KiroJson.ChunkedStreamOfObjects` | API/gravity/crates/gravity-providers/src/kiro/parser.rs:137-161 | the same for every way of cutting the stream into chunks |
| `KiroJson.PlainJunk` | API/gravity/crates/gravity-providers/src/kiro/parser.rs:137-161 | bytes without an opening brace may always stand before an object that starts with a marker |
| `KiroJson.StreamOfReports` | API/gravity/crates/gravity-providers/src/kiro/parser.rs:81-161 | a stream of objects that report events yields exactly those events, however it is cut into chunks |
| `GeminiParser.Units` | API/gravity/crates/gravity-providers/src/gemini/parser.rs:16-29 | the unit count is the length of the UTF-16 encoding (section 2.1 of RFC 2781) |
| `GeminiParser.CharsForUtf16Units` | API/gravity/crates/gravity-providers/src/gemini/parser.rs:16-29 | the loop returns the longest run of characters within the budget, and its unit count |
| `GeminiParser.FitIsUnique` | API/gravity/crates/gravity-providers/src/gemini/parser.rs:16-29 | a run within the budget that cannot be extended is the one returned |
| `GeminiParser.MatchLengthMarker` | API/gravity/crates/gravity-providers/src/gemini/parser.rs:81-92 | a marker is a maximal non-empty digit run followed by a newline whose value fits a machine word |
| `GeminiParser.SkipWhitespace` | API/gravity/crates/gravity-providers/src/gemini/parser.rs:42-44 | skips exactly the leading Unicode white space |
| `GeminiParser.ChunkValues` | API/gravity/crates/gravity-providers/src/gemini/parser.rs:62-71 | a trimmed body contributes the items of an array, any other value, or nothing when it is blank or does not parse |
| `GeminiParser.ParseResponseFrames` | API/gravity/crates/gravity-providers/src/gemini/parser.rs:34-76 | the nested loops yield the values of the complete frames in order and the unconsumed tail |
| `GeminiParser.FrameStable` | API/gravity/crates/gravity-providers/src/gemini/parser.rs:45-60 | a complete frame keeps its marker and its end when text is appended |
| `GeminiParser.ParseTwoPieces` | API/gravity/crates/gravity-providers/src/gemini/parser.rs:34-76 | parsing a + b yields the values of a followed by those of (the tail of a) + b, with the same final tail, for every split, also inside the digits or a body |
| `GeminiParser.FeedIsParse` | API/gravity/crates/gravity-providers/src/gemini/parser.rs:34-76 | streaming any list of chunks yields the values and the tail of one parse of their concatenation |
| `GeminiParser.Decimal` | API/gravity/crates/gravity-providers/src/gemini/parser.rs:81-92 | the decimal form of a length is a non-empty digit string with that value |
| `GeminiParser.WrittenFrame` | API/gravity/crates/gravity-providers/src/gemini/parser.rs:45-61 | a frame written as white space, decimal UTF-16 length, newline, body and trailing white space is found with exactly that extent |
| `GeminiParser.ParseInvertsWrite` | API/gravity/crates/gravity-providers/src/gemini/parser.rs:34-76 | parsing any list of written frames gives the values of the bodies in order and an empty tail |
| `GeminiParser.ExtractJsonOfResponse` | API/gravity/crates/gravity-providers/src/gemini/parser.rs:95-107 | a response behind the sentinel yields exactly the values of its frames |
| `Sse.Memchr` | API/gravity/crates/gravity-http/src/sse.rs:115-117 | the first position of the byte, or none when it does not occur |
| `Sse.Lines` | API/gravity/crates/gravity-http/src/sse.rs:16-37 | for every way of cutting the bytes into chunks, empty ones included, the lines are those of the whole input split on newline, one CR dropped from each terminated line; a failing stream loses only its unterminated rest |
| `Sse.LinesAppend` | API/gravity/crates/gravity-http/src/sse.rs:20-32 | later bytes only complete the unterminated rest |
| `Sse.Events` | API/gravity/crates/gravity-http/src/sse.rs:59-96 | for every chunking, the events are those collected from the split lines |
| `Sse.FailedStreamYieldsPrefix` | API/gravity/crates/gravity-http/src/sse.rs:20-21 | a stream that fails has yielded a prefix of what it would have yielded by going on |
| `Sse.SplitInvertsRender` | API/gravity/crates/gravity-http/src/sse.rs:16-37 | lines written with any mix of LF and CRLF split back into themselves |
| `Sse.InertLinesAreIgnored` | API/gravity/crates/gravity-http/src/sse.rs:75-90 | comments and unknown fields anywhere between the lines change no event |
| `Sse.FieldLine` | API/gravity/crates/gravity-http/src/sse.rs:100-112 | a `field: value` line splits into its field and its value |
| `Sse.CollectInvertsLines` | API/gravity/crates/gravity-http/src/sse.rs:59-96 | the lines printed for any list of events collect back into that list |
| `Sse.EventsInvertPrinting` | API/gravity/crates/gravity-http/src/sse.rs:59-112 | printing any events (optional name, one data line per line, any terminators, inert lines anywhere, any chunking) and parsing gives the events back |
| `ChatOver.ChatOver` | API/gravity/crates/gravity-client/src/client.rs:120-190 | with any provider, the nested loops produce a complete run of the retry/failover/checkpoint protocol and its result; invalid requests, unknown providers and empty candidate lists fail before any call |
| `ChatOver.StatusDecides` | API/gravity/crates/gravity-client/src/client.rs:162-183 | for a failure known by its HTTP status alone: 401 and 403 drop the checkpoint and move on, 404 and 409 drop it and end the call, 5xx and spent 429 move on with it, all others end the call |
| `ChatOver.CandidatesInOrder` | API/gravity/crates/gravity-client/src/client.rs:139-181 | accounts are visited in order from the first; one is left only for the next, only after a failed open or a failover error |
| `ChatOver.RetriesLeft` | API/gravity/crates/gravity-client/src/client.rs:165-171 | an account that is about to be run has been run at most as often as it has retries |
| `ChatOver.RunsAreBounded` | API/gravity/crates/gravity-client/src/client.rs:139-185 | no account is run more than R + 1 times, and a call makes at most n * (R + 1) runs |
| `ChatOver.ResultIsFirstSuccessOrLastError` | API/gravity/crates/gravity-client/src/client.rs:157-189 | the result is the first success, after which nothing happens, or the most recent error |
| `ChatOver.CheckpointIsNeverStale` | API/gravity/crates/gravity-client/src/client.rs:136-164 | a run is given a checkpoint only if it was opened earlier and no 401/403/404/409 has come since |
| `ChatOver.RunsWithoutCheckpoint` | API/gravity/crates/gravity-client/src/client.rs:145-155 | with a stateful provider, a run without a checkpoint comes right after an open that returned none |
| `Accounts.AccountManager.Update` | API/gravity/crates/gravity-accounts/src/manager.rs:169-171 | the first account with the id, scanning bundles in order, is changed in place, and nothing else; reports whether there is one |
| `Accounts.AccountManager.MarkSuccess` | API/gravity/crates/gravity-accounts/src/manager.rs:135-144 | failure state and cooldown of that account are cleared and the success stamped |
| `Accounts.AccountManager.MarkFailure` | API/gravity/crates/gravity-accounts/src/manager.rs:149-162 | that account gets one more failure, the code, the time and the cooldown end |
| `Accounts.AccountManager.UpdateAuth` | API/gravity/crates/gravity-accounts/src/manager.rs:177-184 | that account gets the credentials |
| `Accounts.AccountManager.SetEnabled` | API/gravity/crates/gravity-accounts/src/manager.rs:187-198 | that account is switched on or off |
| `Accounts.AccountManager.AccountsFor` | API/gravity/crates/gravity-accounts/src/manager.rs:80-92 | returns the selection: the usable accounts in selection order |
| `Accounts.ChangeIsLocal` | API/gravity/crates/gravity-accounts/src/manager.rs:135-184 | a change is seen at its own id and at no other, and keeps ids distinct |
| `Accounts.RotationTellsHistory` | API/gravity/crates/gravity-accounts/src/manager.rs:135-162 | after any marks and changes, the rotation state holds the number of failures since the last success, the times of the last success and failure, and, while failing, the last code and cooldown |
| `Accounts.ChangeRewritesOne` | API/gravity/crates/gravity-core/src/accounts.rs:376-389 | in the flat list of accounts a change rewrites one position |
| `Accounts.SortIsStable` | API/gravity/crates/gravity-accounts/src/manager.rs:90 | sorting orders by priority and then descending weight, keeps exactly the accounts given, and keeps ties in configured order |
| `Accounts.SelectedAreUsable` | API/gravity/crates/gravity-accounts/src/manager.rs:82-89 | an account is selected if and only if it is listed in an enabled bundle, of the provider, enabled, and not cooling down |
| `Accounts.SelectedDistinct` | API/gravity/crates/gravity-accounts/src/manager.rs:80-92 | distinct ids stay distinct in the selection |
| `Accounts.CooldownParks` | API/gravity/crates/gravity-core/src/accounts.rs:248-256 | a failed account is passed over exactly until its cooldown ends; a cooldown under a millisecond, or one with no expressible end, parks nothing |
| `ManagerChat.TryOne` | API/gravity/crates/gravity-client/src/client.rs:235-324 | one round of the loop: open, run, refresh once on an authentication error and run again, then mark |
| `ManagerChat.ChatWithManager` | API/gravity/crates/gravity-client/src/client.rs:197-327 | the method leaves the accounts, the events and the result that the specified call demands |
| `ManagerChat.Turn` | API/gravity/crates/gravity-client/src/client.rs:235-324 | a turn has one or two runs (two exactly after a refresh delivered credentials), each given the checkpoint opened in that same turn or none; its result is the last run, and its last event is its only mark, a success exactly when it won; its account is rotated accordingly and no other is touched |
| `ManagerChat.EachAccountHasOneTurn` | API/gravity/crates/gravity-client/src/client.rs:234-326 | the accounts tried are a prefix of the selection order, one turn each, every turn but the last ending in a failover error; each is rotated once by its own result and every other account is unchanged |
| `ManagerChat.FailureParks` | API/gravity/crates/gravity-client/src/client.rs:741-758 | a failed turn parks its account until the mark plus the classified cooldown |
| `ManagerChat.ParkedIsNotTried` | API/gravity/crates/gravity-accounts/src/manager.rs:86-89 | an account parked beyond the time of selection is not a candidate |
| `ManagerChat.UntriedIsUntouched` | API/gravity/crates/gravity-client/src/client.rs:234-326 | a call leaves every account that is not a candidate exactly as it was |
| `ManagerChat.FailedAccountsRest` | API/gravity/crates/gravity-client/src/client.rs:234-326 | every account that fails in a call with a cooldown is tried by none of any later calls made before the cooldown ends |
| `ManagerChat.ParkedStaysParked` | API/gravity/crates/gravity-client/src/client.rs:234-326 | over any sequence of calls before a cooldown ends, its account is never a candidate and never changes |
| `ToolExec.ToolRegistry.Register` | API/gravity/crates/gravity-client/src/afc.rs:34-37 | the handler is found under its name; others stay |
| `ToolExec.ExecuteToolsParallel` | API/gravity/crates/gravity-client/src/afc.rs:77-117 | for any order of finishing, the slot vector ends as the joins demand, and the batch aborts exactly when a slot stays empty |
| `ToolExec.ResultsAreInCallOrder` | API/gravity/crates/gravity-client/src/afc.rs:98-116 | when no handler panics, every order of finishing yields the expected result of each call, in call order, a missing handler as an error result |
| `ToolExec.LeadingPanicsAreContained` | API/gravity/crates/gravity-client/src/afc.rs:98-115 | if the panicking calls come first in the batch, every order of finishing gives each of them the error result and every other call its own result |
| `ToolExec.TrailingPanicAborts` | API/gravity/crates/gravity-client/src/afc.rs:102-116 | otherwise, when the panicking tasks finish first, a slot stays empty and the batch aborts |
| `ToolExec.PanicsAreContainedIffTheyLead` | API/gravity/crates/gravity-client/src/afc.rs:74-76 | in every order of finishing each panic becomes the error result of its own call and every other call keeps its own result, if and only if the panicking calls come before all others |
| `ToolSchedule.PermitsAreConserved` | API/gravity/crates/gravity-client/src/afc.rs:81-90 | the permits left and the tasks running always add up to the same |
| `ToolSchedule.AtMostEightRun` | API/gravity/crates/gravity-client/src/afc.rs:81-92 | in every schedule at most eight tasks run at any point |
| `ToolSchedule.SchedulesEnd` | API/gravity/crates/gravity-client/src/afc.rs:84-101 | every schedule takes at most three steps a task |
| `ToolSchedule.NeverStuck` | API/gravity/crates/gravity-client/src/afc.rs:84-101 | after any schedule an incomplete batch can take a step: no permit is held for good |
| `ToolSchedule.CompleteTakesAll` | API/gravity/crates/gravity-client/src/afc.rs:98-115 | a completed schedule has joined every task once, and its slots are those of joining in that order |
| `ToolSchedule.ResultsDoNotDependOnSchedule` | API/gravity/crates/gravity-client/src/afc.rs:77-117 | under every schedule without panics a completed batch holds each call's own result in call order, after three steps a task |
| `ToolSchedule.SchedulesContainPanicsIffTheyLead` | API/gravity/crates/gravity-client/src/afc.rs:74-116 | the same for all schedules: every complete one gives each call what it is promised if and only if the panicking calls lead |
| `Afc.RunNative` | API/gravity/crates/gravity-client/src/client.rs:440-488 | with any provider, and tools whose outputs, panics and finishing order may change from round to round, the loop makes the exchanges of the tool protocol: every call sends the original messages and the complete rounds before it; it reports exhaustion exactly when all N rounds were complete, aborts where a batch does, and else returns the last reply with everything executed attached |
| `Afc.LeadingPanicsReturn` | API/gravity/crates/gravity-client/src/afc.rs:77-117 | in any round, a batch whose panicking calls come first does not abort and returns every call what it is promised |
| `Afc.RunJsonEmulated` | API/gravity/crates/gravity-client/src/client.rs:497-567 | the same, with tools that may change from round to round, for the emulated loop over parsed envelopes, whose requests all turn automatic calling off and whose single-call batches never abort |
| `Afc.SingleIsPromised` | API/gravity/crates/gravity-client/src/client.rs:538-539 | in any round, a batch of one call never aborts and returns what the call is promised |
| `Afc.RunAfc` | API/gravity/crates/gravity-client/src/client.rs:426-438 | dispatches to the emulated loop exactly when calling is automatic, the provider emulates, and a declared tool is registered |
| `Afc.RequestStaysValid` | API/gravity/crates/gravity-core/src/request.rs:147-153 | a request valid to begin with is valid at every provider call |
| `Afc.TranscriptsGrowByRounds` | API/gravity/crates/gravity-client/src/client.rs:462-480 | consecutive calls differ by exactly one complete round |
| `Afc.CallsAreAnswered` | API/gravity/crates/gravity-client/src/client.rs:463-480 | between two provider calls the transcript gains the turn of the model and then, for its k-th call, the result that call is promised, unless a panicking call follows one that does not panic |
| `Afc.EmulatedIdsAreDistinct` | API/gravity/crates/gravity-client/src/client.rs:533-537 | the calls executed in an emulated run have distinct ids |
| `Afc.EmulatedRequestStaysValid` | API/gravity/crates/gravity-core/src/message.rs:205-210 | an emulated run keeps requests valid too |
| `KiroHistory.BuildHistory` | API/gravity/crates/gravity-providers/src/kiro/build.rs:74-134 | the loop that pushes and merges yields the declared history: user turns, and between them one entry of all the assistant said or a filler |
| `KiroHistory.MergeAssistant` | API/gravity/crates/gravity-providers/src/kiro/build.rs:136-156 | the merged entry joins the contents that are not blank by a blank line and appends the tool uses |
| `KiroHistory.InjectSystemPrompt` | API/gravity/crates/gravity-providers/src/kiro/build.rs:160-176 | the prompt goes in front of the first user entry, or becomes one; a blank prompt changes nothing |
| `KiroHistory.HistoryExtends` | API/gravity/crates/gravity-providers/src/kiro/build.rs:82-132 | appending a message to the list is one step of the loop on the history |
| `KiroHistory.HistoryIsFaithful` | API/gravity/crates/gravity-providers/src/kiro/build.rs:74-134 | user and assistant entries strictly alternate; the tool uses are the assistant's tool calls and the user entries the other messages, all in order |
| `KiroHistory.HistoryWithPromptIsFaithful` | API/gravity/crates/gravity-providers/src/kiro/build.rs:74-176 | the same after the prompt is injected, which reaches only the first user entry |
| `KiroHistory.CollectTrailing` | API/gravity/crates/gravity-providers/src/kiro/build.rs:225-243 | the backward loop collects, in order, the results after the assistant's last message |
| `KiroHistory.BuildRequest` | API/gravity/crates/gravity-providers/src/kiro/build.rs:204-287 | no messages, no request; otherwise history, content and results as declared |
| `KiroHistory.EachResultOnceIff` | API/gravity/crates/gravity-providers/src/kiro/build.rs:88-107 | the request carries every tool result once and in order if and only if every earlier tool message has one and no result lies between the assistant's last message and a last tool message; otherwise results are sent twice or blanks are sent |
| `KiroHistory.FirstResultIsSentTwice` | API/gravity/crates/gravity-providers/src/kiro/build.rs:225-243 | for a turn with two calls and their two results, the first result is sent twice |
| `Quota.QuotaStore.RollWindow` | src/quota.py:32-44 | an expired window is replaced by an empty one ending an hour later; a running one is reported as stored |
| `Quota.QuotaStore.SetLimit` | src/quota.py:47-48 | the stored limit is the one given |
| `Quota.QuotaStore.Status` | src/quota.py:51-60 | rolls the window and reports usage, limit, remainder and seconds to the reset |
| `Quota.QuotaStore.Consume` | src/quota.py:63-85 | rolls, then grants and stores the cost unless it exceeds the effective limit; refusing stores nothing more; reports the figures of the outcome |
| `Quota.QuotaStore.QuotaSweep` | src/jobs.py:96-114 | the loop rolls exactly the expired windows it scans |
| `Quota.UsageIsWindowTotal` | src/quota.py:63-85 | in every history the stored usage is the cost granted since the window opened, and never exceeds the limit |
| `Quota.ReportAddsUp` | src/quota.py:73-85 | after any history, the usage and the remainder reported add up to the limit, neither is negative, and the window ends within the hour |
| `Quota.WindowsAreFarApart` | src/quota.py:36-41 | a window opens no earlier than the one before it ends, so two open more than 3599 s apart |
| `Quota.TwiceTheLimitAtMost` | src/quota.py:32-85 | any stretch of at most 3599 s grants at most twice the limit |
| `Quota.LimitHoldsIff` | src/quota.py:32-85 | after any history, whatever is asked for between two later times is granted no more than the limit, if and only if the standing window outlasts them, or it has ended and the one that may open at once outlasts them, or it ends between them but is used up and the next one outlasts them |
| `Quota.OneLimitWithinTheHour` | src/quota.py:36-41 | for stretches of up to 3599 s: the window has ended, outlasts the stretch, or is used up |
| `Quota.TwiceTheLimitIsReached` | src/quota.py:32-85 | and that bound is attained within half a second, for every limit |
| `Abuse.AbuseStore.ConcInc` | src/abuse.py:97-100 | the gauge of the identity goes up by one |
| `Abuse.AbuseStore.ConcDec` | src/abuse.py:103-105 | the gauge goes down by one, never below zero |
| `Abuse.AbuseStore.Check` | src/abuse.py:110-176 | a banned identity is refused and its record left as it is; otherwise the record is evaluated, stored, and decided on, with the reason and the seconds to wait |
| `Abuse.AbuseStore.Score` | src/abuse.py:127-159 | the five scoring steps: decay, burst, spam, concurrency, error storm |
| `Abuse.AbuseStore.RecordError` | src/abuse.py:179-185 | the error time is appended, the latest 200 are kept |
| `Abuse.AbuseStore.SetHardBan` | src/abuse.py:188-198 | sets the ban; lifting it also clears score and temporary ban |
| `Abuse.WildcardBansOneAddress` | src/abuse.py:188-198 | a hard ban with address `*` refuses the identity with address `*` and leaves the decision for every other address of the key as it was |
| `Abuse.AbuseStore.AbuseGc` | src/jobs.py:151-167 | the loop deletes exactly the decayed, unbanned, stale records it scans |
| `Abuse.RecentIsSuffix` | src/abuse.py:130 | in an ordered list the times within a window are a suffix and all before them are old |
| `Abuse.RecentOfKept` | src/abuse.py:130-132 | a capped window counts, up to its cap, all that happened within it |
| `Abuse.HistoriesStayReachable` | src/abuse.py:110-198 | every operation of every history keeps the record consistent with the checks evaluated so far, its score bounded and a high score under its ban |
| `Abuse.ScoreIsBounded` | src/abuse.py:89-176 | after any history 0 <= score < 21.5, and a score of 12 or more is banned for 300 s after its update |
| `Abuse.BurstCountsEvaluatedChecks` | src/abuse.py:129-134 | a check sees a burst exactly when, with it, more than 40 checks were evaluated in the last 10 s |
| `Abuse.SpamCountsStreaks` | src/abuse.py:137-147 | a check sees spam exactly when it is the 16th or later of a streak of its prompt, each check less than a minute after the one before |
| `Abuse.SpamIsPerMinuteUnless` | src/abuse.py:137-147 | every prompt that is more than 15 in a minute is spam; spam and more than 15 in a minute agree if and only if the fifteenth before the check is not both in its streak and a minute old |
| `Abuse.SlowRepeatsAreSpam` | src/abuse.py:29 | so a prompt asked every 50 s, from any time on, is spam the sixteenth time, after twelve minutes |
| `Abuse.StormComparesWindows` | src/abuse.py:155-159 | a check sees an error storm exactly when the errors of the last minute, since the record was created, exceed 60% of the checks of the last ten seconds, of which there are at least ten |
| `Abuse.StormAgainstShare` | src/abuse.py:155-159 | a share of errors above 60% of at least ten checks of a minute is a storm if and only if ten of the checks fall in the last ten seconds; a storm with a smaller share needs older checks or more than are kept |
| `Abuse.StormBelowSixtyPercent` | src/abuse.py:31 | so seven errors in a minute of twelve checks can be a storm |
| `Abuse.SweepForgetsErrorsIff` | src/jobs.py:162-166 | after any history, a sweep forgets errors of the last minute if and only if it collects the record and some were recorded; all evaluated checks are then more than 1800 s old |
| `Abuse.CollectionForgetsErrors` | src/jobs.py:162-166 | an error recorded a second ago is forgotten when its stale record is collected |
| `Abuse.BanHolds` | src/abuse.py:117-125 | until a ban ends every check is refused and only new errors change the record |
| `Abuse.TempBanLasts` | src/abuse.py:121-168 | a check that bans, after any history, is followed by refusals for its 300 s; whatever errors and sweeps follow, the first check after them starts from a score below 6.5, and is not refused as banned |
| `TtlCache.TTLCache.Get` | src/memo.py:22-33 | answers with the unexpired value, which may be None, and moves it to the end; an expired entry is dropped |
| `TtlCache.TTLCache.Put` | src/memo.py:35-41 | the entry goes to the end and the loop drops the oldest entries beyond the capacity |
| `TtlCache.TTLCache.Invalidate` | src/memo.py:43-45 | the entry of the key is gone, the others stay in order |
| `TtlCache.TTLCache.Clear` | src/memo.py:47-49 | nothing is left |
| `TtlCache.TTLCache.GetOrSet` | src/memo.py:51-58 | a value found is returned; when none is, what the factory made is stored and returned |
| `TtlCache.HistoriesStayReachable` | src/memo.py:22-49 | every operation of every history keeps entries distinct, latest, in order of use, and within capacity, and evicts only behind enough other keys |
| `TtlCache.LookupsAreSound` | src/memo.py:22-49 | after any history with a clock that does not go back: size is within capacity; a value found is that of the latest unexpired put not removed since; such a put of a value is missed only if at least `maxsize` other keys were put or hit since its key last was |
| `TtlCache.EvictsExactlyLeastRecent` | src/memo.py:35-41 | if nothing was removed otherwise, such a put of a value is found if and only if fewer than `maxsize` other keys were put or hit since |

## Left out

- Networking, TLS, HTTP requests and headers, OAuth, FFI and language bindings, the CLI, catalogs and web routes: plumbing around the logic modelled here.
- Cryptography, proof of work, the JSON library, gunzip and lossy UTF-8 conversion: libraries; they appear as oracles or not at all. Conversion of JSON numbers to doubles is taken as given, the eight bytes are what is encoded.
- `parse_bulk_embed_response`, `parse_parts`, `strip_googleusercontent`, `nested`: extraction from values already parsed.
- Proto.ReadVarint: the release build masks a shift of 64 or more instead of aborting; no written varint and no cut of one gets there, other bytes are reported as `Overflow`.
- Proto.DecodeFields: `Panicked` stands for the abort of checked arithmetic; what a release build makes of such bytes is not modelled.
- KiroParser.ObjectEnd: the brace counter is unbounded; the original counts in 32 bits.
- GeminiParser.ParseResponseFrames: the body parser is an oracle, so which bodies are JSON is not said.
- ChatOver.ChatOver: the delay between retries and the stored conversation are not modelled, and no claim is made that a checkpoint was opened under the account it is used with: it outlives the account loop.
- ManagerChat.ChatWithManager: saving to disk, usage metrics and resolving secrets are left out; other holders of the account lock are not interleaved.
- ManagerChat.EachAccountHasOneTurn: for files with distinct account ids; with duplicates, a mark goes to the first account of the id.
- Accounts.AccountManager.AccountsFor: the library sort is an insertion sort; any stable sort gives the same list.
- Accounts.AccountManager.MarkFailure: the failure counter is unbounded.
- ToolExec.ExecuteToolsParallel: what a handler returns does not depend on how far others have come in its batch; the text of a join error is fixed.
- Afc.RunNative: durations and metadata are left out.
- Afc.RunJsonEmulated: durations and metadata are left out.
- Abuse, quota cells: the identity and the cell are given; keys that would collide as text are distinct. A prompt stands for its own hash.
- Streaming chat, model discovery and persisted conversations of the client: no state beyond what is modelled.
- KiroHistory.BuildRequest: model names, tool declarations, conversation id and profile are constant or passed through; the model is assumed to be known.
- Quota.UsageIsWindowTotal: histories hold no `set_limit`, costs are not negative, and the effective limit is positive and the same throughout.
- The Python stores under concurrent threads: every call is one step.
- Balancer, language-model routing, document store, discovery and rate-limit jobs: simpler state of the same kind.
