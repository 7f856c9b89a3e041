# A verified model of the FIX session library

This project models the logic of a FIX 4.4 library written in TypeScript and proves
what its parts promise, each alone and together:

- **Messages and their text** (`Text`, `Fields`, `Messages`, `Parser`, `Cuts`, `Checksum`,
  `Substitution`, `StreamParser`, `LengthField`, `FixDate`). A message is JavaScript's
  insertion-ordered `Map` of tags to values. The project covers printing with the computed BodyLength (9) and
  CheckSum (10), splitting received text back into messages, checksum validation,
  what a wrong character on the wire does, the second parser's carry-over buffer, and
  the UTC timestamp. Decimal printing,
  `parseInt`, `padStart`, `indexOf` and `split` are modelled in full for unbounded
  strings.
- **The message queue** (`PriorityQueue`, `MessageQueue`). A sorted array and the
  batch sender above it, with batches, abort on the first error, whole-batch retry, a
  retry cap, pause, resume, shutdown and several interval timers.
- **The protocol manager** (`Protocol`). The logon gate whose drain and message
  handler call each other.
- **Rooms, sessions and broadcast** (`Rooms`, `Sending`, `Registry`, `Sessions`). Two
  mutually inverse indexes, stamping and sequence numbers, the session registry under
  every interleaving of its asynchronous operations, and the room broadcast.

Code that changes objects step by step is a class or a method with loops, verified
against a function on values; what the code promises is then proved about that
function, or about every run of a state machine whose steps are the code's runs
between two awaits. For the registry, `Sessions.SessionManager` carries its abstract
state as a ghost field, and each method of the two classes is verified to make the
step of the same name in `Registry`. The environment chooses the outcome of every
write, which handlers throw, the time of every tick and the order in which suspended
calls continue.

## Main results

- **The text.** Every character of a printed message is given tag by tag
  (`Messages.WireIsLiteral`), and so is the timestamp (`FixDate.Layout`).
- **Round trip.** `processData` on the concatenated printed messages returns exactly
  those messages, in order, if and only if no printed value is empty or holds SOH or
  `=` (`Parser.BatchRoundTrip`); the result prints byte-identically
  (`Parser.ReprintIsIdentical`), and both of the parser's entry points agree on it. A
  printed stream that arrives in two chunks is read the same if and only if the cut is in
  one of three places (`Cuts.TwoChunksIff`).
- **Checksum.** A message read back from a printed one is accepted, and a change of one
  value goes unnoticed exactly when its character sum mod 256 is unchanged. On the wire
  text, a wrong character in a value goes unnoticed exactly when it is a delimiter and
  what it takes away sums to 0 mod 256 (`Substitution.SubstitutionUnnoticedIff`).
- **Framing.** However a stream is cut into chunks, the frames are the same
  (`StreamParser.ChunkIndependence`).
- **Queue.** Every run conserves messages, sends each at most maxRetries + 2 times per
  enqueue, and keeps one timer batch in flight; under any pattern of failures the
  queue drains and every message ends completed or reported failed
  (`MessageQueue.QueueDrains`); a retry ranks by its number
  (`MessageQueue.FailurePutsBack`).
- **Protocol manager.** The trace law of `Protocol.TraceLaw`, and what each type of
  message does (`Protocol.ArrivalByType`).
- **Registry, rooms, sending.** Safety of every interleaving (`Registry.RunSafe`), who is
  registered after any run (`Registry.RegisteredIff`), what a `closeAll` call does on any
  run (`Registry.CloseAllOnAnyRun`), index consistency with the history of joins and leaves
  (`Rooms.RunConsistent`), outgoing sequence numbers as the peer reads them
  (`Sending.RunNumbers`, `Sending.NumbersRead`) and reply
  routing (`Sending.ReplyRoutes`).

## Where the code does not do what it says

Each promise below holds exactly under the stated condition; the witnesses are concrete
runs or texts that break it.

- **The second parser** (`src/protocol/parser/message.parser.ts`) cuts a frame at every
  SOH, so no frame is ever a whole message: its `processData` returns no message for
  any stream (`StreamParser.StreamNeverYields`). Its `parse` counts the length field and
  the trailer into the body, so it accepts a printed message only through a length field
  inside BeginString that says the counted length, and then if and only if what is read of
  the BeginString and kept has the sum of all of it mod 256 (`LengthField.AcceptedIff`,
  witness `SomePrintedAccepted`). It rejects every printed message whose BeginString
  holds no `=` (`StreamParser.PrintedRejected`).
- **The acceptor keeps nothing between two chunks of a socket's data.** A printed stream
  that arrives in two is read as sent if and only if the cut falls on a message boundary,
  right after a message's `8=` or right before its last SOH (`Cuts.TwoChunksIff`).
- **A checksum does not detect every wrong character.** A delimiter put into a value
  cuts it off or drops the field, and passes if what is lost sums to 0 mod 256
  (`Substitution.SubstitutionUnnoticedIff`, witness `FourAtSignsPass`). Any other
  single-byte character is detected (`Substitution.SubstitutionDetected`).
- **`shutdown`** is commented "Process remaining messages" but sends one batch. From then
  on, while no other batch starts, sends or ends, the queue is empty if and only if it
  fitted into that batch, nothing was enqueued since, and either no send has failed or no
  queued message had a retry left (`MessageQueue.ShutdownEmptiesIff`, witness
  `ShutdownRefills`); what it holds otherwise is in `MessageQueue.ShutdownLeaves`.
- **Batches overlap** on a run if and only if a tick or a shutdown call goes on while a
  batch is in flight, which is then a shutdown's own (`MessageQueue.OverlapsIff`,
  `OverlapStep`, witnesses `OverlapWitnesses`). One shutdown call and no later resume
  rule that out (`MessageQueue.ShutdownIsExclusive`).
- **`closeAll`** does not always close. Whatever interleaves with it, it is about to clear
  the registry if and only if no registered session was disconnected at the call, none of
  its own logouts has rejected and all of them have ended (`Registry.CloseReadyIff`); if
  so it leaves nothing, and if not it changes no entry, and who is registered follows from
  the whole run (`Registry.CloseAllOnAnyRun`, witness `ClosingDisturbed`). With nothing but
  its own logouts in between, it leaves exactly the sessions that were disconnected at the
  call and those a handler of which threw before their removal
  (`Registry.CloseAllLeaves`). A session made by `createSession` makes it reject until a
  logon is handled (`Registry.CreatedSessionBlocksClose`).
- **A room can have a member that is not registered.** On a run, every member is registered
  if and only if no session joins while its id has no entry and no closing clears the
  registry while a room has a member (`Registry.MembersRegisteredIff`).
- **A session can be logged on without being registered.** On a run, every logged-on
  session is registered if and only if none logs on before it is registered, and none
  loses its entry while logged on to a new session, a replacement, the removal of another
  session under its id or a closing (`Registry.AlwaysRegisteredIff`, witnesses
  `LoggedOnButUnregistered` and `LogonWithoutRoom`).
- **The timestamp does not always sort as text.** It does for years of equal width from 0
  on; `FixDate.OrderAgreesIff` says for which pairs of years it does, and
  `FixDate.OrderBreaksAtYear10000` is a family of pairs for which it does not.
- **Session ids are ambiguous** if and only if a CompID holds an arrow
  (`Sending.SessionIdAmbiguousIff`).
- **A target set with `to`** is lost if a `send` ends before the next one begins
  (`Sessions.TargetSurvivesIff`).

## Model

| member | source | states |
|---|---|---|
| `Text.PaddedIsExact` | src/message/message.ts:165 | `toString().padStart` yields digits that denote exactly the number, hence an injective fixed-width form |
| `Text.OneDecimal` | src/message/message.ts:126 | a number has exactly one decimal form without leading zeros |
| `Text.IndexOf` | src/protocol/parser/message.parser.ts:51 | `indexOf` gives an occurrence with none before it, or -1 when there is none |
| `Text.JoinSplit` | src/message/fix.message.parser.ts:37 | `split` loses nothing: joining its pieces rebuilds the text, for every separator |
| `Text.SplitFree` | src/message/fix.message.parser.ts:37 | no piece of a `split` holds the separator |
| `Text.CodeSumUpdate` | src/message/message.ts:160-166 | replacing one character moves the character sum by the difference of the two codes |
| `Fields.PutLaws` | src/message/message.ts:60-62 | `setField` keeps keys distinct, reads back, and touches no other field |
| `Fields.ParsePrintedTag` | src/message/fix.message.parser.ts:60 | `parseInt` of a printed tag is the tag, for all integers and for `NaN` |
| `Fields.PrintedValues` | src/message/message.ts:107-126 | a number prints as its shortest decimal, after a sign if it is negative; text prints as itself and a missing value as `undefined` |
| `Fields.TagNames` | src/fields/Field.ts:14-88 | the tags the code names print as 8, 9, 10, 34, 35, 49, 52, 56 and 108 |
| `Fields.ParseIntReads` | src/message/fix.message.parser.ts:60 | `parseInt` skips white space, takes one sign and reads the leading decimal digits; without digits it gives `NaN` |
| `Fields.ParseIntReadsHex` | src/message/fix.message.parser.ts:60 | after `0x` it reads hexadecimal digits |
| `Messages.Message.constructor` | src/message/message.ts:43-46 | a new message holds the given fields as set one after the other |
| `Messages.Message.SetField` | src/message/message.ts:60-62 | overwrites in place or appends, keeping keys distinct |
| `Messages.Message.ToString` | src/message/message.ts:99-155 | the string built step by step is the rendered wire field list, or the first missing required field is reported |
| `Messages.Message.ValidateRequiredFields` | src/message/message.ts:270-285 | finds the first required field the message lacks |
| `Messages.Message.AppendPresent` | src/message/message.ts:124-128 | appends the message's own fields for the fixed tags, in the fixed order |
| `Messages.Message.AppendRest` | src/message/message.ts:131-141 | appends exactly the fields without a fixed place, in map order |
| `Messages.CalculateChecksum` | src/message/message.ts:160-166 | the loop computes the character sum mod 256 as three digits |
| `Messages.FirstMissing` | src/message/message.ts:270-285 | no missing field if and only if all are present; a reported one is listed and absent |
| `Messages.FirstMissingIs` | src/message/message.ts:270-285 | the tag reported is the first missing one of 8, 35, 49, 56, 34, 52 |
| `Messages.WireMembers` | src/message/message.ts:99-155 | the wire carries every field but 9 and 10 exactly once and unchanged, plus one fresh 9 and one fresh 10 |
| `Messages.WireLookup` | src/message/message.ts:99-155 | looking a tag up in the wire's fields gives the message's own value, for 9 and 10 the computed one |
| `Messages.TrailerDigits` | src/message/message.ts:160-166 | the checksum is exactly three digits denoting the sum mod 256 |
| `Messages.LengthAndSumAreExact` | src/message/message.ts:103-155 | tag 9 counts the characters after its own SOH up to `10=`; tag 10 is the three-digit sum mod 256 of every character before `10=` |
| `Messages.WireIsLiteral` | src/message/message.ts:99-155 | the text is `8=`, `9=`, `35=`, `49=`, `56=`, `34=`, `52=` with the message's values, its other fields in map order, and `10=`, each ended by character 1 |
| `Messages.Message.Clone` | src/message/message.ts:171-177 | a new object with the same fields in the same order |
| `Messages.PutAllCopies` | src/message/message.ts:171-177 | copying a map field by field rebuilds it, order included |
| `Messages.Message.CreateReverse` | src/message/message.ts:290-306 | a new object with sender and target swapped; the original stays |
| `Messages.ReverseLookup` | src/message/message.ts:290-306 | reversal swaps the values of tags 49 and 56 and keeps every other field |
| `Messages.ReverseTwice` | src/message/message.ts:290-306 | reversing twice restores the message, order included, if and only if it has both CompIDs |
| `Parser.ReadFields` | src/message/fix.message.parser.ts:52-63 | the loop over the pieces of one message fills the map as specified, dropping incomplete pieces |
| `Parser.ReadPiece` | src/message/fix.message.parser.ts:43-71 | one piece gets its `8=` back, is read into a new message, and is accepted when it has tags 8 and 35 |
| `Parser.ProcessData` | src/message/fix.message.parser.ts:32-80 | returns new message objects, one for each accepted piece, in order |
| `Parser.Parse` | src/message/fix.message.parser.ts:12-27 | reads one raw text into a new message, missing values as `undefined` |
| `Parser.PieceStored` | src/message/fix.message.parser.ts:54-60 | of any piece, the text between the first and the second `=` is stored under the number before the first: by `processData` if neither is empty, by `parse` always |
| `Parser.PieceUnstored` | src/message/fix.message.parser.ts:12-27 | a piece without `=` is dropped by `processData` and stored as `undefined` by `parse`; both drop an empty one |
| `Parser.ReceivesRendered` | src/message/fix.message.parser.ts:32-80 | any batch of rendered field lists that start with tag 8, hold tag 35 and have clean values is read back field for field |
| `Parser.ReceivedClean` | src/message/fix.message.parser.ts:54-55 | whatever arrives, every value the parser stores is non-empty text without SOH and `=` |
| `Parser.BatchRoundTrip` | src/message/fix.message.parser.ts:32-80 | `processData` on the concatenated `toString` outputs gives exactly those messages in order with their wire fields, if and only if every printed value is non-empty and free of SOH and `=` |
| `Parser.ReceivedFields` | src/message/fix.message.parser.ts:47-63 | a printed message is read as the sender's values as text, with the exact body length and checksum |
| `Parser.ReprintIsIdentical` | src/message/message.ts:99-155 | printing, parsing and printing again gives the identical string |
| `Parser.ParseAgrees` | src/message/fix.message.parser.ts:12-27 | `parse` and `processData` agree on a printed message |
| `Cuts.BeginIsRestored` | src/message/fix.message.parser.ts:43-45 | a chunk is read the same without its leading `8=`, which the parser puts back |
| `Cuts.HeadIsNot` | src/message/fix.message.parser.ts:32-80 | the beginning of a printed message, cut before its last character, is never read as that message |
| `Cuts.TailIsNot` | src/message/fix.message.parser.ts:32-80 | nor is its end, unless exactly its `8=` is missing |
| `Cuts.TwoChunksIff` | src/acceptor/acceptor.ts:136-152 | a printed stream in two chunks is read as if it came in one if and only if the cut falls on a message boundary, right after a message's `8=` or right before its last SOH |
| `Checksum.SummedText` | src/protocol/parser/checksum.validator.ts:15-20 | the first loop builds the rendered fields other than CheckSum, in map order |
| `Checksum.RecomputeChecksum` | src/protocol/parser/checksum.validator.ts:13-31 | computes the three-digit checksum of that text |
| `Checksum.Validate` | src/protocol/parser/checksum.validator.ts:7-11 | true exactly when the CheckSum field is that text |
| `Checksum.AcceptsPrinted` | src/protocol/parser/checksum.validator.ts:7-31 | every message read back from a printed one is accepted |
| `Checksum.DetectsIffSumsDiffer` | src/protocol/parser/checksum.validator.ts:7-31 | changing one value of an accepted message goes unnoticed if and only if the character sums agree mod 256 |
| `Checksum.DetectsSubstitution` | src/protocol/parser/checksum.validator.ts:7-31 | every substitution of one single-byte character in a value is detected |
| `Checksum.MissesExchange` | src/protocol/parser/checksum.validator.ts:22-27 | exchanging two characters of a value is never detected |
| `Checksum.VerdictIff` | src/protocol/parser/checksum.validator.ts:7-31 | fields put in the place of one field of an accepted message, none of them CheckSum, go unnoticed if and only if they have its sum mod 256 |
| `Substitution.DamagedReceived` | src/message/fix.message.parser.ts:47-63 | with a delimiter in a value, the receiver reads the value up to it, or loses the field, and every other field as sent |
| `Substitution.SubstitutionUnnoticedIff` | src/protocol/parser/checksum.validator.ts:7-31 | one wrong single-byte character inside a value of the printed text passes as one accepted message if and only if it is a delimiter and what it takes away sums to 0 mod 256, the field being neither 8 nor 35 if it is lost |
| `Substitution.SubstitutionDetected` | src/protocol/parser/checksum.validator.ts:7-31 | any character but a delimiter leaves one message, which the validator rejects |
| `Substitution.FourAtSignsPass` | src/message/fix.message.parser.ts:54-55 | in a field `x@@@@` a delimiter for the first `@` goes unnoticed |
| `StreamParser.BufferedParser.constructor` | src/protocol/parser/message.parser.ts:8 | starts with an empty buffer |
| `StreamParser.BufferedParser.ProcessData` | src/protocol/parser/message.parser.ts:43-65 | hands on the frames of buffer plus chunk, keeps the leftover, and returns the accepted frames; the loop terminates |
| `StreamParser.FramesCover` | src/protocol/parser/message.parser.ts:49-62 | frames and leftover concatenate back to the input, each frame has its one SOH at the end, the leftover has none |
| `StreamParser.FramesUnique` | src/protocol/parser/message.parser.ts:49-62 | that decomposition is the only one |
| `StreamParser.FramesExtend` | src/protocol/parser/message.parser.ts:46-47 | later text only extends what the buffer still holds |
| `StreamParser.ChunkIndependence` | src/protocol/parser/message.parser.ts:43-65 | however a stream is cut into chunks, frames and final buffer are those of the whole stream |
| `StreamParser.FrameRejected` | src/protocol/parser/message.parser.ts:13-38 | `parse` throws on every single frame |
| `StreamParser.StreamNeverYields` | src/protocol/parser/message.parser.ts:43-65 | no stream in any chunks ever yields a message |
| `StreamParser.PrintedAcceptedIff` | src/protocol/parser/message.parser.ts:13-102 | `parse` accepts a printed message if and only if its BeginString starts with `FIX` and carries a length field that says the length `parse` counts, and the checksum of the fields as read is right |
| `StreamParser.PrintedRejected` | src/protocol/parser/message.parser.ts:67-102 | `parse` throws on every printed message whose BeginString holds no `=` |
| `LengthField.PutAllTotal` | src/protocol/parser/checksum.validator.ts:13-31 | fields set over others leave the sum of those they do not overwrite, plus their own |
| `LengthField.AcceptedIff` | src/protocol/parser/message.parser.ts:13-102 | `parse` accepts a message that is clean but for its BeginString if and only if that starts with `FIX`, carries a length field with the counted length, and what is read of it and not overwritten by the message's own fields has its sum mod 256 |
| `LengthField.FakeAccepted` | src/protocol/parser/message.parser.ts:74-82 | a family of printed messages with such a BeginString, all accepted |
| `LengthField.SomePrintedAccepted` | src/protocol/parser/message.parser.ts:74-82 | one member of that family, so the exception is real |
| `FixDate.LengthIs21` | src/common/date/fix.date.ts:3-14 | the timestamp has 21 characters if and only if the year prints as four |
| `FixDate.Layout` | src/common/date/fix.date.ts:3-14 | after the year stand month from 1 and day, a hyphen, and the time as `hh:mm:ss.mmm`, each with its digits |
| `FixDate.YearIs` | src/common/date/fix.date.ts:5 | the year prints as its shortest decimal, after a sign if it is negative |
| `FixDate.OrderEmbedding` | src/common/date/fix.date.ts:3-14 | for years of the same number of digits, text order is chronological order |
| `FixDate.FourDigits` | src/common/date/fix.date.ts:5 | the years of four digits are 1000 to 9999 |
| `FixDate.FormatInjective` | src/common/date/fix.date.ts:3-14 | distinct times print differently, in all years |
| `FixDate.DifferentWidth` | src/common/date/fix.date.ts:3-14 | between years of different width the shorter text comes first if and only if its day number is at most the leading digits of the other's |
| `FixDate.OrderAgreesIff` | src/common/date/fix.date.ts:3-14 | for any two times in any years, text order agrees with order in time if and only if the condition on signs, widths and leading digits holds |
| `FixDate.NegativeYearsReversed` | src/common/date/fix.date.ts:3-14 | years before 0 of one width never agree |
| `FixDate.OrderBreaksAtYear10000` | src/common/date/fix.date.ts:3-14 | any time in 9999 against any in 10000 comes out in the wrong order |
| `PriorityQueue.StableSortIsStable` | src/common/priority.queue.ts:6 | the sort is descending and keeps the order within each priority |
| `PriorityQueue.StableSortIsUnique` | src/common/priority.queue.ts:6 | there is only one such result, so any stable sort gives it |
| `PriorityQueue.InsertSplits` | src/common/priority.queue.ts:4-7 | ordered insertion puts the entry behind all of at least its priority and before all others, moving nothing else |
| `PriorityQueue.PushAndSortIsInsert` | src/common/priority.queue.ts:4-7 | pushing and re-sorting a sorted queue is ordered insertion |
| `PriorityQueue.PriorityQueue.constructor` | src/common/priority.queue.ts:2 | starts empty |
| `PriorityQueue.PriorityQueue.Enqueue` | src/common/priority.queue.ts:4-7 | push and sort leave the queue with the entry inserted in order |
| `PriorityQueue.PriorityQueue.Dequeue` | src/common/priority.queue.ts:9-11 | removes and returns the first item, nothing on an empty queue |
| `PriorityQueue.OpsOrdered` | src/common/priority.queue.ts:4-11 | after any operations the first element has the highest priority and is the earliest pushed among its equals |
| `MessageQueue.MessageQueue.constructor` | src/protocol/flow/message.queue.ts:41-53 | starts empty, running, with one interval |
| `MessageQueue.MessageQueue.EnqueueMessage` | src/protocol/flow/message.queue.ts:55-58 | inserts the message by its priority and changes nothing else |
| `MessageQueue.MessageQueue.TimerTick` | src/protocol/flow/message.queue.ts:67-76 | a tick starts a batch only when neither paused nor processing nor empty |
| `MessageQueue.MessageQueue.ProcessBatch` | src/protocol/flow/message.queue.ts:78-91 | the loop dequeues min(maxBatchSize, size) messages from the front into one batch |
| `MessageQueue.MessageQueue.MessageSent` | src/protocol/flow/message.queue.ts:93-113 | a successful send counts and moves to the next message; the last one completes the batch |
| `MessageQueue.MessageQueue.MessageFailed` | src/protocol/flow/message.queue.ts:93-118 | a failed send counts, ends the batch and hands all of it to the error handling |
| `MessageQueue.MessageQueue.HandleSendError` | src/protocol/flow/message.queue.ts:120-142 | each place of the batch goes back with the number of its retry as count and priority, or is reported failed and counted; the queue is the stable sort |
| `MessageQueue.MessageQueue.BatchSettled` | src/protocol/flow/message.queue.ts:72-74 | a settled timer batch clears `processing`; a shutdown batch does not |
| `MessageQueue.MessageQueue.PauseQueue` | src/protocol/flow/message.queue.ts:162-164 | sets the pause flag only |
| `MessageQueue.MessageQueue.ResumeQueue` | src/protocol/flow/message.queue.ts:166-169 | clears the pause flag and adds an interval |
| `MessageQueue.MessageQueue.ShutdownQueue` | src/protocol/flow/message.queue.ts:171-183 | pauses and waits for `processing`, or starts its batch at once |
| `MessageQueue.MessageQueue.PollProcessing` | src/protocol/flow/message.queue.ts:174-182 | a waiting shutdown goes on exactly when nothing is processing, with one batch if the queue is not empty |
| `MessageQueue.BatchIsThePrefix` | src/protocol/flow/message.queue.ts:78-91 | each batch is the first min(maxBatchSize, size) messages of the queue and the rest stays in order |
| `MessageQueue.EnqueueRanks` | src/protocol/flow/message.queue.ts:55-58 | an enqueued message stands behind every entry of at least its priority and before every lower one; the others keep their order |
| `MessageQueue.RunBalances` | src/protocol/flow/message.queue.ts:78-142 | on every run, each message is in queue, in flight, completed and reported failed together exactly as often as it was enqueued |
| `MessageQueue.StepOwned` | src/protocol/flow/message.queue.ts:67-91 | batches start and end at exactly the named steps |
| `MessageQueue.RunSingleTimer` | src/protocol/flow/message.queue.ts:67-76 | however many intervals exist, at most one timer batch is in flight, exactly while `processing` is set |
| `MessageQueue.PauseHolds` | src/protocol/flow/message.queue.ts:162-173 | from a pause or a shutdown call until a resume no tick starts a batch, on any run |
| `MessageQueue.ResumeStarts` | src/protocol/flow/message.queue.ts:166-169 | after a resume the next tick starts one, if something is queued and no timer batch is in flight |
| `MessageQueue.ShutdownIsExclusive` | src/protocol/flow/message.queue.ts:171-183 | with one shutdown call and no resume after it, at most one batch is in flight at any time |
| `MessageQueue.OverlapStep` | src/protocol/flow/message.queue.ts:67-91 | a step makes a second batch overlap the one in flight if and only if a tick or a shutdown call goes on, and the one in flight is then a shutdown's |
| `MessageQueue.OverlapsIff` | src/protocol/flow/message.queue.ts:67-91 | a run keeps its batches apart if and only if no batch starts while one is in flight |
| `MessageQueue.OverlapWitnesses` | src/protocol/flow/message.queue.ts:162-183 | a resume with a tick, or a second shutdown, during the shutdown's batch makes two batches overlap |
| `MessageQueue.FailurePutsBack` | src/protocol/flow/message.queue.ts:120-142 | after a failed send the queue is the stable sort of what it held and the places of the batch that may be retried, each with the number of its retry as priority; retry counts and reports follow |
| `MessageQueue.RetryIsPriority` | src/protocol/flow/message.queue.ts:124-128 | without repeats in the batch, every entry a failure adds has its message's new retry count as priority and stands before every entry of lower priority |
| `MessageQueue.ShutdownLeaves` | src/protocol/flow/message.queue.ts:93-133 | from a shutdown's batch on, with any enqueues in between, the queue holds what was beyond the batch, what was enqueued since and, once a send has failed, each message of the batch as often as its retries allow |
| `MessageQueue.ShutdownEmptiesIff` | src/protocol/flow/message.queue.ts:171-183 | it is empty if and only if it fitted into that batch, nothing was enqueued since, and either no send has failed or no queued message had a retry left |
| `MessageQueue.ShutdownAlwaysEmptiesIff` | src/protocol/flow/message.queue.ts:171-183 | without enqueues, it is empty under every pattern of outcomes if and only if the queue fits and no queued message has a retry left |
| `MessageQueue.ShutdownRefills` | src/protocol/flow/message.queue.ts:98-128 | a run in which one failed send of the shutdown's batch leaves a message queued with nothing to send it |
| `MessageQueue.RequeueLightens` | src/protocol/flow/message.queue.ts:120-133 | a failed batch returns with at least one send less per message |
| `MessageQueue.SendsAreBounded` | src/protocol/flow/message.queue.ts:78-133 | without new enqueues, no run sends more than the number computed from the retry counts |
| `MessageQueue.RoundLightens` | src/protocol/flow/message.queue.ts:67-133 | every non-empty batch strictly decreases that number, however its sends turn out |
| `MessageQueue.QueueDrains` | src/protocol/flow/message.queue.ts:67-142 | under any pattern of failures the queue is empty after finitely many batches, every message completed or reported failed as often as it was enqueued |
| `MessageQueue.SendsPerMessage` | src/protocol/flow/message.queue.ts:103-133 | no message is sent more than maxRetries + 2 times per enqueue |
| `MessageQueue.RunMetered` | src/protocol/flow/message.queue.ts:103-160 | no retry count exceeds the larger of maxRetries + 1 and what the message came with, and the two counters account for every send and every reported failure |
| `MessageQueue.CountersTell` | src/protocol/flow/message.queue.ts:93-160 | on any run the first counter counts the sends that succeed, the second those that fail and the messages reported failed |
| `Protocol.ProtocolManager.constructor` | src/protocol/manager.ts:13-17 | starts logged off with an empty queue |
| `Protocol.ProtocolManager.ProcessIncoming` | src/protocol/manager.ts:24-49 | rejects invalid messages without effect, queues before logon, handles otherwise |
| `Protocol.ProtocolManager.HandleMessage` | src/protocol/manager.ts:54-67 | handles one message as specified; the mutual recursion terminates |
| `Protocol.ProtocolManager.HandleLogon` | src/protocol/manager.ts:69-76 | the loop drains the queue through the same handler |
| `Protocol.DrainHandlesEach` | src/protocol/manager.ts:69-76 | a queue without logons is handled once each, in order, and ends empty even when a queued logout clears the flag |
| `Protocol.ValidIff` | src/protocol/validator.ts:15-66 | a message is accepted if and only if it has tags 8, 9, 35, 49, 56, 34 and 52 and, if of type A, tag 108 |
| `Protocol.ArrivalByType` | src/protocol/manager.ts:24-84 | an invalid message changes nothing; a valid one of type A is handled with the whole queue after it; any other waits before the logon and is handled after it; type 5 ends the logon and no other type changes the flag |
| `Protocol.StepLaw` | src/protocol/manager.ts:24-84 | every arrival keeps the trace invariant and adds itself to the trace exactly when valid and no logon |
| `Protocol.TraceLaw` | src/protocol/manager.ts:24-84 | after any run, handled non-logon messages plus the queue are the valid non-logon arrivals in order; the queue holds no logon and is empty while logged on; logged on means a logon handled and no logout since |
| `Protocol.TraceLawFromStart` | src/protocol/validator.ts:15-66 | the same from construction on, with validity as the validator defines it |
| `Rooms.RoomManager.constructor` | src/services/room.manager.ts:9-10 | both indexes start empty |
| `Rooms.RoomManager.JoinRoom` | src/services/room.manager.ts:17-23 | adds the pair to both indexes and nothing else |
| `Rooms.RoomManager.LeaveRoom` | src/services/room.manager.ts:30-35 | removes the pair from both indexes, and emptied sets with it |
| `Rooms.RoomManager.LeaveAllRooms` | src/services/room.manager.ts:41-48 | the loop over the set it shrinks removes the session from every room |
| `Rooms.RoomManager.SessionsInRoom` | src/services/room.manager.ts:55-57 | lists, once each, exactly the sessions that the other index has in the room |
| `Rooms.JoinKeeps` | src/services/room.manager.ts:17-23 | joining keeps both indexes consistent and adds one membership |
| `Rooms.LeaveKeeps` | src/services/room.manager.ts:30-35 | leaving keeps both indexes consistent, without empty sets, and removes one membership |
| `Rooms.LeaveAllKeeps` | src/services/room.manager.ts:41-48 | removes exactly that session and keeps the order of the others in every room |
| `Rooms.RunConsistent` | src/services/room.manager.ts:17-108 | in every reachable state both indexes agree with each other and with the history of joins and leaves |
| `Rooms.RunOrder` | src/services/room.manager.ts:17-57 | after any run a room lists its members in the order in which they joined |
| `Sending.StampLaws` | src/session/session.ts:194-210 | stamping fills in what is missing and touches nothing that is there |
| `Sending.StampAppends` | src/session/session.ts:194-210 | what is missing of 8, 34, 49, 52, 56 is appended in this order |
| `Sending.RestampIsIdentity` | src/protocol/flow/message.queue.ts:120-133 | a message object sent again, by any session, keeps its first number and everything else |
| `Sending.StampedReverse` | src/session/session.ts:124-134 | what goes out is the stamped message with CompIDs swapped and the same number; it is printable if and only if it has a type |
| `Sending.OutcomeIs` | src/session/session.ts:124-141 | a send is refused for a socket that is not writable, else fails on MsgType alone, else is handed to the socket |
| `Sending.RunNumbers` | src/session/session.ts:124-210 | the counter advances by one per send, failed or not; messages without a number go out with strictly increasing allocated numbers, and the socket gets the printed forms in that order |
| `Sending.NumbersRead` | src/session/session.ts:124-210 | in tag 34 of a message of any run that brought no number the peer reads the shortest decimal of the number allocated to it |
| `Sending.ReplyRoutes` | src/acceptor/message.handler.ts:55-65 | swapping the CompIDs of what the peer reads addresses the sending session if and only if the message brought no conflicting CompIDs; the acceptor then rebuilds that session's id |
| `Sending.SessionIdsDistinguish` | src/acceptor/message.handler.ts:234-238 | ids are equal if and only if both CompIDs are, when no sender holds an arrow |
| `Sending.SessionIdAmbiguousIff` | src/acceptor/message.handler.ts:234-238 | another pair of CompIDs has the same id if and only if one of the two holds an arrow |
| `Registry.RunSafe` | src/session/session.manager.ts:27-132 | on every interleaving a limited registry holds at most maxSessions entries, every key is the stored session's id, and the room indexes agree |
| `Registry.RunFromInitSafe` | src/session/session.manager.ts:27-132 | the same three from an empty registry |
| `Registry.RemovalIsComplete` | src/session/session.manager.ts:59-66 | removal takes the id out of the registry and of every room, and touches no other entry or member |
| `Registry.DuplicateLogonReplaces` | src/session/session.manager.ts:108-131 | a session that registers under a live session's id is registered in the end, whatever interleaves, if the holder's logout removes the entry and no other entry is made before the registration goes on |
| `Registry.RegisteredStep` | src/session/session.manager.ts:27-132 | a session is registered after a step if and only if the step registers it, or it was and the step is none of the four kinds that take its entry away |
| `Registry.RegisteredIff` | src/session/session.manager.ts:27-132 | the same over every run, from the history of those steps |
| `Registry.AlwaysRegisteredIff` | src/acceptor/message.handler.ts:94 | logged on means registered throughout a run if and only if no session logs on before it is registered or loses its entry while logged on to anything but its own going down |
| `Registry.MembersRegisteredIff` | src/services/room.manager.ts:17-48 | on every run, each room member is registered throughout if and only if no session joins while its id has no entry and no closing clears the registry while a room has a member |
| `Registry.MembersIff` | src/session/session.manager.ts:59-78 | after any run an id is in a room if and only if it joined and has neither left nor been removed while registered since |
| `Registry.RunStates` | src/session/session.ts:83-317 | after any run a session's state follows from the logons handled for it, the logouts begun for it and its going down |
| `Registry.CloseReadyIff` | src/session/session.manager.ts:71-77 | whatever interleaves with a `closeAll` call, it is about to clear the registry if and only if no registered session was disconnected at the call, none of its logouts has rejected, all have ended, and it has not cleared before |
| `Registry.CloseAllOnAnyRun` | src/session/session.manager.ts:71-78 | on any run, its last step empties the registry under that condition and changes no entry otherwise; who is registered then follows from the history of the run |
| `Registry.CloseAllLeaves` | src/session/session.manager.ts:71-78 | undisturbed, with its logouts in any order and any of them throwing, it leaves exactly the sessions disconnected at the call and those a handler of which threw before their removal |
| `Registry.CloseAllEmptiesIff` | src/session/session.manager.ts:71-78 | so, undisturbed, it empties the registry if and only if there are none of these |
| `Registry.ClosingDisturbed` | src/session/session.manager.ts:75 | a run in which a session that connects meanwhile stays, though none was disconnected at the call and every session that was there left |
| `Registry.CreatedSessionBlocksClose` | src/session/session.manager.ts:27-37 | after any run without a logon for it, a session made by `createSession` that is still registered makes `closeAll` reject at once |
| `Registry.LogonUnblocksClose` | src/session/session.ts:234-249 | a session that has handled a logon, even one whose response failed, does not make `closeAll` reject before it goes down |
| `Registry.LoggedOnButUnregistered` | src/session/session.ts:102-112 | a run from the start: a logout that ends late removes the session registered since under the same id, which stays logged on |
| `Registry.LogonWithoutRoom` | src/acceptor/message.handler.ts:189-192 | with a full registry, a connecting session ends logged on and unregistered |
| `Sessions.Session.constructor` | src/session/session.ts:45-59 | starts disconnected with number 1 |
| `Sessions.Session.SendMessage` | src/session/session.ts:124-150 | stamps the caller's message in place, uses up one number, and writes the printed reverse or reports why not |
| `Sessions.Session.WriteReversed` | src/session/session.ts:132-141 | prints the reversed copy and writes it once, or reports the missing field and writes nothing |
| `Sessions.Session.AddRequiredFields` | src/session/session.ts:194-210 | fills the five defaults in ascending tag order where missing and advances the counter by one |
| `Sessions.Session.BeginLogout` | src/session/session.ts:83-94 | rejects when disconnected, otherwise goes to LOGGING_OUT and waits for its send |
| `Sessions.Session.Logout` | src/session/session.ts:83-94 | makes the registry step of a logout that the application begins |
| `Sessions.Session.LogoutEnds` | src/session/session.ts:99-118 | makes the step of a logout that continues after its send, as far as its handlers let it |
| `Sessions.Session.HandleLogonBegin` | src/session/session.ts:234-237 | makes the step of a handled logon up to its response |
| `Sessions.Session.HandleLogonEnds` | src/session/session.ts:237-248 | makes the step to the error state if the response or a handler fails, and no step otherwise |
| `Sessions.Session.HandleLogout` | src/session/session.ts:251-273 | makes the step of an incoming logout; a logout handler that throws leaves the state unchanged |
| `Sessions.Session.Disconnect` | src/session/session.ts:307-317 | disconnects, and removes the session from the registry and its rooms, as far as its handlers let it |
| `Sessions.SessionManager.constructor` | src/session/session.manager.ts:16-22 | starts as the empty registry |
| `Sessions.SessionManager.CreateSession` | src/session/session.manager.ts:27-37 | makes its registry step: throws exactly at the limit, otherwise registers a new disconnected session under its id |
| `Sessions.SessionManager.RemoveSession` | src/session/session.manager.ts:59-66 | removes the entry and leaves all rooms, only if it is registered |
| `Sessions.SessionManager.RegisterBegin` | src/session/session.manager.ts:108-122 | makes its registry step: starts the holder's logout and waits, or registers at once |
| `Sessions.SessionManager.RegisterEnds` | src/session/session.manager.ts:124-130 | makes its registry step: throws exactly at the limit, otherwise registers |
| `Sessions.SessionManager.CloseAllBegin` | src/session/session.manager.ts:71-74 | makes its registry step: starts a logout of every registered session that is not disconnected, and reports whether one rejects at once |
| `Sessions.SessionManager.CloseAllEnds` | src/session/session.manager.ts:75-76 | makes its registry step: clears the registry once all its logouts have resolved |
| `Sessions.SessionManager.CreateNewSession` | src/acceptor/message.handler.ts:70-97 | makes a session and starts its registration, without awaiting it |
| `Sessions.FixService.constructor` | src/services/fix.service.ts:15-20 | starts without a target |
| `Sessions.FixService.To` | src/services/fix.service.ts:27-30 | sets the target |
| `Sessions.FixService.SendBegin` | src/services/fix.service.ts:63-92 | up to the await, each registered session in the room sends exactly one clone of its own, whatever happens to the others; the caller's message and all other sessions stay; the target is cleared at once only if the room is empty |
| `Sessions.FixService.SendEnd` | src/services/fix.service.ts:95-97 | after the await the target is cleared |
| `Sessions.TargetSurvivesIff` | src/services/fix.service.ts:27-97 | a target survives until the next `to` if and only if no send ends meanwhile |
| `Sessions.BroadcastWrites` | src/services/fix.service.ts:78-92 | each receiving session uses up one number and writes if and only if its socket is writable and the message has a type, with the CompIDs of the session swapped |

## Left out

- Sockets, timers, `EventEmitter`, dependency injection and logging: only their
  effects are modelled (a write log, an outcome chosen by the environment, ticks).
- The initiator: its data handler is empty, and nothing sets the state its logon needs.
- Enumerations, message templates, configuration, credentials and logon validation.
- JSON and object conversions of messages, `removeField`, `clear` and the getters.
- Field keys that are strings, fractional numbers as values, and tags or lengths
  beyond 2^53, where JavaScript loses digits.
- UTF-8 decoding of received bytes: text is a sequence of characters with one code each.
- Inbound sequence numbers: the code keeps one and never reads it.
- Heartbeats and test requests, which are further sends through `sendMessage`.
- User handlers, except which of them throws while a session goes down; that disconnect
  handlers run only once does not hold and is not claimed.
- Exactly-once delivery: messages sent before an error in a batch are sent again.
- MessageQueue.MessageQueue.MessageSent: whether a session is found and its send
  succeeds is the environment's choice; the average processing time is not modelled.
- MessageQueue.MessageQueue.MessageFailed: likewise, whatever the reason of the failure;
  the failure event carries no error object.
- MessageQueue.MessageQueue.EnqueueMessage: a message object is an identity with its
  retry count in a map, and priorities are whole numbers.
- MessageQueue.RunBalances: no listener of the failure event throws; one that does ends
  the error handling there, and the rest of the batch is neither queued nor reported.
- MessageQueue.MessageQueue.HandleSendError: likewise.
- MessageQueue.QueueDrains: starts from a queue with no batch in flight and gets no
  enqueue, pause or shutdown meanwhile.
- MessageQueue.ShutdownLeaves: while the shutdown's batch is followed no other batch starts,
  sends or ends; enqueues, pauses and resumes may interleave.
- Cuts.TwoChunksIff: one cut; a stream in more than two chunks is not followed.
- Registry.RunSafe: a call may continue at any time after what it awaits has settled, so
  the runs include orders that the event loop does not produce; a logon response that
  fails sets the error state in a second step of the run.
- Sessions.FixService.SendBegin: one reading of the clock serves the whole broadcast; the
  unused field helper of that class is not modelled.
- Sessions.SessionManager.CloseAllBegin: the sessions are visited in any order, as the
  result does not depend on it.
