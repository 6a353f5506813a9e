# MaxText: verified models of its protocols, scanners and index arithmetic

This project models, in Dafny, the parts of MaxText whose correctness rests on logic rather than on a numerics library,
and proves what those parts are for. Functions and lemmas describe code made of expressions; code that works by changing
variables, dictionaries or object fields is modelled by methods with loops and by classes, each proved against a
specification function about which the main results are then proved. `dafny verify dfyconfig.toml` checks everything.

| component | modules |
|---|---|
| DeepSeek-V3.2 message encoder and completion parser | `Text`, `Dsv32Encoder`, `Dsv32PromptLaws`, `Dsv32Transcript`, `Dsv32Parser`, `Dsv32RoundTrip`, `Dsv32Completion`, `Dsv32Grammar`, `Dsv32CutTexts` |
| Batching API server, generation loop, stop sequences | `ApiServer`, `Lockstep`, `Generator`, `StopTruncation` |
| Checkpoint resharding arithmetic | `Arithmetic`, `Sequences`, `MixedRadix`, `ChunkAligned`, `FlatMoe`, `WithoutReplicas` |
| Weight stacking for checkpoint conversion | `TensorStack`, `MoveAxis`, `WeightStacking`, `RopeShuffle` |
| Crash-tolerant dataset writers | `ShardFiles`, `ArrayRecordShard`, `ParquetShard`, `ParquetMerge` |
| Resumable HTTP download (RFC 9110, sections 14.2, 14.4, 15.3.7 and 15.5.17) | `Headers`, `ResumableDownload` |
| TFDS resharding without locks | `ReshardTfds` |
| Ramp-up data loader | `RampUpLoader` |

What is outside the code becomes a parameter: tokenizer and model are functions, the server of a download is any function
that follows the range semantics of RFC 9110 (it may answer in full or with any part of what was asked for, tell or hide
sizes, and stop or drop anywhere), connection failures and file-rotation thresholds are arbitrary schedules, and the texts
a model produces are chosen freely by the step that produces them.

## Where the code does less than hoped

Each of these is proved, with the condition under which the property does hold.

- Dropping old reasoning keeps a valid prompt if and only if no developer message (or unknown role) precedes the last
  user turn. Otherwise the discarded message shifts the list and the index runs past its end, which an assertion refuses
  (`DropPreservesPromptIff`, `DropBreaksPrompt`).
- Encoding a conversation in two calls agrees with encoding it at once in chat mode, on valid encodings, if and only if a
  leading tool result, if there is one, closes its results in both or in neither (`IncrementalChatIff`). In thinking mode,
  without a user or developer turn in the new messages the same condition decides, and with one the context must consist
  of system messages (`IncrementalThinkingIff`, with the one kind of context where texts decide in `HeadMakesUpIff`).
- The completion parser accepts exactly the texts of a grammar (`AcceptedIff`). It contains the printed turns, but also
  texts without the end-of-sentence token: after a closed tool block, and, silently losing calls, texts that stop after
  the opening of the block, after a whole call, after a name, or after a parameter (`UnendedAcceptedIff`,
  `CutLosesCalls`, `OpenedBlockAccepted`).
- The server drops the requests of a round without any answer if and only if none of the accepted ones carries a prompt
  (`BroadcastLosesIff`, `LossExample`); such a client waits for its timeout.
- The download never looks at where a partial answer starts. Such an answer is safe for every content if and only if its
  range starts at the requested offset (`SafeRangeIff`, `LaterRangeMisplaces`), and the size it leads to is right if and
  only if it tells the total or gives the length of all that was asked for (`TotalSizeRight`, `ShortRangeTruncates`).
- A download from a server that meets both conditions returns a truncated file if and only if an answer stops early
  unnoticed while neither it nor any earlier answer told the size (`TruncatesIff`, `UntoldMayTruncate`). With the complete
  file already on disk an attempt returns only when the server sends the whole content again, or a short body without any
  size (`CompleteFileReturnsIff`, `CompleteFileNeverReturns`).
- Reshard workers keep apart if and only if the worker count divides the shard count, once there are more records than
  shards (`NoCollisionIff`); the adjustment in `main` is therefore needed, and enough.
- An end token may survive in a completion in one place only: the unchecked first token of a stream that went on
  (`CompletionEndTokensIff`).
- A merge of Parquet files that is interrupted loses no row, but from its first deletion on the checkpoints name files
  that no longer exist (`InterruptedMerge`).

## Model

| member | source | states |
|---|---|---|
| Dsv32Encoder.FindLastUserIndex | benchmarks/api_server/encoding/encoding_dsv32.py:146-152 | the backwards scan returns the last user or developer message: nothing after it is one |
| Dsv32Encoder.LookBack | benchmarks/api_server/encoding/encoding_dsv32.py:209-213 | the look-back from a tool result stops at the nearest earlier message that is not a tool result |
| Dsv32Encoder.EncodeArgumentsToDsml | benchmarks/api_server/encoding/encoding_dsv32.py:106-122 | one parameter tag per argument, in order, joined by line feeds |
| Dsv32Encoder.DropThinkingMessages | benchmarks/api_server/encoding/encoding_dsv32.py:269-283 | the loop computes `DropThinking`, about which the laws below are proved |
| Dsv32Encoder.EncodeMessages | benchmarks/api_server/encoding/encoding_dsv32.py:286-304 | the prompt is the begin token (first call only) and the renderings of the new messages in order, or the first error: `Encode`, which `EncodesIff` characterises |
| Dsv32Encoder.RenderLoop | benchmarks/api_server/encoding/encoding_dsv32.py:301-304 | accumulating the prompt message by message equals rendering the whole range, errors included |
| Dsv32Transcript.ResultAt | benchmarks/api_server/encoding/encoding_dsv32.py:208-234 | the i-th result behind an assistant message is accepted if and only if that message has an i-th call; the first opens the block, and the one for the last call closes it and sets the thinking mark exactly in thinking mode with no later turn |
| Dsv32Transcript.ResultsRange | benchmarks/api_server/encoding/encoding_dsv32.py:208-234 | any stretch of the results of one assistant message prints the results in order, with the opening if it holds the first and the closing and mark if it holds the last call's |
| Dsv32Transcript.PartsPrint | benchmarks/api_server/encoding/encoding_dsv32.py:155-266 | behind any context, a conversation of instructions, questions and answers with at most as many results as calls is encoded as its transcript, read from left to right |
| Dsv32Transcript.PartsRead | benchmarks/api_server/encoding/encoding_dsv32.py:155-266 | every accepted conversation that does not start inside a block of results is of that kind |
| Dsv32Transcript.EncodesIff | benchmarks/api_server/encoding/encoding_dsv32.py:286-304 | encoding such messages gives a text if and only if nothing is discarded when reasoning is dropped, and the text, behind the begin token of a first call, is the transcript of a reading of them |
| Dsv32Transcript.ContinuesIff | benchmarks/api_server/encoding/encoding_dsv32.py:208-304 | messages that start inside a block of results, behind a context that ends in it, are encoded if and only if there are calls for all results so far and a conversation follows: as the rest of the block and its transcript |
| Dsv32PromptLaws.DropIdempotent | benchmarks/api_server/encoding/encoding_dsv32.py:269-283 | dropping reasoning twice is dropping it once, for every conversation |
| Dsv32PromptLaws.DropKeepsShape | benchmarks/api_server/encoding/encoding_dsv32.py:269-283 | the length is kept exactly when no developer message or unknown role precedes the last turn, and then everything is kept but the reasoning of the assistant messages before it |
| Dsv32PromptLaws.DropPreservesPrompt | benchmarks/api_server/encoding/encoding_dsv32.py:252-302 | when nothing is discarded, encoding with and without dropping give the same prompt or the same error |
| Dsv32PromptLaws.DropBreaksPrompt | benchmarks/api_server/encoding/encoding_dsv32.py:298-302 | when something is discarded, the encoding fails |
| Dsv32PromptLaws.DropPreservesPromptIff | benchmarks/api_server/encoding/encoding_dsv32.py:252-302 | on encodable input dropping preserves the prompt if and only if no discarded role precedes the last turn |
| Dsv32PromptLaws.IncrementalChat | benchmarks/api_server/encoding/encoding_dsv32.py:286-304 | in chat mode, encoding context and then messages equals encoding both at once, errors included, unless a leading tool result changes between finding no call, one and more |
| Dsv32PromptLaws.IncrementalChatIff | benchmarks/api_server/encoding/encoding_dsv32.py:208-304 | on valid encodings the two agree if and only if a leading tool result, if there is one, finds exactly one call in both or in neither |
| Dsv32PromptLaws.HeadRenders | benchmarks/api_server/encoding/encoding_dsv32.py:208-234 | a leading tool result is refused exactly when the last message has no call, and closes the results exactly when it has one |
| Dsv32PromptLaws.IncrementalChatNeedsNonToolHead | benchmarks/api_server/encoding/encoding_dsv32.py:208-221 | an input where splitting after a leading tool result turns success into an error |
| Dsv32PromptLaws.LaterTurnClosesThinking | benchmarks/api_server/encoding/encoding_dsv32.py:194-206 | once a later turn exists, the context's own last turn is printed differently, so the two prints differ |
| Dsv32PromptLaws.LaterTurnShortens | benchmarks/api_server/encoding/encoding_dsv32.py:231-256 | without a turn in the context, each assistant message of it loses its reasoning part when a turn follows: the print gets strictly shorter |
| Dsv32PromptLaws.IncrementalThinking | benchmarks/api_server/encoding/encoding_dsv32.py:286-304 | in thinking mode the two encodings agree, errors included, when the new messages hold no turn and a leading tool result finds alike |
| Dsv32PromptLaws.IncrementalThinkingIff | benchmarks/api_server/encoding/encoding_dsv32.py:286-304 | on valid encodings they agree if and only if, without a new turn, a leading tool result agrees, and with one, the context is all system messages; one kind of context with a leading tool result is treated below |
| Dsv32PromptLaws.HeadNeverAlike | benchmarks/api_server/encoding/encoding_dsv32.py:208-262 | after a leading tool result a later turn always shows in the print of the context, whatever the texts |
| Dsv32PromptLaws.HeadMakesUpIff | benchmarks/api_server/encoding/encoding_dsv32.py:208-262 | when the result closes only together with what follows, and only a later turn exists, the prints agree if and only if the rest of the context prints that closing more |
| Dsv32PromptLaws.HeadMakesUp | benchmarks/api_server/encoding/encoding_dsv32.py:208-262 | a family of such contexts with both outcomes: reasoning equal to the closing text, and no other, makes up for it |
| Dsv32Parser.ReadUntilStop | benchmarks/api_server/encoding/encoding_dsv32.py:307-322 | the loop over stop tokens finds the nearest one, the first listed on a tie |
| Dsv32Parser.ReadSpec | benchmarks/api_server/encoding/encoding_dsv32.py:307-322 | content, stop token and the rest make up the text again, and no stop token starts inside the content |
| Dsv32Parser.ParseParameterLoop | benchmarks/api_server/encoding/encoding_dsv32.py:348-359 | the parameter loop ends on every input and computes the recursive specification |
| Dsv32Parser.ParseToolCalls | benchmarks/api_server/encoding/encoding_dsv32.py:325-364 | the tool-call loop ends on every input, the scan index advancing each turn, and computes the specification with every format error |
| Dsv32Parser.ParseMessageFromCompletionText | benchmarks/api_server/encoding/encoding_dsv32.py:368-403 | the parser computes `ParseMessage`, about which the results below are proved |
| Dsv32RoundTrip.ReadStep | benchmarks/api_server/encoding/encoding_dsv32.py:307-322 | content free of the stop tokens, followed by a stop token, is read back as exactly that content and token |
| Dsv32RoundTrip.MatchNameRendered | benchmarks/api_server/encoding/encoding_dsv32.py:343-345 | the name pattern reads back any tool name, with or without the blank line of a call without parameters |
| Dsv32RoundTrip.MatchParamRendered | benchmarks/api_server/encoding/encoding_dsv32.py:351-353 | the parameter pattern with its lazy groups reads back every argument whose key holds no marker, with or without a line feed after it |
| Dsv32RoundTrip.ArgsParse | benchmarks/api_server/encoding/encoding_dsv32.py:347-359 | a printed list of clean arguments with distinct keys scans back to that list, in order |
| Dsv32RoundTrip.CallsRenderedAs | benchmarks/api_server/encoding/encoding_dsv32.py:241-248 | the printed tool block, regrouped in the order the scanner meets it |
| Dsv32RoundTrip.CallsParse | benchmarks/api_server/encoding/encoding_dsv32.py:325-364 | a printed block of any number of clean calls, also without arguments, scans back to those calls |
| Dsv32Completion.ParsedIsClean | benchmarks/api_server/encoding/encoding_dsv32.py:368-403 | whatever is accepted, the returned message holds no special token, no stop token inside a name, key or value, and no repeated key |
| Dsv32Completion.RoundTripIff | benchmarks/api_server/encoding/encoding_dsv32.py:236-262 | printing and parsing undo each other on exactly the clean messages, in both modes |
| Dsv32Completion.RenderedTurnParses | benchmarks/api_server/encoding/encoding_dsv32.py:236-403 | an assistant turn rendered inside any conversation parses back to its reasoning, content and ordered calls if and only if it is clean |
| Dsv32Completion.EndTokenOptionalIff | benchmarks/api_server/encoding/encoding_dsv32.py:387-393 | of the complete prints of clean turns without the end token, exactly those with tool calls parse back |
| Dsv32Completion.AcceptedExactly | benchmarks/api_server/encoding/encoding_dsv32.py:368-403 | a text without a tool block is accepted if and only if it is, character for character, the print of the returned message |
| Dsv32Grammar.MatchNameIff | benchmarks/api_server/encoding/encoding_dsv32.py:343-345 | the name pattern matches exactly white space, the name in its frame, and at most one line feed more |
| Dsv32Grammar.MatchParamIff | benchmarks/api_server/encoding/encoding_dsv32.py:351-353 | the parameter pattern matches exactly the printed body, with at most one line feed more, of an argument whose key holds no marker |
| Dsv32Grammar.DerivableParses | benchmarks/api_server/encoding/encoding_dsv32.py:325-403 | every text of the grammar is accepted and parses to what its tree means |
| Dsv32Grammar.AcceptedDerives | benchmarks/api_server/encoding/encoding_dsv32.py:325-403 | every accepted text is written in the grammar |
| Dsv32Grammar.AcceptedIff | benchmarks/api_server/encoding/encoding_dsv32.py:307-403 | for every text and message: the parser returns that message if and only if the text derives it in the grammar, tool blocks and cut texts included |
| Dsv32CutTexts.UnendedAcceptedIff | benchmarks/api_server/encoding/encoding_dsv32.py:330-396 | an accepted text lacks the end token if and only if it is written with a tool block that is closed, or cut at one of the four places, without that token |
| Dsv32CutTexts.PrintedTurn | benchmarks/api_server/encoding/encoding_dsv32.py:236-262 | a printed turn with calls is the text of the tree of its printed calls, so the grammar covers the printer |
| Dsv32CutTexts.CutLosesCalls | benchmarks/api_server/encoding/encoding_dsv32.py:330-396 | every clean turn with calls has, for each k, a beginning that is accepted as the same turn with only its first k calls |
| Dsv32CutTexts.OpenedBlockAccepted | benchmarks/api_server/encoding/encoding_dsv32.py:382-396 | clean content followed by nothing but the opening of a tool block is accepted as a message without calls |
| ApiServer.NextKeepsInv | benchmarks/api_server/maxtext_server.py:109-417 | every step of clients and loop, in any interleaving, keeps the invariant: own answers only, made of texts that one call of the model gave for these very prompts, one delivery, one place per request, a stored response for whoever waits for an answered request, prompts aligned with the request map |
| ApiServer.RunKeepsInv | benchmarks/api_server/maxtext_server.py:377-417 | the invariant holds after every run |
| ApiServer.CallsMade | benchmarks/api_server/maxtext_server.py:402-407 | each recorded call of the model is an action of the run, taken when its requests were the accepted ones and their prompts, in order, were to be generated |
| ApiServer.DeliveriesSafe | benchmarks/api_server/maxtext_server.py:109-142 | over every run, a delivery is an error or holds one completion for each of the receiver's own prompts in order, whose texts are those that one generation step of the run gave at the places of these prompts; and nobody receives twice |
| ApiServer.OwnSlice | benchmarks/api_server/maxtext_server.py:363-374 | the slice of completions taken for an entry is always in range and holds the texts behind those of the prompts before it |
| ApiServer.BetweenRounds | benchmarks/api_server/maxtext_server.py:377-417 | between rounds every request is queued, has its response stored or delivered, was given up by its client, or had no prompts |
| ApiServer.BroadcastLosesIff | benchmarks/api_server/maxtext_server.py:345-346 | a round loses requests if and only if it accepted some and none of them has a prompt |
| ApiServer.LostForever | benchmarks/api_server/maxtext_server.py:345-346 | a lost request never gets a response |
| ApiServer.LossExample | benchmarks/api_server/maxtext_server.py:345-346 | a run that loses a request with an empty prompt list |
| ApiServer.RoundProgress | benchmarks/api_server/maxtext_server.py:377-417 | once a batch is closed only the loop's own steps move it, and each brings the round nearer its end |
| ApiServer.RoundNotStuck | benchmarks/api_server/maxtext_server.py:377-417 | and the step that makes it go on without any failure is always possible |
| ApiServer.RoundEnds | benchmarks/api_server/maxtext_server.py:377-417 | from any reachable state in a round, every run with as many loop steps as there is work left, clients interleaved at will, passes the end of the round |
| ApiServer.CollectedAreConcluded | benchmarks/api_server/maxtext_server.py:377-417 | there every request of that round has its response stored or delivered, was given up by its client, or was lost for having no prompts |
| ApiServer.Server.QueueRequest | benchmarks/api_server/maxtext_server.py:126-127 | the request is appended to the queue, and the state moves as the submit step |
| ApiServer.Server.PollResponse | benchmarks/api_server/maxtext_server.py:130-138 | a waiting client gets its response if there is one, which leaves the dictionary, and the state moves as the poll step |
| ApiServer.Server.CollectBatchedRequests | benchmarks/api_server/maxtext_server.py:290-308 | exactly as many requests as fit, are there and come in time are taken from the front of the queue, nothing lost or reordered |
| ApiServer.Server.PrepareBatchForBroadcast | benchmarks/api_server/maxtext_server.py:311-360 | the request map lists the readable requests in order and the payload holds their prompts in that order; every unreadable request gets its error, an oversized batch an error for each of the others, and nobody else anything |
| ApiServer.Server.FailAll | benchmarks/api_server/maxtext_server.py:355-359 | every entry of the round gets the error, no other response changes, and the round ends |
| ApiServer.Server.ProcessResults | benchmarks/api_server/maxtext_server.py:363-374 | slicing by a running index gives every entry the answer made of its own texts, unless a response cannot be built |
| ApiServer.Server.GenerateAndPublish | benchmarks/api_server/maxtext_server.py:402-417 | every entry gets the answer whose j-th text is the one generated for its j-th prompt if generation and the building of all responses succeed, and every entry the error otherwise; no other response changes |
| ApiServer.TakenSettled | benchmarks/api_server/maxtext_server.py:377-417 | requests taken from the front of the queue are answered, with the response there for whoever waits, or lost once the round has ended |
| ApiServer.OutcomesFrom | benchmarks/api_server/maxtext_server.py:311-417 | from rejected, failed and served entries to the outcome of each request taken: its error, or the answer made of the texts behind those of the prompts before its own |
| ApiServer.Server.MainLoopTurn | benchmarks/api_server/maxtext_server.py:377-417 | one turn takes the front of the queue; each request taken then has exactly its outcome among the responses: the format error, the size error, the inference error, the answer with the texts generated for its prompts, or, when none of those taken has a prompt, nothing; no other response changes |
| Lockstep.Round | benchmarks/api_server/maxtext_server.py:387-400 | in one round all ranks generate from the offered payload, or all skip |
| Lockstep.DecisionIsOffer | benchmarks/api_server/maxtext_server.py:387-400 | padding to the fixed size and cutting at the announced length give back the payload |
| Lockstep.InLockstep | benchmarks/api_server/maxtext_server.py:377-417 | over any number of rounds and ranks, each rank generates from exactly the payloads rank 0 offered, in order |
| Generator.GenerateBatch | benchmarks/api_server/maxtext_generator.py:216-235 | generation in chunks that fit the engine returns one result per prompt, in order |
| Generator.GenerationStream.Advance | benchmarks/api_server/maxtext_generator.py:413-448 | one token appended and the finish conditions applied, as the step function says |
| Generator.GenerateStep | benchmarks/api_server/maxtext_generator.py:392-450 | one step moves every unfinished stream and no other |
| Generator.RunGenerationLoop | benchmarks/api_server/maxtext_generator.py:386-452 | the loop with its early exit leaves each stream as running it alone for all steps would, and as `StreamEnd` demands: the engine's tokens for its slot up to the first place where there is enough, or else exactly as many as are wanted |
| Generator.EndsAsWanted | benchmarks/api_server/maxtext_generator.py:386-448 | a stream has exactly the tokens wanted (`max_tokens` within the room, else the room, at least one), unless before that an end token, a stop text or the target length ended it, and says which |
| Generator.StreamEndUnique | benchmarks/api_server/maxtext_generator.py:386-448 | nothing is left open: at most one outcome meets `StreamEnd` |
| Generator.FinishedStays | benchmarks/api_server/maxtext_generator.py:386-448 | a finished stream is never changed again |
| Generator.RunLength | benchmarks/api_server/maxtext_generator.py:413-448 | an unfinished stream has one token per step and its length stays below the target; a finished one grew, and says whether it stopped |
| Generator.UnfinishedAlike | benchmarks/api_server/maxtext_generator.py:386-448 | all unfinished streams have the same generated length |
| Generator.TokenBudget | benchmarks/api_server/maxtext_generator.py:386-388 | a stream never exceeds `max_tokens` (from 1 on) nor 1 + target - prefill tokens |
| Generator.EndTokenPlaces | benchmarks/api_server/maxtext_generator.py:413-448 | an end token is the unchecked first token or the last one, and the last one finishes the stream |
| Generator.CompletionEndTokensIff | benchmarks/api_server/maxtext_generator.py:458-464 | a completion shows all tokens but an end token in the last place, and so holds an end token if and only if the first token is one and the stream went on |
| Generator.BuildCompletions | benchmarks/api_server/maxtext_generator.py:454-495 | tokens, text, reason, offsets, log probabilities and counts of every completion, with and without echo |
| Generator.LogpsAligned | benchmarks/api_server/maxtext_generator.py:458-482 | with one log probability per token, those of exactly the tokens shown are returned; the list is withheld exactly when its length fits neither all tokens nor those shown |
| Generator.ProcessChunk | benchmarks/api_server/maxtext_generator.py:237-292 | streams, step loop and completions together give each prompt of the chunk the completion of its own stream: index, tokens wanted, text, reason, offsets and counts |
| Generator.ChunkServes | benchmarks/api_server/maxtext_generator.py:237-292 | each completion of a chunk counts its own prompt, shows it when echoed, and stays within the tokens wanted: the premise of chunked generation |
| Generator.TokenOffsets | benchmarks/api_server/maxtext_generator.py:528-547 | the cumulative decoding loop computes the offsets |
| Generator.OffsetSteps | benchmarks/api_server/maxtext_generator.py:528-547 | each token moves the offset by the growth of the decoded prefix or, where that shrinks, by its own text |
| Generator.OffsetsSorted | benchmarks/api_server/maxtext_generator.py:541-547 | the offsets never decrease, for any decoder |
| Generator.OffsetsExact | benchmarks/api_server/maxtext_generator.py:528-547 | for a decoder whose prefixes only grow, each offset is the length of the text before its token |
| StopTruncation.GeneratedPayloadWellFormed | benchmarks/api_server/server_utils.py:246-264 | cutting the lists to one length leaves equal lists with sorted offsets |
| StopTruncation.BisectLeft | benchmarks/api_server/server_utils.py:328-328 | bisection on sorted offsets splits them into those below the cut and the others |
| StopTruncation.ApplyStopsToTextAndLogprobs | benchmarks/api_server/server_utils.py:306-340 | the loops compute `ApplyStops`, about which the next three are proved |
| StopTruncation.CutAtEarliestStop | benchmarks/api_server/server_utils.py:311-324 | the result holds no stop sequence and is the text up to the earliest one; stopping is reported exactly when there is one |
| StopTruncation.KeptTokens | benchmarks/api_server/server_utils.py:327-337 | kept are exactly the tokens with offset below the cut, in all lists alike |
| StopTruncation.CutIdempotent | benchmarks/api_server/server_utils.py:306-340 | cutting again changes nothing |
| ReshardTfds.ReshardRawBytesWorker | tools/data_generation/reshard_tfds.py:86-140 | each file a worker writes holds, in order, the records it sends there; the length map agrees |
| ReshardTfds.SentIsResidue | tools/data_generation/reshard_tfds.py:112-121 | when the workers divide the shards, a worker sends a shard either all records of its residue, in order, or none |
| ReshardTfds.AdjustWorkers | tools/data_generation/reshard_tfds.py:225-229 | the search ends with the largest divisor of the shard count not above the request |
| ReshardTfds.NoCollisionIff | tools/data_generation/reshard_tfds.py:112-125 | with more records than shards, no two workers write one shard if and only if the worker count divides the shard count |
| ReshardTfds.WorkerShards | tools/data_generation/reshard_tfds.py:116-125 | a worker writes only shards of its own, and writes those completely |
| ReshardTfds.ReshardSplit | tools/data_generation/reshard_tfds.py:221-278 | shard t ends up with exactly the records whose index is t modulo the shard count, in order, with its right length |
| ReshardTfds.LengthsBalanced | tools/data_generation/reshard_tfds.py:266-278 | the lengths sum to the number of records and differ by at most one |
| MixedRadix.DecodeEncode | src/maxtext/checkpoint_conversion/reshard_checkpoint.py:175-175 | every device number below the product of the mesh is the number of the position it decodes to |
| MixedRadix.EncodeDecode | src/maxtext/checkpoint_conversion/reshard_checkpoint.py:175-175 | and every position is decoded back from its number |
| MixedRadix.EncodeInjective | src/maxtext/checkpoint_conversion/reshard_checkpoint.py:233-239 | a shard number over several axes determines the position on each of them |
| MixedRadix.WideEncodes | src/maxtext/checkpoint_conversion/reshard_checkpoint.py:171-176 | axes of size one may be left out of the device mesh without changing any device number |
| WithoutReplicas.RestrictedDevice | src/maxtext/checkpoint_conversion/reshard_checkpoint.py:238-239 | a device of the restricted mesh is one of the full mesh and holds the same shard |
| WithoutReplicas.KeptDistinct | src/maxtext/checkpoint_conversion/reshard_checkpoint.py:233-239 | two kept devices never hold the same shard |
| WithoutReplicas.ShardsKeptOnce | src/maxtext/checkpoint_conversion/reshard_checkpoint.py:233-239 | every shard of the full mesh is kept on exactly one device |
| WithoutReplicas.ReplicasIff | src/maxtext/checkpoint_conversion/reshard_checkpoint.py:235-237 | the mesh is left alone if and only if no two of its devices hold the same shard |
| WithoutReplicas.ShardInRange | src/maxtext/checkpoint_conversion/reshard_checkpoint.py:233-234 | a device's shard number stays below the number of blocks its spec entry makes |
| WithoutReplicas.EveryShardHeld | src/maxtext/checkpoint_conversion/reshard_checkpoint.py:233-239 | every combination of block numbers is the shard of some device |
| ChunkAligned.AxisOrderSorted | src/maxtext/checkpoint_conversion/reshard_checkpoint.py:168-168 | the order visits each axis once, by falling number of chunks, equal ones by axis number |
| ChunkAligned.LargestDivisor | src/maxtext/checkpoint_conversion/reshard_checkpoint.py:169-169 | the largest divisor within the budget, which exists exactly for a positive grid and budget |
| ChunkAligned.ChunkSplits | src/maxtext/checkpoint_conversion/reshard_checkpoint.py:166-170 | the greedy loop fails only on an empty grid axis or no device; splits divide the grid, their product never exceeds the devices, they equal the grid if and only if the grid fits, and no axis has a larger divisor that would fit beside the axes visited before it |
| ChunkAligned.BestUnique | src/maxtext/checkpoint_conversion/reshard_checkpoint.py:166-170 | these conditions leave exactly one choice of splits |
| ChunkAligned.ChunkAlignedSharding | src/maxtext/checkpoint_conversion/reshard_checkpoint.py:162-177 | no sharding exactly for a missing or mismatched chunk shape; for positive shapes and a device it always finds one, and no axis could be split further |
| ChunkAligned.SameChunkSameBlock | src/maxtext/checkpoint_conversion/reshard_checkpoint.py:162-170 | along one axis positions of the same stored chunk lie in the same block |
| ChunkAligned.DeviceNumber | src/maxtext/checkpoint_conversion/reshard_checkpoint.py:171-177 | the mesh over the split axes places a position on the device numbered by its block |
| ChunkAligned.BlocksTile | src/maxtext/checkpoint_conversion/reshard_checkpoint.py:171-177 | each position is on exactly one device, the one whose block holds it: the blocks tile the array without replication |
| ChunkAligned.ChunkOnOneDevice | src/maxtext/checkpoint_conversion/reshard_checkpoint.py:148-149 | every stored chunk lies on one device, so it is read once |
| FlatMoe.FlatRow | src/maxtext/checkpoint_conversion/reshard_checkpoint.py:203-204 | flat row e * rows + i is row i of expert e |
| FlatMoe.CopyStep | src/maxtext/checkpoint_conversion/reshard_checkpoint.py:209-213 | one turn of the copy loop stays in range, advances, and appends the next flat rows |
| FlatMoe.Block | src/maxtext/checkpoint_conversion/reshard_checkpoint.py:206-214 | for any slice bounds the block is that stretch of flat rows, and concatenation raises exactly when it is empty |
| FlatMoe.PiecesReassemble | src/maxtext/checkpoint_conversion/reshard_checkpoint.py:216-216 | pieces cut at ascending bounds join to the stretch between the outer bounds |
| FlatMoe.MakeArray | src/maxtext/checkpoint_conversion/reshard_checkpoint.py:206-216 | for bounds that tile the flat rows, the blocks returned are the pieces between the bounds and join to the flat array |
| FlatMoe.PieceRow | src/maxtext/checkpoint_conversion/reshard_checkpoint.py:203-216 | in those pieces row i of expert e stands at flat position e * rows + i |
| TensorStack.ChunkedIsStack | src/maxtext/checkpoint_conversion/utils/tensor_handling.py:91-103 | stacking by halves gives the same array as stacking at once, for every axis, and fails on the same inputs |
| MoveAxis.MovedShape | src/maxtext/checkpoint_conversion/to_maxtext.py:485-486 | the moved axes get the leading dimensions, the others keep theirs in order |
| MoveAxis.MovedElement | src/maxtext/checkpoint_conversion/to_maxtext.py:485-486 | an element after the move is the original element at the moved coordinates followed by the remaining ones |
| MoveAxis.RemoveAxesIsWithout | src/maxtext/checkpoint_conversion/utils/tensor_handling.py:82-88 | taking the axes out one by one leaves what `slice_shape` leaves |
| MoveAxis.SplitDetermines | src/maxtext/checkpoint_conversion/utils/tensor_handling.py:82-88 | dimensions on the stacked axes and the slice shape together determine the shape |
| WeightStacking.StackedAxesIncrease | src/maxtext/checkpoint_conversion/utils/tensor_handling.py:50-79 | the stacked axes are strictly increasing in every layout |
| WeightStacking.DepthOfUniform | src/maxtext/checkpoint_conversion/utils/tensor_handling.py:36-47 | following first elements measures the depth of an evenly nested list |
| WeightStacking.GatheredIff | src/maxtext/checkpoint_conversion/to_maxtext.py:474-484 | gathering succeeds with a given shape if and only if the names form that grid of equally shaped tensors |
| WeightStacking.GatheredElement | src/maxtext/checkpoint_conversion/to_maxtext.py:474-484 | an element of the gathered tensor is an element of the source its leading coordinates select |
| WeightStacking.GatherOnDevice | src/maxtext/checkpoint_conversion/utils/tensor_handling.py:147-156 | gathering by halves on the device gives the same tensor as on the host |
| WeightStacking.MultiAxisEquation | src/maxtext/checkpoint_conversion/to_maxtext.py:468-487 | the stacking equation for any depth and layout: each element is that of the source selected by the stacked coordinates, at the remaining coordinates |
| WeightStacking.BlockScanElement | src/maxtext/checkpoint_conversion/utils/tensor_handling.py:72-74 | in a nested block scan the element at coordinates b, l on the scan axis and the next comes from the source of block b and local layer l, at the other coordinates |
| WeightStacking.ExpertBlockElement | src/maxtext/checkpoint_conversion/utils/tensor_handling.py:75-78 | with experts outside, the expert coordinate comes first, and the scan axis is not the first |
| WeightStacking.LeadingElement | src/maxtext/checkpoint_conversion/utils/tensor_handling.py:79-79 | for all other names the leading coordinates select the source, outermost first |
| WeightStacking.TargetShapeIff | src/maxtext/checkpoint_conversion/to_maxtext.py:468-487 | the parameter gets the target shape if and only if the names form the right grid and each hooked source has the slice shape |
| WeightStacking.OnDeviceAgrees | src/maxtext/checkpoint_conversion/utils/tensor_handling.py:106-163 | the on-device assembly equals the host assembly and fails on the same inputs |
| WeightStacking.DirectPlacement | src/maxtext/checkpoint_conversion/to_maxtext.py:543-544 | stacking at an axis equals stacking in front and moving the axis there |
| WeightStacking.BuildSingleAxis | src/maxtext/checkpoint_conversion/to_maxtext.py:513-544 | the single-axis assembly, with its choice of axis, satisfies the same element equation and agrees with stack-then-move |
| RopeShuffle.ShuffleIff | src/maxtext/checkpoint_conversion/to_maxtext.py:766-778 | the shuffle fails exactly on rows of the wrong length and on odd heads, and keeps the length |
| RopeShuffle.ShuffledElement | src/maxtext/checkpoint_conversion/to_maxtext.py:771-778 | within each head, positions 2i and 2i + 1 hold elements i of the two halves |
| RopeShuffle.ShuffleInvertible | src/maxtext/checkpoint_conversion/to_maxtext.py:766-778 | the shuffle and its inverse undo each other on every row, so nothing is lost |
| ShardFiles.NextFileIsFree | tools/data_generation/download_hf_dataset_as_arrayrecord.py:256-260 | whatever is written to the file numbered by the checkpoint, the disk stays consistent: a rollback may overwrite it |
| ShardFiles.FileFinished | tools/data_generation/download_hf_dataset_as_arrayrecord.py:268-279 | checkpointing a completed file keeps the disk consistent |
| ArrayRecordShard.StepKeepsOk | tools/data_generation/download_hf_dataset_as_arrayrecord.py:281-326 | writing, rotating, failing, being killed and restarting all keep the invariant of disk and worker |
| ArrayRecordShard.RunKeepsOk | tools/data_generation/download_hf_dataset_as_arrayrecord.py:281-326 | and so does every run |
| ArrayRecordShard.ExactlyOnce | tools/data_generation/download_hf_dataset_as_arrayrecord.py:230-331 | under any schedule of errors, kills and re-runs the checkpointed files hold exactly the first records, no later file exists, and at the end the listed files hold the shard in order |
| ArrayRecordShard.ListedFiles | tools/data_generation/download_hf_dataset_as_arrayrecord.py:256-331 | the files a worker lists hold exactly the records it has consumed |
| ArrayRecordShard.ShardWorker.WriteExample | tools/data_generation/download_hf_dataset_as_arrayrecord.py:285-308 | writing a record, and rotating when the file is full, move the state as the abstract steps |
| ArrayRecordShard.ShardWorker.StreamExamples | tools/data_generation/download_hf_dataset_as_arrayrecord.py:284-309 | streaming goes from the checkpoint to the first failing fetch or the end of the data, and the checkpoint then stands right behind the last record that filled a file |
| ArrayRecordShard.ShardWorker.ProcessShard | tools/data_generation/download_hf_dataset_as_arrayrecord.py:281-331 | a normal return means the whole shard is on disk once; each attempt starts at the checkpoint the one before left, and the call gives up exactly after ten attempts that each met a failing fetch; the disk stays consistent |
| ParquetShard.StepKeepsSound | tools/data_generation/download_hf_dataset_as_parquet.py:257-311 | gathering, writing a file, errors and kills before or inside a write that leaves any table behind, and restarting keep the invariant |
| ParquetShard.RunKeepsSound | tools/data_generation/download_hf_dataset_as_parquet.py:257-311 | and so does every run |
| ParquetShard.ExactlyOnce | tools/data_generation/download_hf_dataset_as_parquet.py:239-314 | at every moment of every run, torn tables included, the written files and the pending examples are exactly the examples consumed since the start |
| ParquetShard.ShardWorker.WriteFile | tools/data_generation/download_hf_dataset_as_parquet.py:257-281 | writing the table, then the checkpoint, moves the state as the abstract step; a write that raises leaves any table and changes nothing else |
| ParquetShard.ShardWorker.StreamExamples | tools/data_generation/download_hf_dataset_as_parquet.py:283-305 | gathering goes from the checkpoint to the first failing fetch, the first failing write or the end of the data, and the checkpoint then stands behind the last file written |
| ParquetShard.ShardWorker.ProcessShard | tools/data_generation/download_hf_dataset_as_parquet.py:283-314 | a normal return means the whole shard is written once and checkpointed; each attempt starts at the checkpoint the one before left, and the call gives up exactly after ten attempts that each met a connection error while fetching or writing; in any case the disk stays consistent |
| ParquetMerge.SortFacts | tools/data_generation/download_hf_dataset_as_parquet.py:408-408 | sorting by size permutes the files and their rows |
| ParquetMerge.MergeSmallest | tools/data_generation/download_hf_dataset_as_parquet.py:406-421 | the merge keeps the multiset of rows, leaves exactly the wanted number of files if there were more, touches no other file, and takes the smallest |
| ParquetMerge.InterruptedMerge | tools/data_generation/download_hf_dataset_as_parquet.py:412-421 | after any number of deletions the merged file and the files kept hold all rows, while the old names all exist exactly before the first deletion |
| Headers.PrintValue | tools/data_generation/download_olmo_data_to_gcs.py:75-81 | a printed number is recognised as a number and read back as itself |
| Headers.TotalSizeRight | tools/data_generation/download_olmo_data_to_gcs.py:71-82 | from a partial head the size is right if and only if the total is told, or a length is given and the range is all that was asked for; it is unknown if and only if neither is given |
| Headers.WholeTotal | tools/data_generation/download_olmo_data_to_gcs.py:71-82 | from a full answer the size is right, or unknown without a length |
| ResumableDownload.PrefixKeptIff | tools/data_generation/download_olmo_data_to_gcs.py:131-140 | after a partial answer the file is a prefix of the content if and only if the bytes received are those at the requested offset |
| ResumableDownload.SafeRangeIff | tools/data_generation/download_olmo_data_to_gcs.py:107-140 | a partial head keeps the file a prefix for every content, body and drop if and only if its range starts at the requested offset |
| ResumableDownload.LaterRangeMisplaces | tools/data_generation/download_olmo_data_to_gcs.py:131-163 | a part that starts later is appended all the same, and the call returns a file that is no prefix |
| ResumableDownload.ShortRangeTruncates | tools/data_generation/download_olmo_data_to_gcs.py:71-163 | the length of a part that ends early, without a total, is taken for the rest, and the call returns a truncated file with a known total |
| ResumableDownload.AttemptSafe | tools/data_generation/download_olmo_data_to_gcs.py:107-163 | an attempt answered in full, or by a part that starts where asked and tells the total, gives no length or reaches the end, keeps the file a prefix and the total right; a return with a known total leaves all of the content; a whole answer returns |
| ResumableDownload.ShortReturnsIff | tools/data_generation/download_olmo_data_to_gcs.py:117-163 | a quietly short answer of that kind passes for the whole file if and only if no answer so far, itself included, told the size |
| ResumableDownload.ShortPartReturnsIff | tools/data_generation/download_olmo_data_to_gcs.py:117-163 | any short part that starts where asked passes if and only if it hides the total and brings all of the length it claims, or claims none while no total is known |
| ResumableDownload.ReturnsSized | tools/data_generation/download_olmo_data_to_gcs.py:101-186 | whatever the server sends, the size reported is that of the file and meets a known total |
| ResumableDownload.AlignedDownload | tools/data_generation/download_olmo_data_to_gcs.py:101-186 | when parts start where asked, the file is a prefix of the content over whole runs, and a return with a known total is whole if and only if that total is right |
| ResumableDownload.DownloadSafe | tools/data_generation/download_olmo_data_to_gcs.py:101-186 | over whole runs against servers of the kind in AttemptSafe the file is a prefix, totals are right, and a return with a known total means the file is the content |
| ResumableDownload.TruncatesIff | tools/data_generation/download_olmo_data_to_gcs.py:101-186 | such a run returns a truncated file if and only if at some attempt a quietly short answer comes while neither it nor any answer before told the size |
| ResumableDownload.ToldMeansWhole | tools/data_generation/download_olmo_data_to_gcs.py:117-163 | one answer that tells the size, at any attempt reached, rules a truncated return out |
| ResumableDownload.UntoldMayTruncate | tools/data_generation/download_olmo_data_to_gcs.py:160-163 | an input on which an untold size lets a truncated file pass |
| ResumableDownload.CompleteFileReturnsIff | tools/data_generation/download_olmo_data_to_gcs.py:101-163 | with the complete file on disk an attempt returns if and only if it is answered in full and without a drop, by the whole content or, with no size known, by a short body |
| ResumableDownload.CompleteFileNeverReturns | tools/data_generation/download_olmo_data_to_gcs.py:101-186 | while the server refuses the range past the end, every attempt fails until the retries are used up |
| ResumableDownload.RunMakes | tools/data_generation/download_olmo_data_to_gcs.py:105-186 | the call makes one attempt after the other, each with what the one before left, all but the last interrupted, and returns if and only if the last is not; without a return all retries were used |
| ResumableDownload.Resumes | tools/data_generation/download_olmo_data_to_gcs.py:105-173 | against servers of the kind in AttemptSafe, drops and errors do not stop the download: after any number of interrupted attempts, one that brings all that remains makes the call return with the whole content |
| ResumableDownload.Downloader.WriteChunks | tools/data_generation/download_olmo_data_to_gcs.py:135-140 | the chunk loop appends the received bytes and counts them |
| ResumableDownload.Downloader.HttpResumableToLocal | tools/data_generation/download_olmo_data_to_gcs.py:101-186 | the retry loop on a mutable file, for any conforming server: it attempts again after each interruption while retries are left and returns after the first attempt that is not interrupted, with the size told last; size and totals agree with the file always, the file is a prefix when parts start where asked, and when the answers can be trusted it is the content itself if a total is known, and is returned as such once an attempt brings all that remains |
| RampUpLoader.RampupBatchManager.Update | src/maxtext/utils/rampup_batch.py:92-102 | the batch size grows by the increment when enough samples were seen, never past the end, the sample count starts again then and only then, and ramp-up is active exactly below the end |
| RampUpLoader.SlicedKeeps | src/maxtext/common/data_loader.py:135-175 | a slice never leaves its buffers, has the current size, and continues the stream where the last one ended |
| RampUpLoader.LoadConserves | src/maxtext/common/data_loader.py:126-179 | every load emits a batch of the current size and keeps conservation; it reads one batch of input exactly when the rows at hand do not suffice, and fails exactly when that batch is missing |
| RampUpLoader.StreamRefined | src/maxtext/common/data_loader.py:126-179 | during ramp-up the emitted rows are a prefix of the input stream; over a whole run the only gap is one buffer tail shorter than a batch, where ramp-up ended |
| RampUpLoader.RampUpDataLoader.UpdateDataIterator | src/maxtext/common/data_loader.py:73-77 | the iterator index goes round the list |
| RampUpLoader.RampUpDataLoader.LoadNextBatchPreSharding | src/maxtext/common/data_loader.py:79-90 | the next batch of the round-robin stream, or the one being reused |
| RampUpLoader.RampUpDataLoader.FillBuffer | src/maxtext/common/data_loader.py:138-140 | the first load fills an empty buffer and starts at its front |
| RampUpLoader.RampUpDataLoader.TakeSlice | src/maxtext/common/data_loader.py:143-175 | the slice, within one buffer or across two, as the abstract step says |
| RampUpLoader.RampUpDataLoader.LoadNextBatch | src/maxtext/common/data_loader.py:126-179 | the mutable loader and manager together move as the abstract load, keep conservation, and stop exactly when a batch that is needed is missing |

## Left out

- JSON text: arguments are an ordered list of (key, text, is-a-string); tool schemas and response formats are text already rendered. Decoding an argument list to JSON and the OpenAI format converters are not modelled.
- Roles: messages other than assistant ones carry no tool calls; a tool result that looks back at such a message finds none.
- `isdigit` and `strip` on size headers are those of ASCII text; non-ASCII digits and blanks are not modelled.
- Values of log probabilities, sampling, images and token ids beyond equality.
- Generator.GenerateStep: the list of active streams built before a step is modelled as a check per stream, which agrees because a stream finishes only through its own slot.
- Server failures are the caught ones (ValueError, RuntimeError). An uncaught exception ends the loop and is not modelled, nor is the HTTPException a malformed prompt list raises.
- The server's queue, response dictionary and lock: one step of a client or of the loop is atomic. Time-outs are arbitrary choices.
- Lockstep: a rank that fails alone outside the caught exceptions, and the 32-bit width of the announced length (the size limit keeps it far below).
- Torn checkpoint writes: the checkpoint file changes in one step. Byte counts and the adjusted threshold become an arbitrary choice of when a file is full.
- Renaming the output files to their final convention, and removing checkpoints: one rename per file.
- Dsv32PromptLaws.IncrementalThinkingIff: leaves out contexts without a turn whose leading tool result closes its results only together with new messages that bring a turn; there the texts decide, by the equation of HeadMakesUpIff, and no condition on roles and call counts does.
- Partial answers with several parts, which a server may not send to a request for one range.
- Malformed size headers, on which `int` raises outside the retried exceptions: the conforming heads of the download never contain one.
- The upload verdict of `download_one`: one comparison of two sizes.
- Sharding specs and device placement of the on-device stacking: they do not change elements. Data type conversion neither.
- Lists of names nested unevenly, and negative stacking axes.
- LoRA layer lists with missing layers, and the query scaling beside the rotary shuffle.
- Columns and the extra layer axis of flat experts: a row is opaque. Slice steps other than one.
- DiLoCo reshaping, goodput recording and the synthetic-data check of the data loader.
- Configuration, launchers, benchmarks and evaluation scripts.
