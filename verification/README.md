# Verified model of the nntpbench client core

A Dafny model of the four connected pieces of the NNTP client (RFC 3977) that carry its correctness, with proofs:

1. **The pipelined connection engine** (`Engine`, `EngineInvariant`, `EngineSteps`, `EngineTheorems`, `EngineProgress`, `EngineCalls`). Callers, the writer task and the reader task are a transition system: every lock, queue, counter, flag, partial write and partial read is a step of its own, and runs interleave these steps arbitrarily. A request gets its number when it enters the queue. Requests are accounted for over every run, from the call to the settled exchange. An inductive invariant is shown to be kept by every step; the theorems hold in every reachable state, over every run, or on every schedule.
2. **The incremental receiver** (`Receiver` over `Frames`, `Protocol`, `Capabilities`, `ListGroups`). Classes with the same mutable state as the original are proved to agree with stateless parsing for every way of splitting the input. `ResponseLines` and `ResponseBodies` print responses the way a server does and prove what the parsers read back.
3. **Terminator scanning and dot-stuffing** (`Terminator`, `DotStuffing`, `Writers` over `Wire`, `Lines`). The rolling-tail framer, the empty-block automaton, the block iterator, the line-normalising encoder and the vectored writer are proved against one definition: where the first dot line of a byte string ends (section 3.1.1 of RFC 3977).
4. **Request printing and parsing** (`Requests`, `RequestLines`, `RequestSoundness`, `Arguments`, `RequestWriter` over `Text`, `Utf8`). Both printers, the request-line parser with its classifiers, the exact condition under which a printed request reads back, and exactly which lines are classified as what.

The pieces compose: the engine's reader uses `Frames.Deliver`, which is what `Receiver.BufferedResponseReceiver.Receive` is proved to compute from any fragmentation; the bytes the engine commits for a batch are what `RequestWriter.WriteBatch` is proved to put out.

`dafny verify dfyconfig.toml` checks the whole project.

Modelling decisions:

- `CRLF` is CR LF and `TERMINATOR` is CR LF "." CR LF. Substring search means first occurrence.
- Channels are bounded and FIFO, a mutex admits one holder, `Notify` stores one permit, a oneshot is delivered at most once; a dropped future of a caller is a step of its own (`DropWaiting`, `DropSender`, `DropProbeWaiter`, `DropProber`).
- Any failure of the socket or a task, and bytes that are no response, put the engine into one `failed` state that takes no further step.
- Rust integers that cannot overflow here (lengths, article numbers of at most sixteen digits) are unbounded; the limits on line and argument length are written out.
- The listing formats and the article view are parameters (`Frames.Grammar`), shared by the receiver and the stateless parser; UTF-8 decoding is spelled out in `Text`.
- Where the model needs what the entry points put into a queued request it says so in `Engine.WellFormed`: the clearing flag follows the kind, only a CAPABILITIES request may be marked, only POST and IHAVE carry an article, and no command line is empty. `RequestWriter.QueuedIsWellFormed` ties this to requests.

## Model

| member | source | states |
|---|---|---|
| EngineTheorems.EachRequestGetsItsResponse | src/client.rs:2791-2934 | in every reachable state the settled exchanges are a prefix of what a client sending one request at a time gets from the same peer bytes for the same requests in order of admission: pipelining, batching, holding back, write and read sizes never show, and a malformed CAPABILITIES 101 uses up exactly its own frame |
| EngineTheorems.AllRequestsAnswered | src/client.rs:3455-3535 | once nothing is unsettled the settled exchanges are all that client gets |
| EngineTheorems.FramedListIsAnswer | src/protocol/response_receiver.rs:236-241 | a framed 101, whatever its content, is the whole answer to a CAPABILITIES request |
| EngineTheorems.FramedListSettles | src/client.rs:3500-3515 | a framed 101, readable or not, cannot make the reader give up: it settles its CAPABILITIES request with that one frame and without failure, replaces the stored list if it can be read and leaves it otherwise |
| EngineTheorems.WireIsScript | src/client.rs:2846-2931 | the bytes written, the rest of the write in progress and an article asked for but not begun are exactly the commands in order of admission, each followed by its article if and only if its first response asked for it; an exchange has two frames exactly in that case |
| EngineTheorems.CommittedInOrder | src/client.rs:2803-2934 | the writer commits every command at most once and in order of admission, and an article at most once, between its own command and the next |
| EngineTheorems.ArticleOnlyWhenAsked | src/client.rs:2877-2931 | an article is committed only right behind its own command, and only after the peer's first response to that request was 340 (POST) or 335 (IHAVE) |
| EngineTheorems.ExclusiveIsAlone | src/client.rs:2803-2850 | an exclusive request on the wire is the only unsettled request: all before it have their whole response, none is queued behind it, and it has the send barrier |
| EngineTheorems.NothingBehindBarrier | src/client.rs:2116-2155 | no request is admitted behind one that forbids pipelining (MODE READER included) until that one is settled |
| EngineTheorems.BatchesAreCoalesced | src/client.rs:2821-2850 | a coalesced write has at most 64 commands and none that is exclusive or large, and only such a request is ever held back |
| EngineTheorems.CounterIsExact | src/client.rs:2277-2298 | the in-flight counter is exactly the number of requests begun and not ended, so never negative and zero exactly when there is none, and a writer parked without a wake-up still has one to come |
| EngineTheorems.ListBehindEveryRequest | src/client.rs:2062-2093 | every request that needs the peer's capabilities has a stored list behind it from before it was sent until it is settled, although the list may be cleared while its caller waits for the barrier |
| EngineTheorems.StoredListIsLast | src/client.rs:3500-3515 | in every reachable state the stored list is the one in the last exchange that carried one, if and only if no later response cleared it, whether or not the caller is still there |
| EngineTheorems.CapsAfterIsLast | src/client.rs:2733-2755 | folding the capability transition over the exchanges gives a list if and only if some exchange carried exactly that list and no later one carried another or cleared it |
| EngineTheorems.StoreOneMeans | src/client.rs:2214-2240 | what one response does to the stored list, case by case: cleared by AUTHINFO 281/283, MODE READER or STARTTLS, replaced by a parsable 101, otherwise kept |
| EngineTheorems.NothingAfterQuit | src/client.rs:3516-3522 | once a QUIT is settled with 205 it is the last request, and over every continuation of the run no byte is written, nothing is committed, admitted or settled |
| EngineTheorems.StuckMeansPeerOwes | src/client.rs:2277-2298 | a reachable state with work and no step of its own to take is one in which the reader waits for a response, has read all the peer sent, and everything the peer needs to answer is written: no deadlock and no lost wake-up |
| EngineProgress.InternalStepDescends | src/client.rs:2791-2934 | every step the engine takes of its own accord (retries after a cleared list, probes, wake-ups, partial writes and reads included) brings a well-founded measure down, or ends in failure |
| EngineProgress.EveryScheduleDelivers | src/client.rs:3455-3535 | no livelock: without new calls and new peer bytes, on every schedule, after finitely many steps the engine has failed, or every answer that the peer's bytes hold has been delivered and what work is left waits for the peer |
| EngineProgress.AnsweringPeerIsServed | src/client.rs:3455-3535 | a peer whose bytes answer every admitted request gets every one of them settled, on every schedule, in finitely many steps and without a failure |
| EngineProgress.AtRestAllDelivered | src/client.rs:2277-2298 | at rest the settled exchanges are all that the one-at-a-time client gets from the peer's bytes |
| EngineProgress.ScheduleEnds | src/client.rs:2791-2934 | every schedule of the engine's own steps carries the run on to a state that has failed or is at rest |
| EngineProgress.CallerGetsError | src/client.rs:2733-2755 | the caller of a settled request gets an error exactly when a list was due and none came: a 101 that cannot be read, or any other answer to a marked request |
| EngineCalls.RequestsAreConserved | src/client.rs:2062-2193 | over every run the requests called for and the probes made for them are, as a multiset, those callers still hold (waiting, probing, sending), the admitted ones with their numbers aside, and those dropped by their callers, refused while the session was closed, or given up because their own probe was settled without a list |
| EngineCalls.LossesAreExplained | src/client.rs:2070-2073 | without dropped futures none is dropped; a refusal means that a QUIT was settled with 205; a request given up for want of a list means that a probe was settled without one |
| EngineCalls.AtRestAllAccounted | src/client.rs:2062-2155 | at rest, with no response due, every request called for was admitted and answered or given up for one of the three reasons |
| EngineCalls.AtRestCallersWaitOnPeer | src/client.rs:2171-2193 | at rest callers wait only for a barrier that a request carries, for room in the queue, or for the answer to the probe in progress |
| EngineCalls.EveryCallIsAdmitted | src/client.rs:2062-2155 | on every schedule, after finitely many of its own steps, the engine has failed, waits for the peer, or has accounted for every call; without drops, a 205 to QUIT and probes without a list, exactly the called requests and their probes are admitted and each is answered |
| EngineCalls.CallsAreTaken | src/client.rs:2062-2073 | as long as the connection has not failed every well-formed request can be called for, with or without a probe ahead of it, and joins those that callers hold |
| EngineCalls.EveryStepBalances | src/client.rs:2069-2093 | every single step accounts for every request it takes from callers or gives to them |
| EngineTheorems.StuckCallers | src/client.rs:2171-2193 | with writer and reader at rest, callers that can take no step of their own have nothing left to do: no waiting request, held barrier or probe |
| EngineTheorems.ServedLeads | src/client.rs:3455-3535 | exchanges that were served one after the other from a stream are what the one-at-a-time client gets, whatever requests follow |
| EngineTheorems.TwoFramesAsked | src/client.rs:3480-3499 | two frames for a request mean that the first asked for its article |
| EngineTheorems.QuietStep | src/client.rs:2070-2073 | after a successful QUIT no step of any task or caller writes, commits, admits or settles anything |
| EngineSteps.RunKeeps | src/client.rs:2791-2934 | the engine invariant holds after every run from a state that has it |
| EngineSteps.StepKeeps | src/client.rs:3455-3535 | every step of callers, writer, reader and peer keeps the engine invariant |
| EngineSteps.CallerKeeps | src/client.rs:2062-2155 | taking the barrier, the closed check, the capability recheck, the probe and dropped futures keep the invariant |
| EngineSteps.CallerBarrier | src/client.rs:2069-2093 | callers never touch a barrier carried by a request, pass the closed check only while open, and reach the queue with a kind that needs a list only while one is stored |
| EngineSteps.EnqueueKeeps | src/client.rs:2135-2155 | entering the queue, with the barrier handed to the request or given back, keeps the invariant |
| EngineSteps.CollectKeeps | src/client.rs:2803-2850 | receiving, waiting until idle, draining and holding back keep the invariant |
| EngineSteps.CollectCommits | src/client.rs:2824-2850 | a collecting step commits a whole batch or nothing, behind everything committed before |
| EngineSteps.SendKeeps | src/client.rs:2846-2934 | partial writes, handing over, waiting for the go-ahead and writing the article keep the invariant |
| EngineSteps.FrameOfStream | src/protocol/response_receiver.rs:37-55 | a frame found in the bytes read so far is the frame at the front of everything the peer has sent or will send |
| EngineSteps.SettleKeeps | src/client.rs:3500-3535 | settling a request (capability transition, history, closing) keeps the invariant |
| EngineSteps.NothingUnderWay | src/client.rs:2877-2931 | when a request without an article settles as the only unsettled one the writer has nothing under way |
| EngineSteps.StoreKeepsList | src/client.rs:2733-2755 | only a request that holds the barrier can empty the stored list |
| EngineSteps.PassKeeps | src/client.rs:3468-3534 | taking over, the go-ahead, releasing the barrier, ending in-flight and the notification keep the invariant |
| EngineSteps.PeerKeeps | src/protocol/response_receiver.rs:87-102 | further bytes from the peer change no exchange already read |
| EngineInvariant.InitInv | src/client.rs:2262-2275 | a fresh connection has the invariant |
| EngineInvariant.CollectMoves | src/client.rs:2803-2844 | collecting never reorders or loses an unsettled request |
| Receiver.BufferedResponseReceiver.Receive | src/protocol/response_receiver.rs:37-108 | the outcome is the stateless verdict on all bytes readable within the polls, for every split; a delivered frame is cut off and nothing else consumed; after an invalid response, end of input, a failed read or a dropped call every later call is refused and touches nothing |
| Receiver.BufferedResponseReceiver.ReceiveEach | src/protocol/response_receiver.rs:886-897 | repeated receives cut the stream into consecutive frames, and frames followed by what is pending and unread are all the bytes |
| Receiver.StreamingResponseDecoder.Push | src/protocol/response_receiver.rs:929-995 | pushing a chunk gives the stateless framing of everything pushed so far: needs more, refused, or status and exact ends |
| Receiver.StreamingResponseDecoder.PushStatusLine | src/protocol/response_receiver.rs:934-967 | byte-by-byte parsing of the status line decides as the whole line does, and the fixed status buffer never overflows |
| Receiver.StreamingResponseDecoder.PushBody | src/protocol/response_receiver.rs:976-995 | after the status line the frame ends where the framer finds the dot line |
| Receiver.ResponseDecoder.ExtractFramed | src/protocol/response_receiver.rs:815-872 | what is extracted from the accumulated buffer is the stateless frame at its front; when there is none yet the decoder has taken in exactly the buffer |
| Receiver.Extract | src/protocol/response_receiver.rs:203-253 | extraction with the semantic checks is the stateless delivery |
| Receiver.ReceiveFragments | src/protocol/response_receiver.rs:174-195 | feeding a response in pieces of any size gives the stateless verdict on the whole |
| Receiver.OutlookStep | src/protocol/response_receiver.rs:87-102 | the final outcome does not change as reads come in |
| Frames.DeliverAgrees | src/protocol/response_receiver.rs:203-253 | the receiver agrees with the stateless parser on needing more, on status, bounds and rejection, except that article content is checked later and a framed CAPABILITIES 101 is always delivered |
| Frames.DeliverRejects | src/protocol/response_receiver.rs:203-253 | a framed response is rejected if and only if it is multi-line, no article response, no CAPABILITIES 101, and its content is invalid; otherwise it is delivered whole with its coordinates |
| ResponseLines.StatusIs | src/protocol.rs:47-65 | the status read is a number if and only if that number, from 100 to 599, is printed at the front |
| ResponseLines.FramingByStatus | src/protocol.rs:2517-2683 | the framing of every response to every request, told by status: which are multi-line, done, a go-ahead, an error of that request or a common error; all others are unexpected |
| ResponseLines.PrintedResponseIsFramed | src/protocol.rs:130-190 | a printed status line, for a multi-line response with the encoded payload behind it, is framed with its own status at exactly its own length, whatever follows |
| ResponseLines.StatusLineText | src/protocol.rs:2686-2718 | the checks of a printed status line are those of the text behind the status |
| ResponseLines.GroupReadsBack | src/protocol.rs:2761-2770 | a printed group line reads back with count, first and last number, group and comment each in its place |
| ResponseLines.GroupMeans | src/protocol.rs:2761-2770 | whatever is read as a group line is four words with single spaces between them, read in this order |
| ResponseLines.GroupTextAccepted | src/protocol.rs:2741-2840 | a printed group line is accepted if and only if its numbers agree (all zero, or room for the count from the first to the last number) and group and comment are valid |
| ResponseLines.ArticleReadsBack | src/protocol.rs:2854-2877 | a printed article line reads back with its number and the exact place of its message-id |
| ResponseLines.ArticleTextAccepted | src/protocol.rs:2842-2885 | a printed number and message-id are accepted where they are due, number zero not for NEXT and LAST |
| ResponseLines.OneTokenMeans | src/protocol.rs:2887-2930 | a one-word argument is accepted if and only if the text is an acceptable word and, behind a space, an optional valid comment |
| ResponseBodies.LinesExactly | src/protocol.rs:3084-3100 | a payload is read as given lines if and only if it is these lines, none with CR or LF in it, each followed by CRLF |
| ResponseBodies.ContentByLines | src/protocol.rs:3003-3047 | NEWNEWS payloads are accepted exactly when every line is a message-id, HELP payloads exactly when every line is valid text, those of unknown commands exactly when no line has a NUL; in both no line may start with a dot that is not doubled |
| ResponseBodies.ListGroupAccepted | src/protocol.rs:3049-3082 | a printed LISTGROUP response is accepted if and only if its numbers are positive, lie within the watermarks, ascend strictly and are no more than announced |
| Frames.FrameStable | src/protocol.rs:130-190 | a complete frame stays the same and a refused input stays refused whatever is appended |
| Frames.ParseFrameStable | src/protocol.rs:2947-3000 | the same for the parser with content checks |
| Frames.DeliverStable | src/protocol/response_receiver.rs:838-872 | the same for delivery |
| Frames.InitialStable | src/protocol.rs:307-347 | a decided initial line stays decided under extension |
| Frames.StatusBufferSuffices | src/protocol/response_receiver.rs:934-967 | an undecided initial line always fits the decoder's buffer |
| Frames.FrameFromInitial | src/protocol.rs:307-347 | framing is the initial line followed by the first dot line of the rest |
| Frames.FrameWhileInitialOpen | src/protocol.rs:130-190 | the initial-line parser and the frame parser agree on open and refused lines |
| Protocol.InitialArticleAgrees | src/protocol.rs:2854-2877 | the fast parse of an article status line accepts exactly the lines that the general check accepts |
| Protocol.CoordinationFacts | src/protocol.rs:2305-2407 | every exclusive or list-clearing kind forbids pipelining behind it; the exclusive kinds and the non-exclusive barrier kinds, listed |
| Protocol.CapabilityFacts | src/client.rs:2195-2240 | the kinds that need a list; the responses that clear it; the clearing kinds are those with such a response; which statuses ask for an article |
| Lines.DetectResponseLineEnd | src/terminator.rs:82-95 | the scanning loop finds the first strict CRLF or the first stray CR or LF |
| Lines.LineEndMeans | src/terminator.rs:82-95 | what complete, invalid and undecided say about the bytes |
| Lines.BoundedStable | src/terminator.rs:103-117 | acceptance and refusal under a length limit survive extension |
| Lines.StripCompleteMeans | src/terminator.rs:145-154 | a line without CR and LF, followed by CRLF, strips to itself |
| Lines.ContentEndMeans | src/terminator.rs:165-170 | a content end is found if and only if a strict CRLF line starts there, and it is where that line has it |
| ListGroups.ValidateListGroup | src/protocol.rs:3049-3082 | the loop accepts exactly the payloads whose numbers lie within the watermarks, ascend strictly and are no more than announced |
| ListGroups.LinesStep | src/protocol.rs:3084-3102 | each round of the line loop takes one strict CRLF line off the payload, or there is none |
| Capabilities.ValidateCapabilities | src/protocol.rs:3581-3616 | the loop accepts exactly the payloads with a VERSION line first and, behind it, only valid lines with labels distinct up to case |
| Capabilities.CapabilityLabelSeen | src/protocol.rs:3618-3633 | rescanning finds a label exactly when a line before the first unreadable one has it, up to case |
| Capabilities.ValidateBodyLine | src/protocol.rs:3664-3806 | a body line is accepted exactly when it is valid behind the lines before it |
| Capabilities.ParseCapabilityList | src/protocol.rs:3530-3548 | parsing returns the list for valid payloads and nothing else |
| Capabilities.CapabilityListIsFaithful | src/protocol.rs:3530-3579 | an accepted payload yields VERSION first, one entry per keyword-labelled line in order, none dropped, labels distinct up to case |
| Capabilities.EntryReadsBack | src/protocol.rs:3563-3579 | a keyword and words with single spaces between them yield that label with exactly those words as arguments, in order |
| Capabilities.LineFits | src/protocol.rs:3664-3785 | a line of a keyword and words is accepted if and only if the label allows these words, rule by rule |
| Capabilities.GetIsUnambiguous | src/protocol.rs:3556-3561 | lookup finds the one entry with that label up to case, and nothing exactly when there is none |
| Terminator.MultilineFramer.Push | src/terminator.rs:387-421 | for every chunking the framer completes in the chunk in which the bytes pushed so far first contain a whole dot-terminated block, with that block's end and content end |
| Terminator.MultilineFramer.PushContent | src/terminator.rs:409-421 | the same once an empty block is ruled out, with no underflow of the offsets |
| Terminator.EmptyMultilineTerminator.Detect | src/terminator.rs:262-292 | the prefix automaton finds an empty block split over any number of chunks, or rules it out |
| Terminator.MultilineTerminatorDetector.Update | src/terminator.rs:192-209 | the rolling tail is always the last four bytes pushed |
| Terminator.StreamingFindsFirst | src/terminator.rs:424-429 | tail and chunk together find the first terminator of the whole stream |
| Terminator.StraddleIsEnd | src/terminator.rs:655-695 | a terminator split between tail and chunk is found at its end |
| Terminator.BlockSearchIsFirst | src/terminator.rs:568-570 | the whole-buffer search finds the first dot line |
| Terminator.DotTerminatedBlocks.Next | src/terminator.rs:524-551 | the iterator yields the next block with exact coordinates and strictly advances, or nothing is left |
| Terminator.BlocksTile | src/terminator.rs:524-560 | the blocks and the unfinished rest make up the input without gaps |
| DotStuffing.CrlfNormalizedPayloadLines.Next | src/terminator.rs:609-651 | the iterator yields the payload's lines, one per CRLF, CR or LF, in order |
| DotStuffing.PayloadIsKept | src/terminator.rs:609-651 | the bytes of the lines are the bytes of the payload other than CR and LF, in order |
| DotStuffing.SplitIsUnique | src/terminator.rs:609-651 | however a payload is cut at CRLF, lone CR and lone LF, the last break optional, the pieces are exactly its lines |
| DotStuffing.SplitExists | src/terminator.rs:609-651 | every payload is such a cut into its lines |
| DotStuffing.EncodeIsOneBlock | src/client.rs:3402-3426 | an encoded payload has its only dot line at its very end, for every payload and whatever follows |
| DotStuffing.FrameEncoded | src/terminator.rs:387-421 | the framer, fed an encoded payload in any chunks with anything behind it, completes at exactly its full length |
| DotStuffing.BlocksOfEncoded | src/terminator.rs:524-560 | iterating over any number of encoded payloads and an unfinished tail returns exactly those blocks |
| DotStuffing.EncodeRoundTrip | src/protocol.rs:5721-5748 | un-stuffing an encoded payload gives its CRLF-normalised lines, with all its bytes other than CR and LF in order |
| DotStuffing.UnstuffKnownDotLines | src/protocol/article.rs:2027-2039 | the loop removes one dot from each line that starts with one |
| DotStuffing.NormalizedIdempotent | src/terminator.rs:609-651 | normalising twice is normalising once |
| DotStuffing.PayloadLinesUnbroken | src/terminator.rs:618-651 | no line of a payload has CR or LF in it |
| Writers.WriteAllVectored | src/client.rs:3435-3453 | for every schedule of short writes exactly the concatenation of the slices goes out, and the loop ends; a failed write leaves a prefix |
| Writers.WriteDotStuffedArticle | src/client.rs:3402-3426 | the asynchronous writer puts out the encoded payload, or a prefix of it on failure |
| Writers.AppendDotStuffedArticle | src/protocol.rs:5721-5748 | the synchronous writer puts out the same bytes |
| RequestWriter.WriteRequest | src/client.rs:2985-3081 | every request goes out as its wire form under any schedule of short writes, or as a prefix of it on failure |
| RequestWriter.WriteRequestsBuffered | src/client.rs:2944-2960 | a coalesced batch puts out the requests' bytes in queue order |
| RequestWriter.WriteBatch | src/client.rs:2846-2850 | writing one request directly or several coalesced makes no difference to the bytes |
| RequestWriter.QueuedIsWellFormed | src/client.rs:2116-2155 | what a caller queues for a request is well-formed for the engine exactly when only POST and IHAVE carry an article and only CAPABILITIES is marked; it counts as large exactly for a TAKETHIS of more than 8192 bytes |
| RequestWriter.ProbeIsCapabilities | src/client.rs:2184-2187 | the probe is what a caller queues for CAPABILITIES without an argument, unmarked |
| RequestWriter.CommittedIsWritten | src/client.rs:2846-2850 | for requests as callers queue them, the bytes the engine commits for a batch are those the writer puts out |
| Requests.PrintersAgree | src/protocol.rs:3939-4024 | the buffer printer and the slice printer give the same bytes for every request: verb, arguments behind single spaces, CRLF, and the encoded article of TAKETHIS |
| RequestLines.RoundTrip | src/protocol.rs:4908-4956 | a constructed request reads back from its printed line with its kind, verb and exact arguments if and only if the line has at most 512 bytes, the arguments at most 497, and an AUTHINFO value has no form feed and does not end in a blank |
| RequestLines.UntidyAuthIsLost | src/protocol.rs:5138-5162 | an AUTHINFO value with a form feed makes the line unknown, and one that ends in a blank comes back shorter |
| RequestLines.BlankPasswordIsLost | src/protocol.rs:5371-5391 | a password of one blank is accepted by the constructor and does not read back |
| RequestLines.Recognised | src/protocol.rs:5197-5299 | every constructed request other than AUTHINFO is classified as its own kind |
| RequestSoundness.ParseExactly | src/protocol.rs:4908-4956 | a line is of a kind, AUTHINFO apart, if and only if it is well spaced, has at most 512 bytes and 497 in its arguments, and its words spell (case of keywords, spelling of numbers and width of blanks aside) a request of that kind that a constructor makes, or LIST HEADERS with MSGID or RANGE |
| RequestSoundness.ParseIsSound | src/protocol.rs:5197-5299 | whatever is classified as a kind spells a request of that kind that a constructor makes, or is that LIST HEADERS query |
| RequestSoundness.ClassifyComplete | src/protocol.rs:5120-5136 | a verb in any spelling and words that spell the arguments of a valid request are classified as its kind |
| RequestSoundness.AuthIsSound | src/protocol.rs:5371-5391 | lines classified as AUTHINFO USER or PASS are spelled so and carry a value that a constructor accepts and that reads back |
| RequestSoundness.AuthIsComplete | src/protocol.rs:5371-5391 | every well-spaced line within the limits that is spelled so is classified so |
| RequestSoundness.SaslExactly | src/protocol.rs:5393-5451 | a line is AUTHINFO SASL if and only if it is well spaced, has at most 4096 bytes and carries a mechanism and perhaps an initial response in base64 |
| Arguments.RangeExactly | src/protocol.rs:1840-1876 | a range is one number, or a number and a dash with or without another number |
| Arguments.TimestampIsDateAndTime | src/protocol.rs:2720-2739 | the timestamp in the answer to DATE is an eight-digit date and a time as NEWGROUPS takes them |
| Arguments.TwoDigitsMeans | src/protocol.rs:2235-2245 | two digits are read as the decimal number they are |
| Arguments.PartsExactly | src/protocol.rs:2196-2233 | the parts of a pattern list are the comma-free texts that make it up when joined by commas |
| Arguments.GroupNameIsPlainWildmat | src/protocol.rs:1906-1930 | a group name is exactly a valid pattern list of one pattern without wildcards |
| Utf8.CharsExactly | src/protocol.rs:3198-3210 | bytes decode to code points if and only if they are the UTF-8 encoding of these, all of them scalar values |
| RequestLines.NumberReadsBack | src/protocol.rs:1863-1876 | a printed article number reads back as the same number |
| RequestLines.FindsEntry | src/protocol.rs:5120-5136 | every spelling of a verb of the table in upper and lower case is found as that verb's own entry |
| RequestLines.PrintedComesApart | src/protocol.rs:4926-4943 | a printed line comes apart into exactly its verb and its arguments |
| RequestLines.TokensOfJoined | src/protocol.rs:5164-5167 | splitting joined words gives back the words |
| RequestLines.ArgsAreSolid | src/protocol.rs:1593-2222 | no argument that a constructor accepts, other than an AUTHINFO value, has white space in it |

## Left out

- Sockets, connecting, the greeting, TLS, task spawning and abort: one failed state stands for every way they fail.
- The thin request wrappers of the client, error conversions and accessors: they only forward.
- The listing formats and the article view: they enter as the parameters of `Frames.Grammar`, the same for both parsers.
- SIMD and memchr search: modelled as first occurrence.
- Zero-copy, allocation and capacity claims: not expressible over values.
- yEnc payloads, the article store, the command line, benchmarks and scripts: input, output and reports.
- A bound on outstanding commands by the pipeline depth: the code does not promise one.
- Termination of the capability retry loop under an endless supply of new calls: other callers may keep clearing the list, so the code does not promise it; it ends once no new calls come (EngineProgress.EveryScheduleDelivers).
- Requests.PrintersAgree: the buffer printer is a function of the request; appending piece by piece to a writer is modelled for the slice printer (RequestWriter.WriteRequest) and for articles.
- Sending AUTHINFO SASL: the client has no constructor for it; how such lines are classified is modelled (RequestSoundness.SaslExactly).
