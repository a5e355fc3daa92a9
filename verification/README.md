# ARC Live: capture and stream session, verified

ARC Live watches one game's HTTPS traffic, picks the player statistics out of it and turns them into
the numbers a streamer shows on screen. This project models the two parts where those numbers can go
wrong, and two loops around them, and proves what they keep.

**The capture-side stream parser** (`scanner.rs`). Byte pieces of many connections arrive in any
interleaving, cut anywhere. One object with five shared tables frames HTTP/1.1 messages out of them
(by `Content-Length` or chunked, sections 6.3 and 7.1 of RFC 9112), walks past bodies too large to
hold, pairs responses with requests, recovers when the pairing has drifted, and makes room under
several limits.

- `Search`, `Text`, `Codecs`, `Hosts`: substring search, strings and numbers, the functions left
  arbitrary, host names; `HostNames` and `StartLines`: what names and start lines mean.
- `Chunked`, `ChunkGrammar`, `Framing`: the decoder, the grammar it accepts, and the one-shot framing
  of a buffer; `Segmentation` shows that
  pieces give what the whole gives as long as no limit trims the buffer, and states exactly when none does; `Unframed`: what a limit leaves.
- `Printing`, `RoundTrip`: messages printed the way a peer would, and what comes back.
- `Connection`, `Pairing`, `Emission`: one connection as a machine of its own.
- `ParserState`, `ParserSafety`: the shared tables, their invariant and what a step may do to them;
  `Parser`: the class `DiscoveryParser`, whose methods are proved to take exactly such steps;
  `ParserRuns`: whole runs - bounds and isolation; `Silence`: when the silent go;
  `Conversations`, `Dialogues`: a connection used in both directions, end to end; `Comparisons`: pairs of runs; `Budget`, `Overrun`: what the byte budget
  takes, and a run that exceeds it.
- `ClientHello`: the host name in a TLS ClientHello (section 4.1.2 of RFC 8446, section 3 of RFC 6066).

**The stream session** (`ui.rs`, `state.rs`, `stats.rs`, `widget_config.rs`, `storage`). Rows become
totals, a baseline turns totals into the stream's counters, formulas turn them into widget cells, and
a state machine keeps what is shown, what is remembered and what is on disk in agreement.

- `Overlay`: the record shown and the delta; `Stats`: the normaliser; `StatsHandover`: what capture
  hands on is what the normaliser accepts; `Widgets`, `Cells`: formulas and presets, and
  what each shipped cell shows; `Storage`: the database.
- `Session`: every event as a step on values, and the invariant; `Restarts`: what
  the counters should be, and when the application shows exactly that; `App`: the class `ArcLiveApp`, whose methods are proved against those steps.

**Two loops.** `LineReader` is the reconnecting reader of newline-terminated events; `Polling` and
`RawSocket` are the round-robin poller over raw sockets and the table of sockets it polls.

Classes and loops stand where the source has them; each is proved against functions on values, and the
properties are proved about those functions.

## How to read it

- UTF-8 decoding, and content decoding together with JSON parsing, are fields of the datatype `Codec`
  and arbitrary; only where printing comes in is it assumed (`AsciiLaw`) that UTF-8 decodes ASCII to
  itself. JSON documents carry their scopes, their text and their shape.
- `usize` and `u64` are 64 bits wide; saturation, clamping and wrap-around are written out.
- In the parser's tables an absent entry means the same as an empty buffer, an empty queue or a skip
  count of 0; in raw totals an absent key means the same as 0 (`Lookup`).
- Time is a number. `DiscoveryParser.ParseStream` asks for a clock that has moved on since every earlier
  call; `ActivePrunedExactlyOnTies` says exactly what a clock that stands still can do.
- Which of several equally old or equally large candidates goes first is left open, as it is in a hash
  map. What a step removed is recorded in ghost values (`Evictions`), so that "nothing was taken from
  this connection" can be said.
- In the session, writes succeed, days never go back, payloads come from the normaliser and the demo
  balance is flipped only in demo mode (`Offered`). A reset can be confirmed at any time, because the
  confirmation stays open when the numbers change after it was asked for.

## What the proofs found

- The active connection can be pruned by its own call when the clock stands still, in one situation:
  it is new, the table holds 256 connections, and all others that are not API connections were seen at
  the same instant (`ParserSafety.ActivePrunedExactlyOnTies`).
- The 96 MiB budget is enforced only after calls that leave a large buffer. After any other call it
  holds if and only if what was held and the active buffer fit (`ParserRuns.BudgetHoldsExactly`), and
  there is a run of 13 calls that ends one byte over it (`Overrun.BudgetDoesFail`). The bound that always
  holds is 160 MiB (`ParserSafety.MemoryBound`).
- Room in the table of API hosts is made even when the connection is already in it, so a full table of
  64 shrinks to 63 when one of its own connections speaks (`Parser.DiscoveryParser.TrackHost`).
- The byte budget may take the other direction of the active connection, exactly when the total is
  still over budget without the strictly larger buffers of others (`Budget.TakenExactly`);
  `Overrun.OtherDirectionCanGo` is a case.
- An unreadable `Content-Length` counts as 0, and a `server_name` list may be longer than the
  extension it stands in.
- The shipped "Raider damage" formula reads its sources as signed numbers. It equals the named total
  exactly when the damage total (event 101) fits `i64`, or the raiders' share is 0 and one of the two
  player shares is 0 as well; `Widgets.RaiderDamageFormulaCanFail` is an input where it fails.
- Restarts are not always invisible. When the game stops while demo numbers are shown, they are saved;
  a restart shows them as real, and the next reset counts from them, so that later counters are wrong
  (`Restarts.DemoSavedGoesWrong`). A reset asked for before the demo and confirmed during it does the
  same at once (`Restarts.DemoResetGoesWrong`). Without these two steps (`Clean`) every run shows the
  right counters, through crashes too; and `Restarts.HarmIsExact` says exactly which steps make some
  later response wrong.
- Wins and losses are decided by a sum that wraps: extractions and deaths of exactly 2^64 together count
  as none (`Cells.OutcomeIsStreamThenDay`).
- A line longer than the event limit is delivered whole or in part, depending on where a timeout falls
  (`LineReader.DeliveryIsExact`).
- A socket rebind can follow a shutdown; the sockets it opens are closed when the capture is dropped
  (`RawSocket.DropClosesEverything`).

## Model

| member | source | states |
|---|---|---|
| Search.Find | crates/capture/src/scanner.rs:1112-1116 | the first occurrence of the needle, or None exactly when there is none |
| Text.ParsePrinted | crates/capture/src/scanner.rs:1124 | reading a printed number, decimal or hexadecimal, gives it back; beyond the type's range it is an error |
| Text.NumbersExactly | crates/capture/src/scanner.rs:1124 | a text is a number exactly when it is at least one digit, with at most one plus in front, and within the type's range |
| Text.NumbersInAnyForm | crates/capture/src/scanner.rs:1124 | plus sign, leading zeros and letter case make no difference to the number read |
| HostNames.NormalFormExactly | crates/capture/src/scanner.rs:997-1009 | a text has a normal form exactly when it is a host name with a port, or with dots, behind it and white space around it; the form is the name in lower case |
| HostNames.AllowedExactly | crates/capture/src/scanner.rs:976-987 | exactly the three services in any region of the game's domain are allowed, in any letter case and with any port |
| StartLines.StatusReadBack | crates/capture/src/scanner.rs:959-974 | a printed status line, any version and any code up to 2^64-1, with or without a reason, is read as that code and as no request |
| StartLines.RequestReadBack | crates/capture/src/scanner.rs:959-974 | a printed request line is read as its method and path, without a status |
| Chunked.DecodeChunked | crates/capture/src/scanner.rs:1118-1145 | the cursor loop equals the recursive decoder on every input; it terminates with all reads in bounds |
| Chunked.ReadItem | crates/capture/src/scanner.rs:1122-1143 | one chunk read at a cursor is what stands at the front of the rest: size line, data, line end, or last chunk with trailers |
| Chunked.DecodeStable | crates/capture/src/scanner.rs:1118-1145 | a successful result is unchanged by any appended bytes |
| Chunked.DecodeOfPrefix | crates/capture/src/scanner.rs:1118-1145 | a prefix that reaches the end of the encoding decodes to the same result |
| ChunkGrammar.DecodesExactly | crates/capture/src/scanner.rs:1118-1145 | the decoder accepts exactly the sentences of the chunked coding within the body limit, with exactly their data and length, whatever follows |
| ChunkGrammar.SentenceDecodes | crates/capture/src/scanner.rs:1133-1137 | a sentence over the body limit gives None, any other its data |
| RoundTrip.DecodePrinted | crates/capture/src/scanner.rs:1118-1145 | any list of chunks, their sizes in any text that reads as them, with extensions and trailers and followed by any bytes, decodes to the concatenated data and consumes exactly the encoding |
| RoundTrip.PlainSize | crates/capture/src/scanner.rs:1124 | sizes in plain hexadecimal are among those texts |
| RoundTrip.DecodeOfStrictPrefix | crates/capture/src/scanner.rs:1118-1145 | every strict prefix of an encoding gives None |
| Framing.ParseHead | crates/capture/src/scanner.rs:672-679 | the header loop builds the map in which the last line of a name wins, names trimmed and lower-cased |
| Framing.PlainLineIsIgnored | crates/capture/src/scanner.rs:675-679 | a line without a colon changes no header |
| Segmentation.StepStable | crates/capture/src/scanner.rs:663-716 | what is framed at the front of a buffer stays the same when more bytes arrive |
| Segmentation.DrainAppend | crates/capture/src/scanner.rs:645-716 | framing a buffer and going on with new data equals framing everything at once |
| Segmentation.JunkIsDropped | crates/capture/src/scanner.rs:665-671 | a header block that is not UTF-8 is dropped alone, and framing goes on behind it |
| Segmentation.ResumeAppend | crates/capture/src/scanner.rs:645-716 | the same with a body being walked past: frames, rest and outstanding skip of two pieces are those of their concatenation |
| Segmentation.SegmentationIndependence | crates/capture/src/scanner.rs:641-716 | any way of cutting a stream gives the frames, held bytes and outstanding skip of feeding it whole, as long as no limit trims the buffer |
| Segmentation.WellSizedExactly | crates/capture/src/scanner.rs:861-869 | no prefix is ever trimmed if and only if header blocks and unframed tails fit the scan buffer and chunked messages the message limit, read off the stream |
| Unframed.KeptIsTail | crates/capture/src/scanner.rs:861-869 | what a call keeps is a tail of what it could not frame: all of it, or exactly its last 128 KiB when it is over that without a blank line; nothing exactly when there is nothing or over 8 MiB |
| Unframed.OnlyTheTailCounts | crates/capture/src/scanner.rs:861-869 | after unframed data in any pieces, what follows is framed as behind the last 128 KiB of that data alone |
| Unframed.TooLongIsForgotten | crates/capture/src/scanner.rs:864-865 | a piece that takes unframed data over 8 MiB leaves nothing held |
| RoundTrip.HeadOfPrinted | crates/capture/src/scanner.rs:672-679 | a printed header block, names in any case and values with any blanks around them, parses to its start line and its fields |
| RoundTrip.UsualFraming | crates/capture/src/scanner.rs:680-695 | the usual framing field behind any others announces the body |
| RoundTrip.PrintedFraming | crates/capture/src/scanner.rs:680-695 | fields that announce a body, wherever among them and in whatever text, are read as exactly that framing |
| RoundTrip.StepOfPrinted | crates/capture/src/scanner.rs:663-716 | a printed message at the front of any buffer is framed as itself, or walked past exactly when its length is over the limit |
| RoundTrip.DrainPrinted | crates/capture/src/scanner.rs:663-716 | a printed list of messages frames to exactly those within the limit, nothing is left over, and no limit is met on the way |
| RoundTrip.PrintedComesBack | crates/capture/src/scanner.rs:641-716 | printed messages, the framing field anywhere, in any case and with any blanks, fed in any pieces come back as their start lines, headers and bodies, in order; only over-limit Content-Length messages are left out and what follows them is still framed |
| Connection.AbsorbAppend | crates/capture/src/scanner.rs:718-858 | handling frames in two batches gives the state and messages of one batch |
| Pairing.AbsorbResponse | crates/capture/src/scanner.rs:762-773 | a response takes its label from the front of the queue |
| Pairing.AbsorbRequest | crates/capture/src/scanner.rs:752-761 | a request joins the end of the queue and labels nothing |
| Pairing.PairingIsFifo | crates/capture/src/scanner.rs:752-773 | in a list of messages of one connection, with at most 16 outstanding, none lost and statistics only where asked for, the k-th response is labelled with the k-th request; Conversations carries it to runs |
| Pairing.DriftRecovers | crates/capture/src/scanner.rs:799-825 | after a mislabelled statistics body the message names itself, the queue is empty, and whatever orderly run follows is labelled right |
| Pairing.RequestLeavesTheNewest | crates/capture/src/scanner.rs:752-761 | from any queue, a request leaves the newest sixteen waiting |
| Pairing.QueueKeepsTheNewest | crates/capture/src/scanner.rs:752-761 | over any number of requests, exactly the newest sixteen wait |
| Pairing.PairingAfterOverflow | crates/capture/src/scanner.rs:752-773 | after any number of requests the responses that follow are labelled from the newest sixteen on |
| Pairing.UnaskedHasNoLabel | crates/capture/src/scanner.rs:762-773 | a response nothing waits for has no label |
| Emission.EmissionIgnoresPairing | crates/capture/src/scanner.rs:752-847 | the statistics handed on are exactly those a reference without any queue expects, stated on the body's scopes and the codes 200 to 299: host, status, content type and body |
| Emission.MessagesIgnorePairing | crates/capture/src/scanner.rs:718-858 | all messages come out exactly as a reference without any queue expects, labels of responses aside: the notice of a statistics request, the statistics, and one observation each, with host, status, content type and shape; the host remembered is the one named last |
| Emission.StatsPathIs | crates/capture/src/scanner.rs:774-777 | the statistics path is recognised with any query behind a question mark, and nothing else is |
| Emission.HostIgnoresPairing | crates/capture/src/scanner.rs:719-750 | the host remembered after a run does not depend on the queue |
| Emission.RunsIgnorePairing | crates/capture/src/scanner.rs:752-847 | two connections that differ only in their queues hand on the same statistics over every sequence of calls; Comparisons says the same of the shared parser |
| Comparisons.RunsAlike | crates/capture/src/scanner.rs:752-847 | two runs of the shared parser with the same actions and evictions, from states that differ only in pending requests, hand on the same statistics at every step and stay equal but for pending requests |
| Comparisons.StatisticsComeOut | crates/capture/src/scanner.rs:752-847 | on a connection nothing was taken from, inside any interleaving, the statistics that come out are exactly those its messages carry, by the reference that knows no queue |
| Emission.EmittedAreSound | crates/capture/src/scanner.rs:774-847 | every statistics response carries POST, the statistics path before any `?`, an allowed host, a success status and a body |
| ParserSafety.PruningIsSafe | crates/capture/src/scanner.rs:561-627 | pruning brings the table to at most 256 ids and takes neither an API connection nor the active one |
| ParserSafety.CrowdedSparesTheNewest | crates/capture/src/scanner.rs:590-604 | taking the oldest unprotected ids reaches the limit exactly and never the newest |
| ParserSafety.ActivePrunedExactlyOnTies | crates/capture/src/scanner.rs:590-604 | on a clock that may stand still the active connection can go out if and only if it is new, the table is full and all unprotected others were seen at this instant |
| ParserSafety.PrunedKeepsInv | crates/capture/src/scanner.rs:561-627 | pruning keeps the invariant, every API host, and all that is held for the active connection |
| ParserSafety.TotalOfLarge | crates/capture/src/scanner.rs:873-889 | all bytes held are at most those in large buffers plus one scan buffer per key |
| ParserSafety.MemoryBound | crates/capture/src/scanner.rs:30-39 | all buffers together hold at most 96 MiB + 2 * 256 * 128 KiB = 160 MiB |
| ParserSafety.BudgetKeepsTotal | crates/capture/src/scanner.rs:873-889 | the byte-budget step keeps large buffers within 96 MiB, and the whole within it when the active buffer is large |
| ParserSafety.FewAreDropped | crates/capture/src/scanner.rs:725-738 | one call drops at most one other API host, or two if its own connection is new and the table was full |
| Budget.FattestWasNeeded | crates/capture/src/scanner.rs:878-888 | the loop takes nothing in excess: with any one buffer put back the total would not fit |
| Budget.TakenExactly | crates/capture/src/scanner.rs:873-889 | a buffer, the active connection's other direction among them, can be taken if and only if the active buffer is large and the total is over budget without the strictly larger ones |
| ParserSafety.PieceKeepsInv | crates/capture/src/scanner.rs:641-889 | one call, after pruning, keeps the invariant of all tables |
| ParserSafety.StepKeepsInv | crates/capture/src/scanner.rs:561-895 | every step, including the outside removal of a host, keeps the invariant |
| Parser.DiscoveryParser.constructor | crates/capture/src/scanner.rs:548-558 | a new parser is the empty state and satisfies the invariant |
| Parser.DiscoveryParser.Stalest | crates/capture/src/scanner.rs:727-732 | an id of the candidates that was seen no later than any other |
| Parser.DiscoveryParser.TouchAndPrune | crates/capture/src/scanner.rs:561-627 | all tables after the call are those of the pruned state; who was evicted for lack of room are the oldest unprotected |
| Parser.DiscoveryParser.TakeVictims | crates/capture/src/scanner.rs:561-606 | the victims are the silent ones plus the crowded out, only on every 128th call or when there are too many; the rest stay with their times |
| Parser.DiscoveryParser.TakeSilentAndCrowded | crates/capture/src/scanner.rs:580-604 | the silent unprotected ids go, and then the oldest unprotected as long as there are too many |
| Parser.DiscoveryParser.EvictOldest | crates/capture/src/scanner.rs:590-604 | as many of the oldest unprotected ids as there are too many leave the table |
| Parser.DiscoveryParser.MakeRoom | crates/capture/src/scanner.rs:721-737 | exactly one other connection, the least recently seen, is dropped when the host table is full, and none otherwise |
| Parser.DiscoveryParser.TrackHost | crates/capture/src/scanner.rs:718-747 | the host a message belongs to, remembered when it is an API host; one other host goes exactly when the table was full, which then shrinks to 63 if this connection was in it |
| Parser.DiscoveryParser.PairUp | crates/capture/src/scanner.rs:752-773 | label and queue equal the single connection's; other queues are untouched |
| Parser.DiscoveryParser.HandleFrame | crates/capture/src/scanner.rs:718-858 | messages and connection state equal those of the single-connection machine for the frame |
| Parser.DiscoveryParser.NextStep | crates/capture/src/scanner.rs:663-715 | the branches of the framing loop equal the framing function |
| Parser.DiscoveryParser.FrameBuffer | crates/capture/src/scanner.rs:662-859 | the loop frames exactly what one-shot framing gives and handles the frames in order; other connections lose at most the hosts that make room |
| Parser.DiscoveryParser.WalkPast | crates/capture/src/scanner.rs:648-660 | the outstanding skip and the buffer are both reduced by the smaller of the two |
| Parser.DiscoveryParser.CapBuffer | crates/capture/src/scanner.rs:861-869 | what is kept after a call: unframed data cut to its tail, an outgrown message dropped |
| Parser.DiscoveryParser.HeldBytes | crates/capture/src/scanner.rs:877 | the sum over all buffers |
| Parser.DiscoveryParser.Fattest | crates/capture/src/scanner.rs:879-884 | a key whose buffer is at least as large as every other's |
| Parser.DiscoveryParser.KeepBudget | crates/capture/src/scanner.rs:870-889 | largest others go first until the total fits or only the active buffer is left, and none in excess: with any one put back the total would not fit; nothing goes when the active buffer is small |
| Parser.DiscoveryParser.FramePiece | crates/capture/src/scanner.rs:643-869 | new data framed behind what was held: frames, rest and skip as the one-shot framing gives them |
| Parser.DiscoveryParser.ParsePiece | crates/capture/src/scanner.rs:643-889 | the active connection does what it would do alone; other connections lose only what makes room, and no more than needed |
| Parser.DiscoveryParser.ParseStream | crates/capture/src/scanner.rs:641-895 | one call is one step of the shared state machine and keeps the invariant |
| Parser.DiscoveryParser.ForgetConnection | crates/capture/src/scanner.rs:268-270 | removing a closed connection's host changes nothing else and keeps the invariant |
| ParserRuns.RunKeepsInv | crates/capture/src/scanner.rs:641-895 | the invariant holds in every state of every run |
| ParserRuns.ReachableStatesAreBounded | crates/capture/src/scanner.rs:30-50 | in every reachable state: at most 256 ids, at most 64 hosts, all other tables inside the ids, at most 160 MiB |
| ParserRuns.LargeBufferKeepsBudget | crates/capture/src/scanner.rs:873-889 | after a call that leaves a large active buffer everything held fits 96 MiB |
| ParserRuns.BudgetHoldsExactly | crates/capture/src/scanner.rs:873-889 | after any call everything held fits 96 MiB if and only if the active buffer is large or what was held and the active buffer fit already |
| Overrun.BudgetCanFail | crates/capture/src/scanner.rs:861-889 | twelve connections waiting for the rest of a message as long as the limit, and one byte on a thirteenth: a run from the empty parser that holds 96 MiB and one byte |
| Overrun.EndlessIsUnfinished | crates/capture/src/scanner.rs:680-686 | a chunked head whose size line never ends is such a message |
| Overrun.BudgetDoesFail | crates/capture/src/scanner.rs:861-889 | so such a run exists for every decoder that reads ASCII |
| Overrun.OtherDirectionCanGo | crates/capture/src/scanner.rs:873-889 | after those twelve calls, as long a message in the other direction of the first can cost it what it holds |
| ParserRuns.FewAreDroppedInAStep | crates/capture/src/scanner.rs:725-738 | no step of any run drops more than two other API hosts |
| ParserRuns.DroppedAreStalest | crates/capture/src/scanner.rs:725-737 | a host dropped for room was seen no later than any other that stayed |
| Silence.SilentIsForgotten | crates/capture/src/scanner.rs:573-589 | over every run, a connection that is not the game's and was last seen more than 45 minutes before each of 128 calls of others is forgotten at their end, with all that was held for it |
| Silence.ForgottenExactly | crates/capture/src/scanner.rs:573-604 | what takes another connection out: on every 128th call or above 256, being silent for over 45 minutes and not the game's; or being crowded out |
| ParserRuns.StepIsLocal | crates/capture/src/scanner.rs:641-895 | a step that takes nothing from a connection acts on it as its own machine would, or not at all |
| ParserRuns.Isolation | crates/capture/src/scanner.rs:561-895 | in any interleaved run, a connection nothing was taken from hands on exactly the messages, and ends in exactly the state, of a machine fed only its own calls |
| Comparisons.IsolationFromOthers | crates/capture/src/scanner.rs:561-895 | in any interleaved run, a connection nothing was taken from hands on exactly what a fresh parser fed only that connection's calls hands on |
| Comparisons.OwnRunTakesNothing | crates/capture/src/scanner.rs:561-889 | a parser fed only one connection's calls never takes anything from it |
| Conversations.RunIsItsFrames | crates/capture/src/scanner.rs:641-895 | any run of calls, both directions mixed, is its framed messages handled one after the other |
| Conversations.EachDirectionAlone | crates/capture/src/scanner.rs:641-716 | each direction's messages and its final buffer are those of framing that direction's data alone |
| Conversations.RunPairsInOrder | crates/capture/src/scanner.rs:752-773 | FIFO over whole runs: on a connection nothing was taken from, used in both directions inside any interleaving, the k-th response is labelled with the k-th request |
| Conversations.PrintedDirection | crates/capture/src/scanner.rs:641-895 | a direction that carries printed messages in any pieces, inside any interleaving and whatever the other direction carries, frames exactly those within the limit, in order, with nothing left over |
| Conversations.PrintedConversation | crates/capture/src/scanner.rs:641-895 | when both directions carry printed messages in any pieces, exactly those are handled, each direction's in order, and both buffers are empty at the end |
| Conversations.PrintedConversationPairs | crates/capture/src/scanner.rs:641-895 | and the k-th printed response comes out labelled with the k-th printed request |
| Dialogues.PrintedDialogue | crates/capture/src/scanner.rs:641-895 | end to end from start lines as printed: the k-th response comes out with its printed code, labelled with the method and path of the k-th printed request |
| ClientHello.ReadU16 | crates/capture/src/scanner.rs:1078-1083 | the big-endian pair at an offset, None exactly when it is out of bounds |
| ClientHello.WalkNames | crates/capture/src/scanner.rs:1057-1071 | the cursor loop over server names finds what the recursive search finds |
| ClientHello.WalkServerName | crates/capture/src/scanner.rs:1053-1072 | the server_name body, its list cut to the extension's end, as the recursive search reads it |
| ClientHello.WalkExtensions | crates/capture/src/scanner.rs:1045-1074 | the extension loop finds what the recursive search finds |
| ClientHello.LocateExtensions | crates/capture/src/scanner.rs:1033-1043 | the extensions' place behind session id, cipher suites and compression methods, or none |
| ClientHello.ReadServerName | crates/capture/src/scanner.rs:1021-1076 | on every byte string the cursor code terminates, reads in bounds and equals the specification |
| ClientHello.HostReadBack | crates/capture/src/scanner.rs:1021-1083 | a printed single-record ClientHello, with any extensions before and after server_name and anything behind the record, gives the normalised host |
| ClientHello.NameReadBack | crates/capture/src/scanner.rs:1021-1076 | in text: the normal form of the host name that was sent |
| ClientHello.NamelessReadBack | crates/capture/src/scanner.rs:1021-1076 | a ClientHello without server_name names no host |
| ClientHello.TruncatedHello | crates/capture/src/scanner.rs:1022-1032 | no strict prefix of a record names a host |
| ClientHello.NoHello | crates/capture/src/scanner.rs:1022-1029 | nothing else than a handshake record with a ClientHello names a host |
| ClientHello.BrokenName | crates/capture/src/scanner.rs:1057-1064 | a name that reaches beyond its list ends the search with no host |
| ClientHello.BrokenExtension | crates/capture/src/scanner.rs:1045-1052 | an extension that reaches beyond them all ends the search with no host |
| ClientHello.LongListIsCut | crates/capture/src/scanner.rs:1054-1056 | a name list longer than its extension is read up to the extension's end |
| ClientHello.NoServerName | crates/capture/src/scanner.rs:1045-1075 | a printed list of extensions without server_name gives no host |
| Overlay.HydrationIsNeutral | crates/core/src/state.rs:165-178 | filling in legacy aggregates changes no lookup if and only if the record does not have numbers without aggregates |
| Overlay.HydrationFillsIn | crates/core/src/state.rs:165-178 | a record without aggregates gets exactly the six its named totals stand for; every other record stays as it is |
| Overlay.DeltaAddsUp | crates/core/src/state.rs:141-163 | baseline and counter together give the current total, in every field and raw key; a total that shrank counts as nothing; the balance is what was carried out less what was carried in |
| Overlay.DeltasTelescope | crates/core/src/state.rs:141-163 | for non-decreasing totals, base to end equals base to middle plus middle to end, in every counter and raw key, and in the balance within i64 range |
| Overlay.SameDelta | crates/core/src/state.rs:141-163 | deltas depend on raw totals only by lookup: absent and zero are the same |
| Overlay.DeltaFromSelf | crates/core/src/state.rs:141-163 | the delta from a record to itself is no counters at all |
| Overlay.DeltaOfNothing | crates/core/src/state.rs:141-163 | empty totals give no counters against any baseline |
| Stats.NormalizeRows | crates/core/src/stats.rs:52-99 | the accumulating loop equals the fold of the rows |
| Stats.TotalsAreCappedSums | crates/core/src/stats.rs:52-108 | every total, named or raw, is min(sum of its rows, 2^64-1): saturating folds equal capped sums |
| Stats.OrderDoesNotMatter | crates/core/src/stats.rs:52-99 | permuted rows normalise to equal totals, raw maps and unknown counts |
| Stats.NamedTotalIsRawTotal | crates/core/src/stats.rs:52-108 | each named total with a raw key equals that key's total, under saturation too |
| Stats.NormalizedAgree | crates/core/src/stats.rs:52-99 | the six named totals of the baseline agree with their raw keys |
| Stats.CountersAgree | crates/core/src/state.rs:141-163 | when current and baseline agree, the four named session counters equal their raw session keys |
| Stats.DamageSplits | crates/core/src/stats.rs:70-78 | damage by target splits without overlap into raider damage and the two player targets |
| Stats.EventKeyInjective | crates/core/src/stats.rs:101-105 | different events have different keys |
| Stats.TargetKeyInjective | crates/core/src/stats.rs:101-105 | different event and target pairs have different keys |
| Stats.EventKeyIsNoTargetKey | crates/core/src/stats.rs:101-105 | a key without a target never equals one with a target |
| Stats.ResponsesAreWellFormed | crates/core/src/stats.rs:24-50 | what the normaliser returns is live, has the totals and the unknown count of the first scope, counts its rows, agrees with its raw keys, and has a day exactly when the first day scope behind it carries rows, with that scope's own totals |
| Stats.RejectedExactly | crates/core/src/stats.rs:24-33 | exactly the documents without rows in their first scope are rejected |
| Stats.DayScopesExactly | crates/core/src/stats.rs:110-128 | a scope is a day's exactly when the letters and digits of its name spell one of the five words, in any case |
| StatsHandover.HandedOnMeansCounted | crates/capture/src/scanner.rs:826-847 | a body handed on by capture is accepted by the normaliser and has rows; one held back is rejected or would have zeroed every total |
| Widgets.Validate | crates/core/src/widget_config.rs:239-285 | the loop with its growing set accepts exactly the configurations the rules describe, unique ids included |
| Widgets.ValidatePreset | crates/core/src/widget_config.rs:250-283 | accepts exactly well-formed presets |
| Widgets.ValidateCells | crates/core/src/widget_config.rs:268-282 | accepts exactly lists of well-formed cells |
| Widgets.ConfigRules | crates/core/src/widget_config.rs:239-285 | the rules written out: schema 2, one to twelve presets with different ids, one to four cells, and so on |
| Widgets.SelectionIsOffered | crates/core/src/widget_config.rs:289-319 | with an accepted configuration the selection names exactly one preset, keeps what was selected if still offered, and is what the widget renders |
| Widgets.PresetsFollowTheNumbers | crates/core/src/widget_config.rs:289-319 | published presets depend on the numbers only, not on look, mode or selection; PresetsShown and Cells say on which, and how |
| Widgets.PresetsShown | crates/core/src/widget_config.rs:289-318 | every configuration publishes its presets in order, with names and labels as written, trimmed ids and styles, and each value the clamped sum of its sources |
| Cells.OutcomeIsStreamThenDay | crates/core/src/widget_config.rs:374-387 | wins and losses are the stream's extractions and deaths once there is either, and until then the day's if there is one |
| Cells.NamedIsAggregate | crates/core/src/widget_config.rs:354-367 | on totals that agree, named account sources show the same as their aggregates' own sources |
| Cells.StreamNamedIsAggregate | crates/core/src/widget_config.rs:368-371 | the same for the stream's counters |
| Cells.DayNamedIsAggregate | crates/core/src/widget_config.rs:372-373 | and for the day's numbers |
| Cells.NamedIsSumOfRows | crates/core/src/widget_config.rs:354-367 | each of the thirteen named account sources is the sum of the rows it is about, up to the signed limit |
| Cells.UnscopedIs | crates/core/src/widget_config.rs:344 | a name without a scope is the account's |
| Cells.AccountPresetShows | crates/core/src/widget_config.rs:59-83 | the shipped account preset: ids, labels, styles and the value of each cell |
| Cells.SessionPresetShows | crates/core/src/widget_config.rs:84-103 | the shipped stream preset, cell by cell |
| Cells.OutcomePresetShows | crates/core/src/widget_config.rs:104-112 | the shipped outcome preset, cell by cell |
| Cells.PvePresetShows | crates/core/src/widget_config.rs:113-136 | the shipped PvE preset, cell by cell |
| Cells.PvpPresetShows | crates/core/src/widget_config.rs:137-157 | the shipped PvP preset, cell by cell |
| Cells.ShippedPresets | crates/core/src/widget_config.rs:57-159 | the shipped configuration publishes these five, in this order |
| Widgets.DefaultsAreAccepted | crates/core/src/widget_config.rs:57-159 | the shipped presets pass validation and hold the three damage cells |
| Widgets.AccountDamageValue | crates/core/src/widget_config.rs:70-80 | the shipped formula resolves to the clamped signed value of total minus the two player targets |
| Widgets.RaiderDamageFormula | crates/core/src/widget_config.rs:70-80 | the shipped formula equals the named raider damage if and only if the stated range condition on the raw totals holds; it holds whenever event 101 fits i64 |
| Widgets.RaiderDamageFormulaCanFail | crates/core/src/widget_config.rs:343-352 | one row of 2^63 damage where formula and named total differ |
| Widgets.DamageCellsSplitTheStream | crates/core/src/widget_config.rs:113-157 | within the signed range the shipped PvE and PvP damage cells sum to the stream's damage |
| Storage.NewestIsPrefix | crates/storage/src/lib.rs:264-281 | asking for fewer rows gives the front of what asking for more gives |
| Storage.OldRowsDoNotMatter | crates/storage/src/lib.rs:264-281 | with days in order, the current day's newest are found among the newest rows |
| Storage.PruningKeepsTheDay | crates/storage/src/lib.rs:255-260 | cutting the table does not change the current day's newest rows |
| Storage.NewEventGoesFirst | crates/storage/src/lib.rs:244-281 | after an insert the day's newest are the event followed by the previous newest |
| Storage.NewestOfCut | crates/storage/src/lib.rs:160-183 | up to the limit, reading the cut table equals reading everything ever written |
| Storage.NewestOfDayIsNewest | crates/storage/src/lib.rs:264-281 | the rows of a day are those of the table with that day; reading gives the newest of them first, none missing up to the limit |
| Storage.Database.Reopen | crates/storage/src/lib.rs:121-128 | opening cuts both tables to their newest and keeps the session row |
| Storage.Database.SaveStreamSession | crates/storage/src/lib.rs:185-209 | the one row is replaced |
| Storage.Database.LoadStreamSession | crates/storage/src/lib.rs:211-242 | the row, or none when there is none or its schema is another |
| Storage.Database.InsertUserEvent | crates/storage/src/lib.rs:244-262 | the table is the newest of everything written, at least 1,000 and at most 1,063 rows between calls |
| Storage.Database.InsertObservation | crates/storage/src/lib.rs:135-158 | the same for observations, every 256 writes and 5,000 rows |
| Storage.Database.RecentObservations | crates/storage/src/lib.rs:160-183 | newest first, and up to the limit the newest ever written |
| Storage.Database.UserEventsForDay | crates/storage/src/lib.rs:264-281 | only the day's events, newest first, none missing up to the limit and to 100 |
| Session.ProbeKeepsInv | crates/arc-live/src/ui.rs:605-673 | a response keeps shown, remembered and stored numbers in agreement |
| Session.ResetKeepsInv | crates/arc-live/src/ui.rs:251-275 | a reset keeps the agreement |
| Session.RolloverKeepsInv | crates/arc-live/src/ui.rs:209-249 | a new day keeps the agreement |
| Session.PersistKeepsInv | crates/arc-live/src/ui.rs:188-207 | saving keeps the agreement |
| Session.DemoKeepsInv | crates/arc-live/src/ui.rs:985-1048 | demo on, demo off and the balance flip keep the agreement |
| Session.SettingsKeepInv | crates/arc-live/src/ui.rs:277-409 | preset reload, full reload, look and selection keep the agreement |
| Session.OpenedIsInv | crates/arc-live/src/ui.rs:75-112 | a start over any stored row not from a later day, of an older record or of another schema too, establishes the agreement |
| Session.StepKeepsInv | crates/arc-live/src/ui.rs:60-1048 | every event keeps it: counters are the baseline delta in live mode, presets are the current formulas on the current numbers, a baseline exists exactly when the stored row can be restored today and equals by lookup what restoring it gives |
| Session.RunKeepsInv | crates/arc-live/src/ui.rs:60-1048 | it holds over every run of events |
| Session.ProbeShows | crates/arc-live/src/ui.rs:605-673 | after a response the record shown and saved is the response's own in mode, totals, rows and day, with the counters from the baseline, the presets of the current configuration, the old selection if offered and the old look within its limits |
| Session.ResetShows | crates/arc-live/src/ui.rs:251-275 | after a reset every counter is 0, and what is shown otherwise stays and becomes the baseline |
| Session.NewDayIsBlank | crates/arc-live/src/ui.rs:209-249 | a new day starts with no baseline, no counters and no day numbers, noticed while running or by a new process |
| Session.OpenedShows | crates/arc-live/src/ui.rs:75-112 | a start over today's row shows that record with its counters, the given look, and the given selection if offered; any other start shows nothing |
| Session.SelectShows | crates/arc-live/src/ui.rs:277-292 | a preset is selected exactly when the configuration has it |
| Session.ReloadShows | crates/arc-live/src/ui.rs:325-409 | a full reload: look, selection, configuration and presets, and nothing else |
| Session.ClearDemoShows | crates/arc-live/src/ui.rs:1029-1048 | leaving the demo shows nothing, with look and selection kept |
| Session.DemoBalanceFlips | crates/arc-live/src/ui.rs:871-884 | the demo balance starts negative and changes its sign with every flip |
| Session.LookIsKept | crates/arc-live/src/ui.rs:655-662 | the look is kept by every step but those that set it, and set within its limits |
| Restarts.RestartOnNumbers | crates/arc-live/src/ui.rs:75-112 | a new process on the same day restores the baseline by lookup and the record saved now or, in demo mode and after a crash, last |
| Restarts.StepStaysRelated | crates/arc-live/src/ui.rs:188-275 | a step keeps application and reference in agreement if and only if it is harmless: a reset takes real totals, a stop saves real totals |
| Restarts.CountersFollowTheStream | crates/arc-live/src/ui.rs:605-673 | over every clean run every game response shows the delta from the first response of the day or the last reset, the response's day, and since when it counts |
| Restarts.RunShowsNewest | crates/arc-live/src/ui.rs:60-1048 | after every clean run, with restarts, crashes and demo data anywhere, real numbers on screen are the newest response's in totals, rows and day, and on a new day there is no day |
| Restarts.AgreementIsExact | crates/arc-live/src/ui.rs:60-1048 | application and reference agree if and only if every clean run from here on shows what the reference expects |
| Restarts.HarmIsExact | crates/arc-live/src/ui.rs:569-578 | a step makes some later clean run wrong if and only if it is not harmless |
| Restarts.BaselinesTellApart | crates/arc-live/src/ui.rs:618-627 | two different baselines are told apart by some response |
| Restarts.DemoSavedGoesWrong | crates/arc-live/src/ui.rs:569-578 | a run in which a stop saves demo numbers: the counter shows 0 where 1,000 is expected, and 1,000 without the stop |
| Restarts.DemoResetGoesWrong | crates/arc-live/src/ui.rs:251-275 | a run in which a reset is confirmed during the demo: 0 where 1,000 is expected |
| Restarts.RestartsAreInvisible | crates/arc-live/src/ui.rs:75-112 | from a start over any stored row, over every clean run with restarts, crashes and demo data anywhere, every game response shows the counters, day and start of the run without them and those the reference expects, and what is shown at the end is the newest response's |
| App.ArcLiveApp.constructor | crates/arc-live/src/ui.rs:60-164 | a start over any stored row not from a later day restores today's, loads the day's events and satisfies the invariant |
| App.ArcLiveApp.RecordUserEvent | crates/arc-live/src/ui.rs:170-186 | the event is written, and the list shown stays the table's newest 30 of the day, whether or not the table was cut |
| App.ArcLiveApp.PersistStreamSession | crates/arc-live/src/ui.rs:188-207 | writes exactly the session row, or nothing without a baseline |
| App.ArcLiveApp.RolloverDayIfNeeded | crates/arc-live/src/ui.rs:209-249 | the fields after a day change are the specified step; invariant and event list are kept |
| App.ArcLiveApp.StartNewStream | crates/arc-live/src/ui.rs:251-275 | the fields after a reset are the specified step; invariant and event list are kept |
| App.ArcLiveApp.SelectOverlayPreset | crates/arc-live/src/ui.rs:277-292 | selects only offered presets; invariant kept |
| App.ArcLiveApp.ReloadWidgetConfig | crates/arc-live/src/ui.rs:296-321 | an accepted file is applied, a rejected one changes nothing; invariant kept |
| App.ArcLiveApp.ReloadConfiguration | crates/arc-live/src/ui.rs:325-409 | look, selection and presets reread; invariant kept |
| App.ArcLiveApp.GameStopped | crates/arc-live/src/ui.rs:562-579 | saves the shown record, whatever its mode |
| App.ArcLiveApp.ApplyProbe | crates/arc-live/src/ui.rs:587-712 | the fields after a game response are the specified step, the observation and one event are written; invariant and event list are kept |
| App.ArcLiveApp.FlipDemo | crates/arc-live/src/ui.rs:871-884 | the demo balance changes sign; invariant kept |
| App.ArcLiveApp.LoadDemoStats | crates/arc-live/src/ui.rs:985-1027 | the demo numbers, with presets resolved on them; invariant kept |
| App.ArcLiveApp.ClearDemoStats | crates/arc-live/src/ui.rs:1029-1048 | an empty live record with look and selection kept; invariant kept |
| App.ArcLiveApp.Close | crates/arc-live/src/ui.rs:1171-1180 | the session is saved unless demo numbers are shown |
| App.NewEventFits | crates/arc-live/src/ui.rs:184-185 | inserting at the front and truncating to 30 equals rereading the table |
| App.Restart | crates/arc-live/src/ui.rs:75-112 | closing and constructing again is the specified restart step; the new object satisfies the invariant |
| App.StartAfterCrash | crates/arc-live/src/ui.rs:75-112 | constructing over the file of a process that was not closed is the specified crash step; the new object satisfies the invariant |
| LineReader.ReadConnection | crates/arc-live/src/service_client.rs:135-175 | the inner loop delivers, for every sequence of reads, what the specification delivers from the kept line |
| LineReader.RunWorker | crates/arc-live/src/service_client.rs:133-209 | over all connections; when no line is too long, exactly each connection's complete lines in turn |
| LineReader.CutIs | crates/arc-live/src/service_client.rs:136-138 | there is only one way to cut a stream behind its first newline |
| LineReader.DeliversItsLines | crates/arc-live/src/service_client.rs:135-175 | however reads are interrupted, one connection delivers exactly its newline-terminated lines when none is too long |
| LineReader.DeliveryIsExact | crates/arc-live/src/service_client.rs:157-174 | that holds under every way of being interrupted if and only if no line exceeds the limit |
| LineReader.UnluckyBreaks | crates/arc-live/src/service_client.rs:169-174 | for every stream with a line too long, a run of reads that delivers something else |
| LineReader.LossIsLocal | crates/arc-live/src/service_client.rs:135-175 | with lines of any length every line is delivered once, in order; one that is too long may lose its beginning, and no other is touched |
| LineReader.LossNeverSpreads | crates/arc-live/src/service_client.rs:133-209 | the same over reconnects |
| LineReader.ConnectionsNeverMix | crates/arc-live/src/service_client.rs:185-209 | a partial tail never joins the next connection's bytes |
| Polling.PollMissesNothing | crates/capture/src/rawsock.rs:319-358 | without a stop a call returns None exactly when no socket has a packet, and otherwise the packet of the socket served |
| Polling.NextStays | crates/capture/src/rawsock.rs:338-357 | the starting index stays within the sockets |
| Polling.ServedExactly | crates/capture/src/rawsock.rs:326-340 | the socket served is the first ready one on the ring, unless a stop ends the call before it |
| Polling.NextStart | crates/capture/src/rawsock.rs:326-358 | the next call starts behind the socket served, one further when none was, and where this one did after a stop |
| Polling.LossesAreCounted | crates/capture/src/rawsock.rs:341-350 | the counter grows by exactly the sockets asked that lost a packet, up to its maximum |
| Polling.Nearer | crates/capture/src/rawsock.rs:326-357 | a call that does not serve a ready socket brings it strictly nearer on the ring |
| Polling.EverySocketIsServed | crates/capture/src/rawsock.rs:326-357 | whatever the others do, a socket always ready is served within its ring distance plus one calls |
| Polling.WithinOneRound | crates/capture/src/rawsock.rs:326-357 | so within n calls of n sockets |
| Polling.BusySocketsTakeTurns | crates/capture/src/rawsock.rs:326-357 | when all are busy it is served in exactly that many calls: the bound is tight |
| RawSocket.RawCapture.Open | crates/capture/src/rawsock.rs:244-276 | a socket for each address that accepts one; it fails exactly when none does, and then nothing is left open |
| RawSocket.RawCapture.MaybeRebind | crates/capture/src/rawsock.rs:283-310 | at most once per interval, the reconcile step: sockets, log of system calls and invariant |
| RawSocket.RawCapture.CloseVanished | crates/capture/src/rawsock.rs:294-302 | the in-place removal loop closes exactly as specified |
| RawSocket.RawCapture.OpenAppeared | crates/capture/src/rawsock.rs:303-309 | the opening loop opens exactly as specified |
| RawSocket.RawCapture.PollOnce | crates/capture/src/rawsock.rs:323-358 | the polling loop equals the poll function: packet, next index and saturating count of oversized packets |
| RawSocket.RawCapture.NextPacket | crates/capture/src/rawsock.rs:314-359 | nothing is asked once stopped; otherwise rebind, then poll all sockets then bound |
| RawSocket.RawCapture.Shutdown | crates/capture/src/rawsock.rs:224-231 | stops, and closes every socket held |
| RawSocket.RawCapture.Drop | crates/capture/src/rawsock.rs:362-369 | closes every socket held, so that nothing is open |
| RawSocket.OpenMissingAdds | crates/capture/src/rawsock.rs:303-309 | what was bound stays in front, what is added is listed, each listed address is bound unless opening failed |
| RawSocket.CloseGoneIs | crates/capture/src/rawsock.rs:294-302 | exactly the sockets whose adapter is gone are closed, in order, once each |
| RawSocket.ReconciledFits | crates/capture/src/rawsock.rs:283-310 | after reconciling only current addresses are bound, kept ones by the same sockets |
| RawSocket.StepKeepsInv | crates/capture/src/rawsock.rs:224-310 | every event keeps addresses distinct, handles distinct, and the handles held equal to the handles open |
| RawSocket.RunKeepsInv | crates/capture/src/rawsock.rs:224-370 | so in every interleaving of rebind, shutdown and drop |
| RawSocket.SoundCounts | crates/capture/src/rawsock.rs:224-370 | in a sound log of calls every handle is closed as often as it was opened, plus one if it is open |
| RawSocket.DropClosesEverything | crates/capture/src/rawsock.rs:362-369 | once dropped, whatever went before, every handle was closed exactly as often as it was opened |

## Left out

- TLS decryption and TCP reassembly: the model starts from in-order byte pieces of a connection.
- HTTP bodies delimited by the end of the connection, and HEAD, 204 and 304 responses with a length: the parser does not implement these rules.
- gzip, deflate, brotli and JSON text parsing: arbitrary functions; normalisation starts from rows whose numbers are already read (crates/core/src/stats.rs:134-161).
- The shape printed into observations, and `sanitize_path`: carried along as text, not computed.
- Delivery after the parser: channels drop events when full (`try_send`), so no end-to-end delivery is claimed.
- Failed database writes, days that go back, and the text of event messages (`last_totals`).
- ArcLiveApp: `OverlayStats` is one grouped value (totals, counters, today, look), copied as the source clones it; the server notification, the activity log, saving of settings, onboarding and updates are not part of it. A config file that cannot be read leaves the session as it is.
- WidgetConfig: reading the file and migrating the older layout; a configuration that was accepted is a value.
- Selecting a preset whose configured id has surrounding spaces: `apply` trims the id, `contains` does not.
- Storage: SQL, text encoding of rows and the migrations; a table is the sequence of its rows in id order.
- LineReader: the events the worker itself adds (status and errors), decoding of a delivered line, and how long reconnecting takes.
- RawSocket: enumerating adapters, socket options, and the buffer; what the system answers is given. One call is modelled undisturbed; other threads come in between calls as events of `Run`.
- Overlay drawing, the local web server, updates, installers and process monitoring: not part of this model.
