# Verification of tcp_pubsub

This project models the Version 0 protocol of tcp_pubsub and proves what its two sides keep in
every run. The model follows the C++ code; where the code and its documentation differ, the code
is followed and the difference is named at the end of this page.

| File | What it holds |
|---|---|
| `Bytes.dfy`, `TcpHeader.dfy` | octets, little-endian numbers, the packed 12-byte header, the handshake frame |
| `FrameReader.dfy` | the four read stages both sessions share, and a one-shot parser they are compared with |
| `FrameWriter.dfy` | the buffer filling of `Publisher_Impl::send`, in place on an array |
| `SendProtocol.dfy`, `SendTheorems.dfy` | the publisher's session as atomic steps; the theorems about its runs |
| `SendOverlaps.dfy` | when two writes of a session are in flight together, told by its members and by its caller |
| `PublisherSession.dfy`, `Publisher.dfy` | the classes `PublisherSession` and `Publisher_Impl`, proved to take those steps |
| `Wire.dfy` | a session with the bytes its writes put on the TCP stream, in any number of pieces |
| `SubscriberProtocol.dfy`, `SubscriberTheorems.dfy`, `SubscriberRuns.dfy` | the subscriber's session: resolve, connect, handshake, read, retry; its invariant; the theorems about its runs |
| `SubscriberOutcomes.dfy` | exactly which steps end a connection, what that costs, what a payload gives back, and which publisher is reported |
| `SubscriberAttempts.dfy` | which entries of the publisher list an attempt contacts, and when the first that works is used |
| `SubscriberSession.dfy` | the class `SubscriberSession_Impl`, proved to take those steps |
| `TornStreams.dfy` | the exact condition under which the stream stays whole |
| `Mailbox.dfy`, `Subscriber.dfy` | the one-slot mailbox and the mode switch; the class `Subscriber_Impl` with its sessions, `setCallback` and `cancel` |
| `FanOut.dfy` | the publisher's session list and the order of `send` calls |
| `PublisherRuns.dfy` | a whole publisher: list, sessions, streams and `send`, interleaved |
| `EndToEnd.dfy` | from `send` to the callback |

A state machine is a record, one function per atomic step, and an `Enabled` predicate; a run is a
sequence of events. Each class has the fields of its C++ counterpart; a ghost field `trail` keeps
what the object leaves behind in Asio (operations in flight, the strand) and the history that the
theorems speak about. Every method states the whole new state as a step of the machine, so the theorems
about runs hold for the classes.

## Assumptions

- The host is little-endian: the minimum check on the header size is on the raw field
  (tcp_pubsub/src/publisher_session.cpp:152, tcp_pubsub/src/subscriber_session_impl.cpp:323).
- An `async_read` of n bytes consumes exactly n bytes or fails. An `async_write` completes without
  error only when all its bytes are on the wire. The stream is FIFO. Tasks of a strand run one at
  a time in the order in which they were posted.
- Atomic are: the body of `sendDataBuffer`, the body of a write completion, the sending of the
  handshake response together with the change of state behind it, the two posts behind a message,
  and in `Subscriber_Impl` each section under the callback mutex and each access to an atomic flag.
- The closed handler of a publisher's session runs in a lock section of its own, some time after
  the session was canceled.
- A buffer from the pool belongs to one `send` call. A serial number stands for its identity, and
  counts the `send` calls in the order of their deciding lock section.
- `start` of a session is called once. `setCallback` and `cancel` of a subscriber do not overlap
  and are not called from inside a callback. Waiting for the retry timer fails only when `cancel`
  aborts it.
- Memory lasts: a reader can make room for the size that a header announces
  (tcp_pubsub/src/subscriber_session_impl.cpp:414-421, tcp_pubsub/src/publisher_session.cpp:238), so
  "every stream" includes those with huge announced sizes.
- All payload sizes of one `send` and the header fit into 64 bits; beyond that the C++ code would
  write past its buffer.

## Model

| member | source | states |
|---|---|---|
| Bytes.EncodeThenDecode | tcp_pubsub/src/publisher_impl.cpp:292-295 | A number that fits into a little-endian field is read back unchanged |
| Bytes.DecodeThenEncode | tcp_pubsub/src/subscriber_session_impl.cpp:330-331 | Every field content is the encoding of exactly the number read from it |
| Bytes.DigitAt | tcp_pubsub/src/tcp_header.h:25-31 | Byte i of a field is the digit of the number for 256 to the power of i |
| TcpHeader.HeaderRoundTrip | tcp_pubsub/src/tcp_header.h:25-31 | The twelve packed bytes of a header decode to that header |
| TcpHeader.HeaderLayout | tcp_pubsub/src/tcp_header.h:10-31 | The packed layout by position: size in bytes 0 and 1, type, reserved, and the eight digits of the data size |
| TcpHeader.HandshakeBytes | tcp_pubsub/src/subscriber_session_impl.cpp:208-218 | The thirteen bytes of a handshake message, as they are on the wire |
| TcpHeader.DataFrameBytes | tcp_pubsub/src/publisher_impl.cpp:290-306 | The first four bytes of a frame of `send`, the digits of its size, and the payload behind the twelfth byte |
| TcpHeader.HeaderInjective | tcp_pubsub/src/tcp_header.h:25-31 | Two different twelve-byte headers never mean the same |
| TcpHeader.ShortHeaderTolerance | tcp_pubsub/src/subscriber_session_impl.cpp:330-337 | A header of 2 to 11 bytes means what the full one means if and only if every byte left out is zero ("values not sent are 0") |
| TcpHeader.LongHeaderTolerance | tcp_pubsub/src/subscriber_session_impl.cpp:334-360 | A header above 12 bytes means what its first 12 bytes mean |
| FrameReader.Complete | tcp_pubsub/src/subscriber_session_impl.cpp:315-421 | After a finished read the next stage is one that can be waited for, and a handed-on message is never empty |
| FrameReader.StageSound | tcp_pubsub/src/subscriber_session_impl.cpp:286-426 | Finishing a stage reaches the next one with the right bytes held, or settles the frame exactly as the one-shot parser does; the 16-bit subtractions stay in range |
| FrameReader.StageWaiting | tcp_pubsub/src/subscriber_session_impl.cpp:300-302 | While a stage waits for bytes there is no complete frame yet |
| FrameReader.ReadOnceParses | tcp_pubsub/src/subscriber_session_impl.cpp:300-426 | A completed read moves bytes from the socket into the reader without changing what the stream means |
| FrameReader.ParseAppend | README.md:170-180 | Bytes that arrive later never change frames already parsed |
| FrameReader.StagedReaderIsOneShotParser | tcp_pubsub/src/subscriber_session_impl.cpp:286-482 | For every stream and every cutting into chunks the staged reader hands on exactly the non-empty frames of the one-shot parse, fails exactly where that fails, and holds the rest |
| FrameReader.HeadOfWireFrame | README.md:170-180 | A well-formed frame of any header size, with anything behind it, is read as that frame and takes header size plus data size bytes |
| FrameReader.ParseInverts | tcp_pubsub/src/subscriber_session_impl.cpp:286-482 | Parsing gives back every list of well-formed frames and then stands at the first byte behind them |
| FrameReader.FramesSurviveChunking | tcp_pubsub/src/subscriber_session_impl.cpp:286-482 | Frames with header sizes 2 to 65535, cut in any way, arrive as the same messages, and the reader is back at its first stage |
| FrameWriter.FillBuffer | tcp_pubsub/src/publisher_impl.cpp:265-307 | The buffer is header, joined sub-buffers, and what the recycled buffer held behind them |
| FrameWriter.CopyParts | tcp_pubsub/src/publisher_impl.cpp:298-306 | Each sub-buffer that is not null is copied right behind the one before; nothing else is touched |
| FrameWriter.CopyInto | tcp_pubsub/src/publisher_impl.cpp:303 | A copy replaces exactly the bytes of its range |
| FrameWriter.SizesAddUp | tcp_pubsub/src/publisher_impl.cpp:271-275 | The announced size is the joined size if and only if no null sub-buffer has a size |
| FrameWriter.EncoderExact | tcp_pubsub/src/publisher_impl.cpp:265-307 | `send` makes the frame of the joined sub-buffers, whatever the recycled buffer held, if and only if no null sub-buffer has a size |
| FrameWriter.SizedNullExposesOldBytes | tcp_pubsub/src/publisher_impl.cpp:299-305 | The frame depends on the recycled buffer's old contents if and only if some null sub-buffer has a size |
| FrameWriter.FilledDecodes | tcp_pubsub/src/publisher_impl.cpp:290-307 | Every frame of `send` is read back as one regular frame of the announced length that starts with the joined sub-buffers |
| SendProtocol.AccountedStep | tcp_pubsub/src/publisher_session.cpp:314-334 | Every step keeps: accepted = handed to the socket + dropped + in the slot, as multisets |
| SendProtocol.ConservedStep | tcp_pubsub/src/publisher_session.cpp:314-390 | and buffers are accepted in `send` order, and a dropped one lost to a strictly newer one |
| SendProtocol.FlowStep | tcp_pubsub/src/publisher_session.cpp:92-111 | Every step keeps the relation between phase, flag, writes in flight, slot, and calls of the closed handler |
| SendProtocol.ReadingStep | tcp_pubsub/src/publisher_session.cpp:121-269 | Every step keeps the request reader at its place in the message, and no write starts before one complete handshake message |
| SendProtocol.OrderStep | tcp_pubsub/src/publisher_session.cpp:317-381 | Every step keeps the data writes in order up to one swap at the front |
| SendProtocol.StepKeepsInv | tcp_pubsub/src/publisher_session.cpp:67-393 | The whole invariant is kept by every step of the session |
| SendTheorems.LifecycleMovesForward | tcp_pubsub/src/publisher_session.cpp:82-111 | Over any part of any run the state only moves forward and histories only grow; a canceled session starts no read and no write and changes nothing of itself |
| SendTheorems.SessionLifecycle | tcp_pubsub/src/publisher_session.cpp:92-111 | The closed handler runs once exactly when the session is canceled; the first write is the handshake response, the only one, behind one complete non-empty handshake message |
| SendTheorems.RequestDecides | tcp_pubsub/src/publisher_session.cpp:121-269 | The bytes read decide, as the one-shot parser sees them: reply if and only if they are one complete non-empty handshake message, close on a malformed header or any other complete message, else go on reading |
| SendTheorems.HandshakeIsAwaited | tcp_pubsub/src/publisher_session.cpp:121-269 | In every run a session whose handshake is not over has a read pending; it never just stops |
| SendTheorems.EveryBufferHasOneFate | tcp_pubsub/src/publisher_session.cpp:314-390 | An accepted buffer is exactly one of initiated once, dropped for a newer one, in the slot; the newest is never dropped |
| SendTheorems.BuffersAreConserved | tcp_pubsub/include/tcp_pubsub/publisher.h:29-38 | In every run accepted = initiated + overwritten + (1 if the slot is taken) |
| SendTheorems.OneWriteIffQuiet | tcp_pubsub/src/publisher_session.cpp:317-324 | From any state with at most one write in flight, a run never has two if and only if no offer is sent beside one; `SendOverlaps` tells such offers by the session's members |
| SendOverlaps.OverlapIffUnsettled | tcp_pubsub/src/publisher_session.cpp:317-388 | In every reachable state an event starts a second write beside another if and only if it is an offer, the session is running with the flag clear, and no completion so far has found the slot empty with the flag already clear |
| SendOverlaps.OneWriteIffNonePremature | tcp_pubsub/src/publisher_session.cpp:317-388 | A run from the start has one write at a time if and only if no offer reaches the running session with the flag clear before such a completion |
| SendOverlaps.ResponseFirstIsQuiet | tcp_pubsub/src/publisher_session.cpp:293-388 | A caller who offers nothing before the handshake response is written gets one write at a time |
| SendOverlaps.BareBehindHandshake | tcp_pubsub/src/publisher_session.cpp:293-388 | Two offers around the reply lead to two data writes in flight, and then to one behind a clear flag |
| SendOverlaps.BareStaysBare | tcp_pubsub/src/publisher_session.cpp:317-388 | From one data write in flight behind a clear flag the next offer overlaps, and the next completion leads back |
| SendOverlaps.OverlapsWithoutEnd | tcp_pubsub/src/publisher_session.cpp:293-388 | For any number of buffers some run sends every one but the first beside another write |
| SendOverlaps.OverlapsAreSent | tcp_pubsub/src/publisher_session.cpp:317-324 | In every run there are at most as many overlaps as data writes |
| SendTheorems.ExcessNeverReturns | tcp_pubsub/src/publisher_session.cpp:293-388 | Writes in flight beyond the flag never grow again; at most two writes, and at most one after an idle moment |
| SendTheorems.ExcessStep | tcp_pubsub/src/publisher_session.cpp:293-296 | The excess is 0 before the reply, 1 at the reply, and never grows in a step behind it |
| SendTheorems.OrderUpToOneSwap | tcp_pubsub/src/publisher_session.cpp:293-388 | Data writes start in `send` order except that the first two may be swapped, which happens if and only if an offer overtakes a stored buffer and a write completes right behind it |
| SendTheorems.CrossedStep | tcp_pubsub/src/publisher_session.cpp:317-333 | The slot holds something older than what was sent exactly behind an overtaking offer; only then does a completion break the order |
| SendTheorems.QuietHasNoSwap | tcp_pubsub/src/publisher_session.cpp:317-333 | A run without overlapping offers has no swap |
| SendTheorems.CompletionTakesItsWrite | tcp_pubsub/src/publisher_session.cpp:345-391 | A completion takes exactly its own write out of those in flight, and starts at most the slot's |
| SendTheorems.Draining | tcp_pubsub/src/publisher_session.cpp:363-390 | Each completion takes one off the load; a loaded session has a write in flight; at the end the flag is cleared and the newest buffer has gone to the socket |
| SendTheorems.ResponseVersion | README.md:149-151 | The response is the same for every request payload, and it is for version 0 |
| SendTheorems.HandshakeRun | tcp_pubsub/src/subscriber_session_impl.cpp:208-218 | The thirteen bytes `0c 00 01 00 01 00 00 00 00 00 00 00 00` take a publisher session to the reply, while an earlier offer waits in the slot |
| SendTheorems.SwapAndOverlapHappen | tcp_pubsub/src/publisher_session.cpp:293-324 | Some run has two writes in flight and starts the newer of two buffers first |
| PublisherSide.PublisherSession.constructor | tcp_pubsub/src/publisher_session.cpp:33-43 | A new session is the initial state |
| PublisherSide.PublisherSession.Start | tcp_pubsub/src/publisher_session.cpp:67-85 | Handshaking, with the header length read pending |
| PublisherSide.PublisherSession.Cancel | tcp_pubsub/src/publisher_session.cpp:87-90 | Takes the closing step |
| PublisherSide.PublisherSession.SessionClosedHandler | tcp_pubsub/src/publisher_session.cpp:92-111 | Cancels, and calls the handler only the first time |
| PublisherSide.PublisherSession.ReadHeaderLength | tcp_pubsub/src/publisher_session.cpp:121-134 | Starts the first read unless canceled |
| PublisherSide.PublisherSession.OnHeaderLength | tcp_pubsub/src/publisher_session.cpp:135-144 | The completion takes the reader step of the length stage, or the error step |
| PublisherSide.PublisherSession.ReadHeaderContent | tcp_pubsub/src/publisher_session.cpp:147-167 | Closes on a size below the minimum, else waits for the content |
| PublisherSide.PublisherSession.OnHeaderContent | tcp_pubsub/src/publisher_session.cpp:168-191 | The completion takes the reader step of the content stage, or the error step |
| PublisherSide.PublisherSession.DiscardDataBetweenHeaderAndPayload | tcp_pubsub/src/publisher_session.cpp:194-209 | Starts skipping the surplus unless canceled |
| PublisherSide.PublisherSession.OnDiscarded | tcp_pubsub/src/publisher_session.cpp:210-219 | The completion takes the reader step of the discard stage, or the error step |
| PublisherSide.PublisherSession.ReadPayload | tcp_pubsub/src/publisher_session.cpp:222-242 | Closes on an empty payload, else waits for it |
| PublisherSide.PublisherSession.OnPayload | tcp_pubsub/src/publisher_session.cpp:243-268 | Replies to a handshake message, closes on any other |
| PublisherSide.PublisherSession.SendProtocolHandshakeResponse | tcp_pubsub/src/publisher_session.cpp:271-297 | Starts the reply and moves from Handshaking to Running, from no other state |
| PublisherSide.PublisherSession.SendDataBuffer | tcp_pubsub/src/publisher_session.cpp:303-335 | Sends directly when running with the flag cleared, else takes the slot |
| PublisherSide.PublisherSession.SendBufferToClient | tcp_pubsub/src/publisher_session.cpp:337-345 | One more write initiated and in flight unless canceled |
| PublisherSide.PublisherSession.OnWriteComplete | tcp_pubsub/src/publisher_session.cpp:345-391 | Closes on an error, sends the slot if it is taken, else clears the flag |
| Wire.LinkProjects | tcp_pubsub/src/publisher_session.cpp:342-391 | Forgetting the bytes of a link leaves a run of the session, quiet exactly when the link is |
| Wire.AlignedStep | tcp_pubsub/src/publisher_session.cpp:342-344 | With one write at a time, wire plus what is left of it are the frames of the started writes |
| Wire.StreamIsWholeFrames | tcp_pubsub/src/publisher_session.cpp:303-393 | In every run without overlapping offers the stream is a prefix of the frames of the started writes, in `send` order, and all of them when idle |
| Wire.OverlapCanTearFrames | tcp_pubsub/src/publisher_session.cpp:317-324 | From any quiet link, an offer beside a write of which nothing is out yet lets two pieces in the wrong order put a header on the wire that nobody sent |
| TornStreams.TornUnlessQuiet | tcp_pubsub/src/publisher_session.cpp:317-344 | Every session run with an overlapping offer has a link run from the start, up to that offer, whose stream is torn |
| TornStreams.WholeIffQuiet | tcp_pubsub/src/publisher_session.cpp:303-393 | For buffers that open like frames: the stream is whole at every moment and in every order of the pieces if and only if no offer of the run overlaps |
| TornStreams.TornStreamHappens | tcp_pubsub/src/publisher_session.cpp:293-344 | A torn stream is reached from a new session |
| SubscriberTheorems.TokensStep | tcp_pubsub/src/subscriber_session_impl.cpp:81-480 | Every step keeps the places where the session's continuation can be |
| SubscriberTheorems.RetriesStep | tcp_pubsub/src/subscriber_session_impl.cpp:236-280 | Every step keeps the retry accounting |
| SubscriberTheorems.ResolvesStep | tcp_pubsub/src/subscriber_session_impl.cpp:89-136 | Every step keeps the publisher index inside the list and the resolver calls within attempts times list length |
| SubscriberTheorems.CallbacksStep | tcp_pubsub/src/subscriber_session_impl.cpp:488-500 | Every step keeps: each call used the callback installed last ahead of it in the strand |
| SubscriberTheorems.LastInstallStep | tcp_pubsub/src/subscriber_session_impl.cpp:488-500 | The callback posted last changes only by `setSynchronousCallback` |
| SubscriberTheorems.DeliveriesStep | tcp_pubsub/src/subscriber_session_impl.cpp:453-467 | Every step keeps: received = called + skipped + queued, in order |
| SubscriberTheorems.StreamStep | tcp_pubsub/src/subscriber_session_impl.cpp:286-482 | Every step keeps the connection's bytes parsed into exactly the messages handled, with the pending stage where the current frame stands |
| SubscriberTheorems.FrameEnds | tcp_pubsub/src/subscriber_session_impl.cpp:394-480 | Finishing a frame adds exactly that frame to the messages, or nothing if it is empty |
| SubscriberRuns.StepKeepsInv | tcp_pubsub/src/subscriber_session_impl.cpp:81-562 | The whole invariant is kept by every step of a subscriber session |
| SubscriberRuns.ContinuationsAreLinear | tcp_pubsub/src/subscriber_session_impl.cpp:236-480 | One live continuation, two exactly while a callback task is queued; a finished session has closed once or twice |
| SubscriberRuns.ClosedOnceOrTwice | tcp_pubsub/src/subscriber_session_impl.cpp:426-480 | A finished run called the closed handler twice if and only if `cancel` took effect before the callback task of a regular payload ran, whether ahead of that payload's posts or behind them, and once otherwise |
| SubscriberRuns.CancelAheadOfCallback | tcp_pubsub/src/subscriber_session_impl.cpp:426-480 | Canceling while a regular payload is on the strand, as the completion of its read or as its callback task, leads to two calls in every run to the end |
| SubscriberRuns.DoubleCloseHappens | tcp_pubsub/src/subscriber_session_impl.cpp:459-480 | A run from a new session, for any limit, list and payload, that is canceled behind the posts and calls the closed handler twice |
| SubscriberRuns.DoubleCloseAheadOfPosts | tcp_pubsub/src/subscriber_session_impl.cpp:426-480 | And one that is canceled ahead of them, while the completion of the payload read is queued |
| SubscriberRuns.SkippedByLateCancel | tcp_pubsub/src/subscriber_session_impl.cpp:461-465 | A payload is skipped exactly by a callback task that finds the session canceled |
| SubscriberRuns.RetryAccounting | tcp_pubsub/src/subscriber_session_impl.cpp:254-279 | For N >= 0 the counter stays in 0..N and retries + left = N + refills; for N < 0 it never moves and only `cancel` closes |
| SubscriberRuns.RefillPerPayload | tcp_pubsub/src/subscriber_session_impl.cpp:435-436 | A refill is at most N and comes from one completed non-empty payload |
| SubscriberRuns.FruitlessAttempts | tcp_pubsub/src/subscriber_session_impl.cpp:89-280 | Without a completed payload at most N + 1 attempts and (N + 1) L resolver calls |
| SubscriberRuns.StepDescends | tcp_pubsub/src/subscriber_session_impl.cpp:81-480 | Every step of the session itself lowers a potential, except by completing a payload or an empty frame |
| SubscriberRuns.RunsAreBounded | tcp_pubsub/src/subscriber_session_impl.cpp:236-280 | Every run has at most (N + 1)(L + 12) + 1 steps, plus fixed amounts per empty frame, completed payload and outside call |
| SubscriberRuns.NeverStuck | tcp_pubsub/src/subscriber_session_impl.cpp:81-480 | A session with a live continuation can always go on by itself |
| SubscriberRuns.CallbacksInFrameOrder | tcp_pubsub/src/subscriber_session_impl.cpp:453-500 | Callbacks come in frame order, one queued at most, none unset, each the last installed ahead of it; no read is started while one is queued |
| SubscriberOutcomes.PayloadRefills | tcp_pubsub/src/subscriber_session_impl.cpp:435-452 | A completed payload of any type sets the retries to the limit; only an unsupported version, in a session that is not canceled, takes one again |
| SubscriberOutcomes.TaskOutcome | tcp_pubsub/src/subscriber_session_impl.cpp:223-482 | Which tasks of the strand fail, and what a failure and a success come to |
| SubscriberOutcomes.OperationOutcome | tcp_pubsub/src/subscriber_session_impl.cpp:89-274 | The same for the ends of resolver, connect and timer |
| SubscriberOutcomes.StepOutcome | tcp_pubsub/src/subscriber_session_impl.cpp:81-517 | For every step: it fails exactly in the listed cases, and then the publisher is forgotten and a retry taken if the session is not canceled and has one left, else the closed handler called; otherwise retries, calls and the reported publisher stay, but for a successful connect |
| SubscriberOutcomes.LinkedStep | tcp_pubsub/src/subscriber_session_impl.cpp:183-242 | Every step keeps: a publisher is reported exactly while the connection is in use |
| SubscriberOutcomes.ReportedPublisher | tcp_pubsub/src/subscriber_session_impl.cpp:239-242 | In every run none is reported while resolving, connecting, waiting or closed, and one is while the request is sent or the stream read |
| SubscriberOutcomes.RetriesInARow | tcp_pubsub/src/subscriber_session_impl.cpp:254-280 | In every run the retries left are N less those taken since the last completed payload; so a session that nobody cancels closes only after N in a row |
| SubscriberOutcomes.CallbackPostedIff | tcp_pubsub/src/subscriber_session_impl.cpp:488-500 | A new callback goes to the strand if and only if the session is not canceled |
| SubscriberAttempts.AdvancesStep | tcp_pubsub/src/subscriber_session_impl.cpp:89-193 | Where each step inside an attempt leads: the next entry, the connect, the request, or no contact any more |
| SubscriberAttempts.EntryContactedIff | tcp_pubsub/src/subscriber_session_impl.cpp:107-163 | In every attempt of every run an entry is resolved or connected to if and only if resolving failed, uncanceled, at every entry before it |
| SubscriberAttempts.FallsBackIff | tcp_pubsub/src/subscriber_session_impl.cpp:107-163 | In a whole run an entry behind the first is ever contacted if and only if there is one and resolving the first has failed |
| SubscriberAttempts.RefusedEntryIsRetried | tcp_pubsub/src/subscriber_session_impl.cpp:158-163 | The first of two entries resolves and refuses the connection: it is retried, and the second is not contacted |
| SubscriberAttempts.FirstWorkingIsUsedIff | tcp_pubsub/include/tcp_pubsub/subscriber.h:117-121 | A decided attempt uses the first entry that works if and only if none works or the first that resolves also accepts |
| SubscriberSide.SubscriberSession.constructor | tcp_pubsub/src/subscriber_session_impl.cpp:35-58 | The initial state, with the first callback already posted (subscriber_impl.cpp:119-125) |
| SubscriberSide.SubscriberSession.Start | tcp_pubsub/src/subscriber_session_impl.cpp:81-87 | Resolves the first publisher unless canceled |
| SubscriberSide.SubscriberSession.ResolveEndpoint | tcp_pubsub/src/subscriber_session_impl.cpp:89-98 | One resolver call, or the failure handler when canceled |
| SubscriberSide.SubscriberSession.OnResolved | tcp_pubsub/src/subscriber_session_impl.cpp:99-135 | Next publisher, failure at the end of the list, or connect |
| SubscriberSide.SubscriberSession.ConnectToEndpoint | tcp_pubsub/src/subscriber_session_impl.cpp:138-155 | Starts to connect unless canceled |
| SubscriberSide.SubscriberSession.OnConnected | tcp_pubsub/src/subscriber_session_impl.cpp:156-193 | Stores the publisher and sends the request, or fails |
| SubscriberSide.SubscriberSession.SendProtocolHandshakeRequest | tcp_pubsub/src/subscriber_session_impl.cpp:196-222 | Starts to write the request unless canceled |
| SubscriberSide.SubscriberSession.OnRequestSent | tcp_pubsub/src/subscriber_session_impl.cpp:223-232 | Starts to read, or fails |
| SubscriberSide.SubscriberSession.ConnectionFailedHandler | tcp_pubsub/src/subscriber_session_impl.cpp:236-280 | Forgets the publisher; waits for a retry while allowed, else closes |
| SubscriberSide.SubscriberSession.OnRetryTimer | tcp_pubsub/src/subscriber_session_impl.cpp:265-274 | Starts over at the first publisher, or closes on an aborted wait |
| SubscriberSide.SubscriberSession.ReadHeaderLength | tcp_pubsub/src/subscriber_session_impl.cpp:286-303 | Starts the first read unless canceled |
| SubscriberSide.SubscriberSession.OnHeaderLength | tcp_pubsub/src/subscriber_session_impl.cpp:303-312 | Takes the reader step of the length stage |
| SubscriberSide.SubscriberSession.ReadHeaderContent | tcp_pubsub/src/subscriber_session_impl.cpp:315-338 | Fails on a size below the minimum, else waits for the content |
| SubscriberSide.SubscriberSession.OnHeaderContent | tcp_pubsub/src/subscriber_session_impl.cpp:339-361 | Takes the reader step of the content stage |
| SubscriberSide.SubscriberSession.DiscardDataBetweenHeaderAndPayload | tcp_pubsub/src/subscriber_session_impl.cpp:364-381 | Starts skipping the surplus unless canceled |
| SubscriberSide.SubscriberSession.OnDiscarded | tcp_pubsub/src/subscriber_session_impl.cpp:382-391 | Takes the reader step of the discard stage |
| SubscriberSide.SubscriberSession.ReadPayload | tcp_pubsub/src/subscriber_session_impl.cpp:394-425 | Goes on to the next header on an empty frame, else waits for the payload |
| SubscriberSide.SubscriberSession.OnPayload | tcp_pubsub/src/subscriber_session_impl.cpp:426-481 | Refills the retries, fails on an unsupported version, posts callback task and next read |
| SubscriberSide.SubscriberSession.OnReadError | tcp_pubsub/src/subscriber_session_impl.cpp:428-433 | A failed read of any stage ends the connection |
| SubscriberSide.SubscriberSession.OnDeliver | tcp_pubsub/src/subscriber_session_impl.cpp:459-467 | Calls the installed callback, or the failure handler when canceled |
| SubscriberSide.SubscriberSession.OnWriteEnded | tcp_pubsub/src/subscriber_session_impl.cpp:220-223 | The end of the request write takes its step: the completion goes to the strand |
| SubscriberSide.SubscriberSession.OnReadEnded | tcp_pubsub/src/subscriber_session_impl.cpp:297-303 | A read that has all its bytes takes its step, in every stage |
| SubscriberSide.SubscriberSession.OnReadAborted | tcp_pubsub/src/subscriber_session_impl.cpp:303-309 | A failed read takes its step |
| SubscriberSide.SubscriberSession.RunNext | tcp_pubsub/src/subscriber_session_impl.cpp:459-500 | The strand's next task takes the step of its kind |
| SubscriberSide.SubscriberSession.SetSynchronousCallback | tcp_pubsub/src/subscriber_session_impl.cpp:488-500 | Posts the new callback unless canceled |
| SubscriberSide.SubscriberSession.Cancel | tcp_pubsub/src/subscriber_session_impl.cpp:513-517 | Sets the flag and changes nothing else of the session |
| Mailbox.AccountedStep | tcp_pubsub/src/subscriber_impl.cpp:166-254 | Every step keeps every buffer in exactly one place |
| Mailbox.OrderedStep | tcp_pubsub/src/subscriber_impl.cpp:186-206 | Every step keeps processed, held and waiting buffers in arrival order |
| Mailbox.StepKeepsInv | tcp_pubsub/src/subscriber_impl.cpp:136-257 | and a thread exists exactly in asynchronous mode, except while the mode is being set |
| Mailbox.EveryBufferHasOneFate | tcp_pubsub/src/subscriber_impl.cpp:142-257 | In every interleaving each buffer has exactly one fate, and the callback sees buffers in arrival order |
| Mailbox.FateStep | tcp_pubsub/src/subscriber_impl.cpp:225-254 | What one step adds to each fate, by its kind and the mode flag |
| Mailbox.FateIsDecidedByFlag | tcp_pubsub/src/subscriber_impl.cpp:225-254 | In every run the synchronous callback was called with exactly the buffers of the synchronous tasks that found the flag raised, in order; the slot was given exactly those of the storing tasks that found it lowered; the rest was ignored |
| Mailbox.StoppedTakesNothing | tcp_pubsub/src/subscriber_impl.cpp:186-206 | A thread that was told to stop finishes the callback it runs and takes nothing more |
| Mailbox.SlotStaysEmpty | tcp_pubsub/src/subscriber_impl.cpp:166-179 | Once synchronous mode has cleared the slot it stays empty until asynchronous mode is set |
| Mailbox.SetterRunsItsScript | tcp_pubsub/src/subscriber_impl.cpp:136-207 | However session tasks and the thread interleave, `setCallback` and `cancel` take their steps in order (stop, join, flag, then clear or spawn), and when they are done the mode is in force |
| SubscriberMailbox.Subscriber.constructor | tcp_pubsub/src/subscriber_impl.cpp:32-38 | The initial state: synchronous, no thread, no session |
| SubscriberMailbox.Subscriber.StoreData | tcp_pubsub/src/subscriber_impl.cpp:242-254 | Stores in asynchronous mode, over what was there; ignores otherwise |
| SubscriberMailbox.Subscriber.CallSynchronously | tcp_pubsub/src/subscriber_impl.cpp:225-238 | Calls in synchronous mode; ignores otherwise |
| SubscriberMailbox.Subscriber.WakeCallbackThread | tcp_pubsub/src/subscriber_impl.cpp:188-199 | Exits when told to, else takes the slot and leaves it empty |
| SubscriberMailbox.Subscriber.ReturnFromCallback | tcp_pubsub/src/subscriber_impl.cpp:205-206 | The held buffer is processed and the thread waits again |
| SubscriberMailbox.Subscriber.StopCallbackThread | tcp_pubsub/src/subscriber_impl.cpp:142-149 | Raises the stop flag if there is a thread |
| SubscriberMailbox.Subscriber.JoinCallbackThread | tcp_pubsub/src/subscriber_impl.cpp:151-158 | An exited thread is joined and forgotten |
| SubscriberMailbox.Subscriber.SetMode | tcp_pubsub/src/subscriber_impl.cpp:166-179 | Sets the mode flag; `cancel` (297) raises it too |
| SubscriberMailbox.Subscriber.ClearCallbackData | tcp_pubsub/src/subscriber_impl.cpp:172-174 | Empties the slot |
| SubscriberMailbox.Subscriber.SpawnCallbackThread | tcp_pubsub/src/subscriber_impl.cpp:181-207 | Lowers the stop flag and starts a waiting thread |
| SubscriberMailbox.Subscriber.FinishCallbackThread | tcp_pubsub/src/subscriber_impl.cpp:186-206 | A thread told to stop finishes its callback and exits |
| SubscriberMailbox.Subscriber.RetireCallbackThread | tcp_pubsub/src/subscriber_impl.cpp:142-158 | Stops and joins the thread if there is one |
| SubscriberMailbox.Subscriber.EnterMode | tcp_pubsub/src/subscriber_impl.cpp:166-207 | Sets the flag, then clears the slot or starts the new thread |
| SubscriberMailbox.Subscriber.EnterThrough | tcp_pubsub/src/subscriber_impl.cpp:142-207 | The mailbox's part of a call is the run of its script, and the mode is in force behind it |
| SubscriberMailbox.Subscriber.AddSession | tcp_pubsub/src/subscriber_impl.cpp:107-128 | A new session is given the callback of the present mode, listed and started |
| SubscriberMailbox.Subscriber.OnSessionClosed | tcp_pubsub/src/subscriber_impl.cpp:82-105 | Removes the session if it is listed |
| SubscriberMailbox.Subscriber.RenewCallbacks | tcp_pubsub/src/subscriber_impl.cpp:211-257 | Every listed session that is not canceled is posted the callback of the mode |
| SubscriberMailbox.Subscriber.SetCallback | tcp_pubsub/src/subscriber_impl.cpp:136-219 | The mailbox takes its script; sessions are renewed unless both modes are asynchronous; and every live session then has the callback of the mode posted last |
| SubscriberMailbox.Subscriber.CancelSessions | tcp_pubsub/src/subscriber_impl.cpp:265-271 | Every listed session is canceled |
| SubscriberMailbox.Subscriber.Cancel | tcp_pubsub/src/subscriber_impl.cpp:259-298 | Sessions canceled, thread ended, user callback dropped, synchronous mode |
| FanOut.ListedStep | tcp_pubsub/src/publisher_impl.cpp:182-221 | Every step keeps the list free of repeats and equal to the inserted, not removed sessions |
| FanOut.OfferedStep | tcp_pubsub/src/publisher_impl.cpp:310-321 | Every step keeps: a session was offered exactly what was decided during its stay |
| FanOut.SessionsAgreeOnOrder | tcp_pubsub/src/publisher_impl.cpp:182-321 | A session is offered exactly the sends between insertion and removal, in order; any two agree on common ones |
| FanOut.ListInOrder | tcp_pubsub/src/publisher_impl.cpp:219-221 | In every run the sessions are listed in the order of their insertion |
| FanOut.StaleSessions | tcp_pubsub/src/publisher_impl.cpp:182-221 | A closed session is still listed if and only if it closed before its insertion |
| FanOut.EarlyMeansNotListed | tcp_pubsub/src/publisher_impl.cpp:187-198 | Which is exactly a closed handler that did not find the session |
| FanOut.ErasedFromList | tcp_pubsub/src/publisher_impl.cpp:187-190 | Erasing removes exactly the given session from a list without repeats |
| PublisherCore.Publisher.constructor | tcp_pubsub/src/publisher_impl.cpp:38-43 | The empty list |
| PublisherCore.Publisher.AddSession | tcp_pubsub/src/publisher_impl.cpp:216-225 | Appends a started session |
| PublisherCore.Publisher.OnSessionClosed | tcp_pubsub/src/publisher_impl.cpp:183-199 | Removes the session if it is listed |
| PublisherCore.Publisher.OfferEach | tcp_pubsub/src/publisher_impl.cpp:317-320 | Each session of the list takes the offering step with the same buffer |
| PublisherCore.Publisher.OfferToAll | tcp_pubsub/src/publisher_impl.cpp:309-321 | and the buffer is newer than everything any of them has accepted |
| PublisherCore.Publisher.Send | tcp_pubsub/src/publisher_impl.cpp:236-324 | False only when not running; without subscribers nothing; else every session is offered the filled frame |
| FanOut.AllErased | tcp_pubsub/src/publisher_impl.cpp:187-190 | The closed handlers of several sessions remove these and no other |
| PublisherCore.Publisher.CancelSession | tcp_pubsub/src/publisher_session.cpp:87-111 | Cancels a session, which calls the closed handler unless it was canceled before |
| PublisherCore.Publisher.CancelEach | tcp_pubsub/src/publisher_impl.cpp:170-173 | One after the other, for all sessions of the copied list |
| PublisherCore.Publisher.Cancel | tcp_pubsub/src/publisher_impl.cpp:149-174 | Not running, every listed session closed, and the list left with those that were canceled before |
| PublisherRuns.ListStep | tcp_pubsub/src/publisher_impl.cpp:182-321 | Every step of a publisher keeps the list's bookkeeping, and every closed session is canceled |
| PublisherRuns.LinkSend | tcp_pubsub/src/publisher_impl.cpp:310-321 | A fan-out keeps: each session has accepted the sends offered to it, each made by its `send` |
| PublisherRuns.NetStepKeeps | tcp_pubsub/src/publisher_impl.cpp:176-324 | Every step of a publisher keeps that for all its sessions |
| PublisherRuns.ShareStep | tcp_pubsub/src/publisher_impl.cpp:317-320 | A step of the publisher is, for each session, no step or one enabled step of its own |
| PublisherRuns.StaleSessionHappens | tcp_pubsub/src/publisher_impl.cpp:183-221 | A client that is gone before its session is inserted leaves a canceled session in the list |
| PublisherRuns.StaleForGood | tcp_pubsub/src/publisher_impl.cpp:187-198 | and nothing ever removes it |
| PublisherRuns.SessionsAcceptSends | tcp_pubsub/src/publisher_impl.cpp:182-321 | In every run of a publisher each session's part is a run of that session, and what it accepted was made by `send` and is the sends of its stay in the list, up to its cancellation |
| EndToEnd.ContentOfSend | tcp_pubsub/src/publisher_impl.cpp:290-306 | What a frame of `send` carries is as long as announced and opens with the sub-buffers that are not null, and is exactly these if and only if no null pointer has a size |
| EndToEnd.FramesAreSends | tcp_pubsub/src/publisher_impl.cpp:290-321 | The bytes of the started writes are well-formed frames whose regular non-empty contents are those of the data writes |
| EndToEnd.SettledPrefix | tcp_pubsub/src/subscriber_session_impl.cpp:402-481 | Whatever prefix of the frames has been read, its messages are the first ones sent |
| EndToEnd.ReadIsAcceptable | tcp_pubsub/src/subscriber_session_impl.cpp:323-456 | A read of the publisher's frames meets no malformed header and no handshake version but 0 |
| EndToEnd.VersionAcceptedIff | tcp_pubsub/src/subscriber_session_impl.cpp:438-452 | A handshake message leaves the connection in place if and only if it is for version 0 |
| EndToEnd.OnlyFailuresEndConnection | tcp_pubsub/src/subscriber_session_impl.cpp:286-482 | While such frames are read, only a failed operation or `cancel` ends the connection |
| EndToEnd.PayloadsArriveInOrder | tcp_pubsub/src/subscriber_session_impl.cpp:402-481 | In every pair of runs without overlapping offers the payloads received on a connection are a prefix of the non-empty contents of the started data writes, these are in `send` order and carry what the user sent, nothing is missing once all is read, and the stream never ends the connection |
| EndToEnd.RespondsFirstNeverOverlaps | tcp_pubsub/src/publisher_session.cpp:293-388 | A session that is offered nothing before its response is written is never sent a buffer beside another write |
| EndToEnd.SendsArriveInOrder | tcp_pubsub/src/publisher_impl.cpp:236-324 | The same for every session of every run of a whole publisher, with the buffers derived from the `send` calls decided during the session's stay in the list |
| EndToEnd.SendsArriveBehindResponse | tcp_pubsub/src/publisher_impl.cpp:236-324 | In particular for every session that is offered nothing before its response is written |
| EndToEnd.NewestArrives | tcp_pubsub/include/tcp_pubsub/publisher.h:29-38 | Once everything is read and the slot is empty, the last payload received is the newest accepted non-empty buffer, unless an empty one has overwritten it; the newest buffer, if not empty, always arrives |
| EndToEnd.EmptyBufferOverwrites | tcp_pubsub/src/publisher_session.cpp:326-333 | That exception is real |

## Where code and documentation differ

- tcp_pubsub/src/subscriber_impl.cpp:103 says that closing a session that is not in the list can
  never happen. `SubscriberRuns.ClosedOnceOrTwice` gives the exact case in which a session calls its
  closed handler twice, `DoubleCloseHappens` and `DoubleCloseAheadOfPosts` reach it; the second call
  finds nothing to remove.
- tcp_pubsub/include/tcp_pubsub/subscriber.h:117-121 says that the subscriber tries all publishers and
  uses the first that works. The code goes on to the next one only when resolving fails, not when
  connecting fails. `SubscriberAttempts.RefusedEntryIsRetried` gives the failing input, and
  `FirstWorkingIsUsedIff` the exact condition: no entry works, or the first one that resolves does.
- Asio asks that a stream has one composed write at a time. The session can start a data write next to
  the handshake response; and if a buffer was waiting in the slot when the response was written, it can
  go on to start a second data write next to another for as long as it lives
  (`SendOverlaps.OverlapsWithoutEnd`). `SendOverlaps.OneWriteIffNonePremature` says exactly when there
  is one write at a time, and `TornStreams.WholeIffQuiet` what it means for the stream.

## Left out

- Sockets, acceptor, resolver, timers and thread pool: only their outcomes appear, as events.
- The second between two retries: the timer gets its expiry only in the constructor, so the code supports no such claim.
- Instruction-level interleaving inside the atomic steps named above; in particular the exchange and restore of the state behind the handshake response (publisher_session.cpp:294-296) can for a moment overwrite a cancel.
- PublisherCore.Publisher.Send: the two lock sections run without interference in this method; their interleavings are the subject of `FanOut` and `PublisherRuns`.
- PublisherCore.Publisher.Cancel: other threads do not come in between the sessions of the copied list; `PublisherRuns` has the interleavings.
- SubscriberSide.SubscriberSession.Cancel: closing the socket and aborting the timer and the resolver appear as failing operations.
- SubscriberMailbox.Subscriber.SetCallback: no session task comes in between in this method; `Mailbox.SetterRunsItsScript` has the interleavings.
- `clearCallback`, and `setCallback` or `cancel` from inside a callback.
- Buffer capacities, the buffer pool, logging, endpoint strings, the public wrapper classes, samples and build files.
- Big-endian hosts.
