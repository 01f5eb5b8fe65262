# The PC/SC proxy, modelled and proved in Dafny

The program forwards PC/SC smart-card calls. A client library puts each `SCard*` call into a packed
message, sends it over a byte stream, and a server process forked for that connection calls the real
library and sends the same message back, filled in. On Android two threads relay the stream between a
local socket and a Bluetooth socket. Its specification is short: *the same as calling the library
directly*. This project states that for whole runs and proves it, and states exactly where the code
departs from it.

`dafny verify dfyconfig.toml` checks everything.

## How the pieces fit

| file | what it holds |
|---|---|
| `Bytes.dfy`, `Message.dfy` | little-endian 32-bit fields, `memmove`/`strncpy` into a buffer, the packed layouts as offsets in a 66560-byte buffer |
| `Pcsc.dfy` | the calls, their answers, and the real library: any function from a call history to an answer that keeps the length contract `Answers` |
| `Framing.dfy`, `Streams.dfy` | a transport that moves any number of bytes at a time, the receive and send loops over it, what a byte stream says, and many messages over one pipe |
| `Client.dfy`, `Server.dfy` | marshalling and unmarshalling of every call, the handlers that overwrite the request; the buffer-filling code in place on an `array` |
| `RequestDelivery.dfy`, `AnswerDelivery.dfy` | the server reads the call that was made; the client reads the answer that was given |
| `Service.dfy`, `Exchange.dfy` | the server's session loop; one call end to end over the two pipes |
| `Handles.dfy`, `Proxy.dfy`, `Connections.dfy`, `ClientLibrary.dfy` | the handle tables updated in place, the state of a client process, its lasting connections, and its entry points |
| `DirectUse.dfy`, `Refinement.dfy`, `Runs.dfy`, `Ownership.dfy` | the application that uses the library directly, and the refinement theorem over every run |
| `Admission.dfy` | which calls the client refuses by itself, written out independently of the checks it makes |
| `Fidelity.dfy`, `Transparency.dfy`, `Enumerate.dfy` | consequences for an application, and the departures |
| `Interleaving.dfy`, `Undisturbed.dfy` | threads inside the client library; what the steps of one call come to, alone and among others |
| `Relay.dfy`, `ServerThread.dfy` | the Android relay |
| `Dump.dfy` | the hexadecimal dump |

The chain from the wire to the main theorem: `Framing.Recv` and `Framing.Send` move whole frames whatever
the chunking; `RequestDelivered` and `AnswerDelivered` say what a frame means to the other side, for
any content of either buffer; `Session.ExchangeMsg` puts both together over two pipes; `Peers` keeps one
such session per server process for as long as the client runs; `ClientProcess` makes every exchange
through it, adds the tables and equals `Proxy.Invoke`; `Refinement.StepRefines` relates one `Invoke` to one
direct call; `Runs.RunRefines` is the induction over runs, and `ClientLibrary.RunCalls` the run itself,
in place, over connections that last and chunk as they like. `Runs.SomeOrderlyRun` is an instance of the
assumptions, with a successful establish, connect and transmit.

The assumptions on the real library are in `Pcsc.Answers` (kinds of answers, numbers of 32 bits, no buffer
overrun, on success as many bytes written as reported; after a failure any length may be reported, but from
Transmit and the list calls none beyond what one message can carry) and, for the refinement only, `Refinement.NarrowHandles` (context
handles from 0 to 2^31 - 1, card handles of 32 bits with sign). `Fidelity.CardHandleWidth` and
`Fidelity.ContextHandleWidth` give the exact ranges of each path.

## Where the code departs from its purpose

The model follows the code. Each departure has its own statement.

- The range check of the tables lets slot 64 of 64 through (`src/client/client.c:133`, `:259`, `:292`, `:377`):
  `Handles.FindInBounds` says for which single id; `Handles.Table.FindSlot` and `Handles.Table.ReleaseSlot` read and clear the memory behind the array for it. The runs exclude that id.
- A receive interrupted inside the header moves the counter back and is not an error
  (`src/common/nullenc.c:163-181`): where no recv fails and the stream has a whole message, `Framing.Recv`
  receives it exactly if no call was interrupted there, and otherwise counts the bytes lost;
  `Framing.InterruptedHeader` is such a schedule.
- SCardControl copies as many bytes as the library reports (`src/client/client.c:1251-1255`), and SCardGetAttrib
  cuts them to a count it has just overwritten (`src/client/client.c:1431-1440`): the copy stays in the caller's
  buffer exactly if the reported length does, `Fidelity.CopyWithinRoom`. A library that fails and reports the
  size it needs makes it run over: `Fidelity.CopyOverrun`.
- The client takes the end of the stream for an answer (`src/client/client.c:513-519`):
  `Fidelity.UnansweredSucceeds`.
- A release is always reported as success, because its code is stored behind the frame
  (`src/server/server.c:189`): `Fidelity.ReleaseSucceeds`.
- SCardSetTimeout is echoed (`src/server/server.c:717-719`): `Fidelity.TimeoutEchoed`. It is not part of the refined runs.
- SCardCancel takes a card's id and sends this id, not the handle behind it (`src/client/client.c:1175-1186`):
  `Fidelity.CancelSendsItsId`; other ids, a context's included, are refused: `Fidelity.CancelNeedsACard`.
  A run may cancel a card whose library handle happens to equal its id.
- SCardCancelTransaction becomes SCardCancel at the server (`src/server/server.c:296-305`):
  `Fidelity.TransactionCancelled`.
- The code of a failed Status, Transmit or list call is replaced by an internal error when the library also
  reports a length the client does not accept, for instance the size it would need
  (`src/client/client.c:1022-1036`, `:1360-1369`, `:1556-1560`): `Fidelity.CodeSurvives` says exactly when,
  `Fidelity.NeededSizeLost` is such an input.
- A count in a message is used unchecked, and so is a reader name without a NUL in its field; a count that
  leads behind the buffer, or such a name, ends the model of the server loop (`Overrun` in
  `Service.Outcome`). Requests built by this client have none: `RequestDelivery.RequestDelivered`.
- SCardDisconnect never frees a card slot, and a release leaves the cards of its context:
  `Interleaving.ConnectedForever`, `Runs.StaleCardStrays`.
- A failed establish keeps its connection for the next one in that slot
  (`src/client/client.c:553-566`): `spare` in `DirectUse.Direct`.
- Transmit accepts 66523 bytes, of which 66522 pass: `Fidelity.LongestCommand`.
- An answer as long as the whole buffer is refused once its header is read, and the rest stays on the connection
  (`src/common/nullenc.c:185-189`): the next exchange succeeds on bytes of the old answer exactly if the four
  bytes after its sixth announce no more than a message may have, `Exchange.OutOfStep`. Runs exclude it
  (`Orderly`); `Exchange.InStep` says which connections are in step.
- SCardListReaders with a buffer leaves the caller's count as it was (`src/client/client.c:1556-1577`): `Fidelity.CountLeft`.
- SCardGetStatusChange checks the room for one element (`src/client/client.c:1086`), which passes for any number;
  384 fit: `Fidelity.ReaderRoom`. Calls with more are not modelled.
- The relay's server thread waits without looking at its flag again
  (`android/btclient/src/se/m7n/android/pcsc/btclient/PCSCProxyService.java:511-524`): `ServerThread.WaitEnds`,
  `ServerThread.LostSignal`.

## Model

| member | source | states |
|---|---|---|
| Runs.RunRefines | src/client/client.c:525-1675 | for every run of forwarded calls on any number of contexts, each server's library is asked what direct use would ask it, in the same order, and every call gives its caller the same result: the same data on success and, from a status change, after a failure; and where a failed call has output buffers, its code, every length and number it reported and the bytes it wrote, unless the client's own length checks refuse it |
| Admission.CardCalls | src/client/client.c:761-1495 | on an open card every call is performed, by the library of its connection on its handle, but a control or attribute above 4096 bytes, a command outside 4 to 66523 and a buffer to be allocated, each with its code; other ids are refused |
| Admission.ContextCalls | src/client/client.c:572-1675 | on an open context every call is performed but a list whose buffer is to be allocated |
| Admission.Connects | src/client/client.c:691-757 | a connect is performed exactly for a name up to 127 bytes, an open context and a free card id |
| Admission.Establishes | src/client/client.c:525-568 | an establish is performed exactly with a free context id and a connection, left over or made |
| Admission.RunChecks | src/client/client.c:761-1495 | the same over orderly runs: what the proxy's caller is told of a refused card call, and that any other is performed |
| ClientLibrary.RunCalls | src/client/client.c:525-1675 | an orderly run, call by call over the tables in place and over connections that last for the run and chunk as they like: the states and replies are those of the refined run, every call gives the result of the direct call, every library was asked the same, and nothing is left on any connection |
| Connections.Peers.Forward | src/client/client.c:499-519 | an exchange on one connection leaves the others alone and its own idle as long as every answer on it fits |
| Transparency.PlainRuns | src/client/client.c:525-1675 | in a run, a call whose arguments all fit is performed by the library as the application made it, on the handle behind its id |
| Refinement.StepRefines | src/client/client.c:525-1675 | one call keeps the relation between proxy ids and library handles and agrees with the direct call: same library call in the same process, same result, failed calls included |
| Refinement.EstablishRefines | src/client/client.c:525-568 | an establish, on a new connection or on one left over, opens the same context under the lowest free id |
| Refinement.ConnectRefines | src/client/client.c:691-757 | a connect gives the card the lowest free id and ties it to its context's connection |
| Refinement.ContextCallRefines | src/client/client.c:572-650 | a context call, a release included, is the library call on the handle behind the id |
| Refinement.CardCallRefines | src/client/client.c:761-1045 | a card call is the library call on the card's handle, in the process that issued it |
| Exchange.WireReports | src/server/server.c:690-771 | one exchange performs exactly the forwarded call and reports its answer and its code, or fails exactly when the answer fills the buffer |
| Runs.CardCallsRouted | src/client/client.c:346-349 | a card's calls go out on the connection its handle came from exactly while its context is unreleased |
| Runs.StaleCardStrays | src/client/client.c:572-613 | after the release a card's call is never performed by the library that issued the handle, and may be performed by another |
| Ownership.OnlyOwnHandles | src/server/server.c:991-1024 | over every orderly run each server process receives only handles its own library issued before |
| RequestDelivery.RequestDelivered | src/server/server.c:690-766 | whatever the server's buffer held, it reads every client-built request as the call made; the frame ends where the request's struct or its last byte of data ends |
| RequestDelivery.RequestHeader | src/common/message.h:99-119 | every request begins with its type byte and the length of its packed struct and data, given as numbers |
| RequestDelivery.ReadersStored | src/client/client.c:1091-1122 | the marshalling loop over the reader states: each struct reads back, the length grows by 173 each time, the rest is untouched |
| AnswerDelivery.AnswerDelivered | src/client/client.c:507-568 | whatever the buffers held, the client takes the library's answer out of the reply: equal on success, and after a failure its code, every number it reported, a needed length included, and the bytes it wrote, in every case but a release and a length the client refuses |
| AnswerDelivery.UpdatesStored | src/server/server.c:405-440 | the handler's second loop changes each reader's struct by its own update and nothing else |
| Client.BuildRequest | src/client/client.c:525-1675 | filling the message buffer in place gives the specified request, for every call |
| Client.BuildChange | src/client/client.c:1072-1122 | the marshalling loop of SCardGetStatusChange gives the specified request |
| Client.TakeChange | src/client/client.c:1129-1156 | the unmarshalling loop updates the caller's array in place as specified |
| Server.HandleGetStatusChange | src/server/server.c:341-446 | both copy loops around the library call: the library sees the states received, the message holds its updates |
| Server.HandleTransmit | src/server/server.c:480-542 | the library sees the original command although the response overwrites it, and an oversized count is refused |
| Server.HandleList | src/server/server.c:585-633 | size query or fetch, and the frame length that follows the data |
| Server.HandleStatus | src/server/server.c:307-339 | name and ATR are written into the message with their lengths |
| Server.AnswerLength | src/server/server.c:690-771 | every answer has a length the sender can send |
| Framing.Recv | src/common/nullenc.c:149-215 | over any chunking the next frame of the stream is received, or end of stream, or an error, as the bytes dictate; a whole message is received as such exactly if no call was interrupted inside its header, otherwise the bytes lost are counted |
| Framing.RecvPayload | src/common/nullenc.c:185-214 | whatever header is in the buffer, as much as it announces is received over it, or the failure it announces |
| Framing.InterruptedHeader | src/common/nullenc.c:159-181 | for every frame, an interruption after one byte of the header makes the receiver return something else, without a transport failure |
| Framing.Send | src/common/nullenc.c:219-252 | over any chunking, with any finite number of stalls, the frame is appended to the stream; a failure leaves a proper beginning |
| Framing.FramesRoundTrip | src/common/nullenc.c:149-252 | any sequence of frames sent is received as exactly that sequence and then end of stream |
| Framing.CutStream | src/common/nullenc.c:149-252 | a stream cut inside a frame gives the whole frames before it and then a failure |
| Streams.SendAll | src/common/nullenc.c:219-252 | sends in a row put the frames end to end on the stream, over any chunking; a failing one leaves the frames before it and a beginning of its own |
| Streams.RecvAll | src/common/nullenc.c:149-215 | receives in a row, over any chunking, give all messages of the stream, then 0 at its end and -1 inside a frame |
| Streams.SendThenReceive | src/common/nullenc.c:149-252 | any frames sent and received, with independent chunking on either side, are received as sent and then 0; after a failed send, the frames sent in full, and -1 exactly if a beginning of the next went out |
| Framing.ParsedIsPrefix | src/common/nullenc.c:149-212 | no message is invented: those received, end to end, begin the stream |
| Framing.PrefixParses | src/common/nullenc.c:149-212 | cutting a stream short only drops messages from its end |
| Service.NextMsg | src/server/server.c:690-771 | whatever arrives, interrupted or not: one message is received, dispatched and answered, and each way the step can end; uninterrupted it is the next frame of the stream; a count or a name that leads out of its field is the outcome `Overrun` |
| Service.HandleConnection | src/server/server.c:782-793 | each message received is answered by one reply before the next; the loop ends only between frames, on a failure, at an unknown type or at a count or a name that leads out of its field; uninterrupted, the messages are the requests of the stream in order |
| Service.RepliesInStep | src/server/server.c:690-771 | reply k is framed and has the type of message k |
| Exchange.Session.ExchangeMsg | src/client/client.c:507-519 | request out, then the next frame of what earlier answers left and of the new answer in over it; a request that cannot be sent ends the exchange with nobody asked; without a server the end of the stream leaves the request in the buffer and reports success |
| Exchange.OutOfStep | src/common/nullenc.c:185-189 | after an answer that took up the whole buffer, the next exchange succeeds, on the old answer's bytes, exactly if the length field found there is within the limit |
| Exchange.Session.CallLibrary | src/client/client.c:507-568 | one call over arbitrary chunking: the library performs the forwarded call, the caller gets its answer, and the connection is idle again unless that filled the buffer |
| Handles.FindExact | src/client/client.c:114-146 | a lookup finds the slot that holds the id and nothing otherwise |
| Handles.FindInBounds | src/client/client.c:132-144 | the lookup stays inside the array exactly for ids other than MAGIC + 64 |
| Handles.TablesNeverMeet | src/client/client.c:97-101 | no id is valid as a context and as a card |
| Handles.Table.FindSlot | src/client/client.c:273-306 | the lookup under the mutex, for every id: its slot, nothing, or for MAGIC + 64 what lies behind the array |
| Handles.Table.Create | src/client/client.c:310-354 | the lowest free slot is taken; it fails exactly without lock, without memory, or when all 64 are in use |
| Handles.Table.ReleaseSlot | src/client/client.c:358-386 | only the slot the id leads to is freed; MAGIC + 64 clears the memory behind the array |
| ClientLibrary.ClientProcess.EstablishContext | src/client/client.c:525-568 | the entry point over the tables in place equals the step that is refined |
| ClientLibrary.ClientProcess.CallContext | src/client/client.c:572-757 | likewise for the context calls and SCardConnect |
| ClientLibrary.ClientProcess.CallCard | src/client/client.c:761-1495 | likewise for the card calls |
| ClientLibrary.ClientProcess.ConnectOn | src/client/client.c:720-756 | a card slot is taken before the exchange and given back unless the connect succeeds |
| Fidelity.NoStaleBytes | src/client/client.c:507-513 | two contents of the server's buffer and two of the client's give equal results on success, and always for calls without output buffers, for every message type |
| Fidelity.CodeSurvives | src/client/client.c:1360-1369 | the library's code reaches the caller exactly when the client accepts the reported lengths, or would report the same code |
| Fidelity.NeededSizeLost | src/client/client.c:1366-1369 | a transmit whose library asks for a larger buffer ends in an internal error |
| Fidelity.ReaderRoom | src/client/client.c:1086-1089 | the room check passes for any number of readers; they fit exactly up to 384 |
| Fidelity.RequestAccepted | src/common/nullenc.c:185-189 | a request is received exactly when it ends below 66560 |
| Fidelity.AnswerAccepted | src/common/nullenc.c:185-189 | an answer is received exactly when it ends below 66560 |
| Fidelity.LongestCommand | src/client/client.c:1281-1333 | 66522 bytes is the longest command that passes although the guard admits 66523 |
| Fidelity.CardHandleWidth | src/client/client.c:748-788 | after a connect, the library's card handle reaches it again in a card call exactly if it is a signed 32-bit number, as it always is with a 32-bit LONG |
| Fidelity.ContextHandleWidth | src/client/client.c:559-596 | after an establish, the context handle reaches the library again exactly if it fits 32 bits without sign, with sign in the list calls; with a 32-bit LONG always |
| Fidelity.CopyWithinRoom | src/client/client.c:1251-1440 | Control and GetAttrib store as many bytes as the library reports, hence inside the caller's buffer exactly if the report is |
| Fidelity.CopyOverrun | src/client/client.c:1431-1440 | a failing library that reports one byte more than the room makes the client store it |
| Fidelity.CancelNeedsACard | src/client/client.c:1175-1179 | an id that is no card's, every context's included, is refused and no library is asked |
| Fidelity.CancelSendsItsId | src/client/client.c:1182-1195 | the library of the card's context is asked to cancel the id itself, which is the handle behind it exactly when the numbers are equal |
| Fidelity.TransactionCancelled | src/server/server.c:296-305 | a cancelled transaction is carried out as SCardCancel on the card's handle |
| Fidelity.CountLeft | src/client/client.c:1556-1582 | a filled list keeps the caller's count, which is the library's exactly when the list fills the buffer |
| Fidelity.UnansweredSucceeds | src/client/client.c:513-519 | without an answer every call reports success but a transmit with less room than command |
| Fidelity.TimeoutEchoed | src/server/server.c:717-719 | a timeout reports success and no library is asked |
| Fidelity.ReleaseSucceeds | src/server/server.c:184-193 | a release reports success always, hence the library's code exactly when that is success |
| Transparency.PlainCalls | src/common/message.h:94-407 | the library sees the call exactly as made if and only if every argument fits its field |
| Transparency.StatusChangeTransparent | src/client/client.c:1048-1156 | for any number of readers up to 384: what the library is shown of each and what the caller finds afterwards |
| Transparency.TransmitInPlace | src/server/server.c:480-542 | the whole command reaches the library and exactly the response reaches the caller |
| Enumerate.VisitedEncoded | src/client/pcsctest.c:110-115 | a walk over an encoded list meets exactly its names, in order |
| Enumerate.Walk | src/client/pcsctest.c:110-115 | the pointer walk prints these names and never reads behind the buffer |
| Enumerate.QueryReports | src/client/client.c:1556-1579 | a size query reports the size of the whole list |
| Enumerate.FetchBringsAll | src/client/client.c:1498-1582 | the fetch brings the whole list if and only if its encoding has at most 66538 bytes |
| Enumerate.PrintReaders | src/client/pcsctest.c:96-116 | query, allocate, fetch and walk over a connection print all names |
| Interleaving.EveryRunKeeps | src/client/client.c:114-386 | in every interleaving of any number of threads the tables stay proper and every connect under way holds its slot alone |
| Interleaving.ConnectedForever | src/client/client.c:720-756 | a connected card keeps id, library handle and context for the rest of the run |
| Interleaving.ConnectedCards | src/client/client.c:273-306 | at most 64 cards are connected and a lookup of each finds its own slot |
| Interleaving.CallsRouted | src/client/client.c:762-800 | in every interleaving each call on a connected card carried its own handle, and went out on the connection that handle came from exactly if that was still open |
| Interleaving.ContextCallsRouted | src/client/client.c:572-740 | each context call, release and connect carried a handle issued over the connection its slot's handle came from, and went out on that connection exactly if it was still open, with handle and session read at two moments |
| Undisturbed.EstablishAlone | src/client/client.c:525-568 | the steps of an establish by one thread alone leave the table of the sequential model, on a new connection or one left over |
| Undisturbed.ConnectAlone | src/client/client.c:691-757 | likewise for a connect: the card's slot, its record as connected, and the call that went out |
| Undisturbed.CallAlone | src/client/client.c:616-650 | a context call sends its handle on its connection and changes nothing else |
| Undisturbed.CardCallAlone | src/client/client.c:761-800 | a card call sends its handle on its context's connection and changes nothing else |
| Undisturbed.ReleaseAlone | src/client/client.c:572-613 | a release sends its handle, closes the connection and frees the context's id |
| Undisturbed.OnlyReleasesClose | src/client/client.c:572-613 | in every interleaving a connection is closed only by a thread that looked the context up to release it, and an id is taken away only by such a thread or a failed establish in its slot |
| Undisturbed.ReleaseEnds | src/client/client.c:599-607 | among any other threads a release ends with its connection closed and no id in the slot |
| Undisturbed.ConnectJoins | src/client/client.c:740-752 | among any other threads a connect answered with a handle ends with the card connected, with that handle, over that connection |
| Interleaving.CardCallsOnTheirConnection | src/client/client.c:740-796 | in every state of every interleaving a card's session is the one it was connected over exactly while that is not closed |
| Relay.ReadWriteThread.Run | android/btclient/src/se/m7n/android/pcsc/btclient/PCSCProxyService.java:174-206 | what is written begins what was read; all of it at the end of the input, which is reached unless a turn exits, fails or is interrupted; otherwise at most the last 1024 bytes are missing; each way out has its cause in a turn |
| Relay.ReadWriteThread.OneTurn | android/btclient/src/se/m7n/android/pcsc/btclient/PCSCProxyService.java:179-192 | one turn of the copy loop: what was read is written and the loop goes on, or it ends in the way the turn gives |
| Relay.RelayedFrames | android/btclient/src/se/m7n/android/pcsc/btclient/PCSCProxyService.java:174-206 | relayed frames are first frames of those sent, unchanged, and all of them exactly when all bytes were relayed |
| Relay.RelayFrames | android/btclient/src/se/m7n/android/pcsc/btclient/PCSCProxyService.java:174-206 | the copy loop over whole frames: first frames come out, unchanged, and all of them and the end of the stream when it ran to the end of its input |
| ServerThread.OneConnection | android/btclient/src/se/m7n/android/pcsc/btclient/PCSCProxyService.java:475-546 | in every interleaving at most one ConnectionThread is started, the signal comes only after mStopping, every socket is handed over or closed |
| ServerThread.OnlyPermittedPeers | android/btclient/src/se/m7n/android/pcsc/btclient/PCSCProxyService.java:484-506 | in every interleaving only sockets of permitted peers are handed over, and with no socket in hand all of them are, those refused are closed, and any other closed socket came with the stop |
| ServerThread.VerdictCarriedOut | android/btclient/src/se/m7n/android/pcsc/btclient/PCSCProxyService.java:495-505 | a socket taken while mStopping is clear is handed over or closed as its peer is permitted or not, whatever stops are asked for meanwhile |
| ServerThread.StopEnds | android/btclient/src/se/m7n/android/pcsc/btclient/PCSCProxyService.java:481-509 | with mStopping set run() ends within three steps unless it is on its way into the wait |
| ServerThread.CancelAlone | android/btclient/src/se/m7n/android/pcsc/btclient/PCSCProxyService.java:445-471 | one cancelAndJoin sets mStopping, wakes a waiting run() and ends with the thread counted as gone |
| ServerThread.StoppingForGood | android/btclient/src/se/m7n/android/pcsc/btclient/PCSCProxyService.java:440-472 | mStopping never clears |
| ServerThread.WaitEnds | android/btclient/src/se/m7n/android/pcsc/btclient/PCSCProxyService.java:511-530 | the wait can end if and only if a signal is still due or may still be requested |
| ServerThread.LostSignal | android/btclient/src/se/m7n/android/pcsc/btclient/PCSCProxyService.java:484-524 | an interleaving in which the stop signal is lost |
| Dump.ColumnsReadBack | src/common/message.c:80-87 | the columns of a line, padded, read back as its bytes |
| Dump.DumpString | src/common/message.c:64-100 | the lines read back as the whole string, sixteen bytes to a line, padding included; the text column shows a byte itself exactly from 32 to 127 |

## Left out

- Sockets, Bluetooth, Unix-domain and TLS set-up, SDP records, utmp lookup, environment and options: connecting gives a session or fails.
- The TLS receive and send loops repeat the framing loops over a foreign library; framing is proved once over an abstract transport. The loops of `src/common/network.c` are those of `src/common/nullenc.c`.
- `pp_createContext` failures other than a full table or missing memory (no TLS library, no user or password, the return that keeps the mutex locked).
- The real PC/SC library: any function of its call history that keeps `Pcsc.Answers`.
- Output buffers that are NULL for Status and GetAttrib, and NULL out-pointers generally.
- Signals, fork, pid files and the select loop: each connection has its own server process.
- The ConnectionThread that owns the two copy threads, and the liveness of the Java threads, beyond when the server thread's wait can end.
- Service.NextMsg: what the handlers do with a count or a name that leads out of its place in the message is not modelled beyond the outcome `Overrun`, because C does not define it.
- Service.HandleConnection: ends there for the same reason.
- ClientLibrary.ClientProcess.EstablishContext: stated while every connection is in step; what an exchange receives afterwards is `Exchange.OutOfStep`.
- ClientLibrary.ClientProcess.ConnectOn: likewise.
- ClientLibrary.ClientProcess.CallContext: likewise, and not stated for the id CONTEXT_MAGIC + 64, because the source then works on whatever lies behind its array.
- ClientLibrary.ClientProcess.CallCard: likewise, and not for CARD_MAGIC + 64.
- ClientLibrary.RunCalls: stated for the runs of `Runs.RunRefines`.
- Fidelity.CancelNeedsACard: not stated for CARD_MAGIC + 64, for the same reason.
- Fidelity.CopyWithinRoom: for reported lengths up to the end of the message; for longer ones the client reads behind its message buffer.
- AnswerDelivery.AnswerDelivered: out-parameters that a Status call has stored before it refuses a length (state, protocol, name) are not part of its result, which is the code alone.
- Transparency.PlainCalls: the `mszGroups` argument of SCardListReaders is not part of the calls; the source never sends it (`src/client/client.c:1498-1545`) and the server passes NULL.
- Interleaving.EveryRunKeeps: an exchange is one step, because calls of two threads on one session at a time would mix their frames; the ids MAGIC + 64 count as not found, where the source looks behind its array.
- Dump.DumpString: not for lengths above 2^32 - 16, where the position of the source wraps and its loop never ends.
- Runs.RunRefines: not stated for calls on cards of a released context, for answers that fill the message buffer, for ids MAGIC + 64, for SCardSetTimeout, and for SCardCancel on a card whose handle is not its id, because the code then departs as listed above.
- `SCardFreeMemory`, `pcsc_stringify_error`, `pp_getMsgTypeText`, the debugging output, preference screens and activities: lookup tables and user interface.
