# wlclip: model and proofs

wlclip is a command-line clipboard for Wayland and X11. This project models the parts of it that carry the clipboard
data and proves what holds for every run of them.

**The hand-rolled Wayland client.** `Wire` is the message format: writer, reader, framing. `Connections` is the buffered
socket with descriptors sent out of band. `Dispatching` and `Clients` are the object table and `dispatch_until`.
`Phases` treats a client program as a list of phases (queue requests, then dispatch until a goal holds), `Handcrafted`
gives the dispatchers and phases of copy and paste as functions, and `Backend` is the same code in place, on a mutable
`Client`, proved to compute those functions. What the kernel does (how many bytes a send takes, what a receive brings)
is a script of answers, so every theorem about all scripts is a theorem about all partial sends and all chunkings.

**What is proved about it.** `Transport`: chunking is invisible; each message is dispatched whole, in order, with its own
descriptor. `Completion`: a run that gets the whole stream ends exactly as the messages and the kernel's answers to its
flushes say. `Dispatching`: every blocking wait is safe. `Compositor`, `Conformance` and `ConformantRuns`: an independent
compositor decodes every request by its interface's signature and judges it by the protocol's rules for requests (dense
ids, known objects and interfaces, globals that are still there, offers before the one selection, announced types); when
a run is first to break one of them is stated exactly. `BlamedCopy` and `WithdrawnGlobal` show runs that do. `Superseding`
and `NeglectedOffer`: the rule on events that the client does not keep, the destruction of superseded offers.
`SyncBarrier`, `CopyRuns` and `PasteRuns`: what the two sync round trips guarantee, when a copy stops and what it returns,
and that a paste is a fold over the event trace. `KeptWriteEnd`: a paste that can never end. `DataControl`: when the second
implementation, over libwayland, picks the same offer and types. `Relay` and `RelayedRun`: copy and paste compose, through
a compositor that works on the bytes of both clients. `Greetings` holds the streams the concrete runs share.

**Transfers and descriptors.** `Transfer` interleaves `serve_send` and `drain_fd` over a bounded pipe. `Descriptors` keeps
a ledger of every descriptor through wrappers, queues, flushes and the final close. `Mime` is the choice of the type to ask for.

**The X11 selection protocol.** `X11Server` is the atom table and GetProperty, `X11Owner` the advertised targets, `X11Serve`
the owner's event loop, `X11Acquire` becoming the owner, `X11Paste` the requestor, and `X11Identity` the composition of
both sides, between other clients and with the selection liable to be lost at any moment.

A method that follows the source step by step is proved against a function (`Flush` against `FlushRun`, `DispatchUntil`
against `Run`, `Copy` against `RunPhases`, `ServeSelection` against `ServeRun`, `Paste` against `PasteRun`). The main results are lemmas
about these functions and hold of the methods through their postconditions.

Facts the proofs bring out, each with its exact condition:

- The client never destroys an offer, though wlr-data-control-unstable-v1 obliges it to destroy the previous selection's
  offer at every new selection event. In runs in which nobody breaks a judged rule, the offers it owes are exactly those
  named by the earlier of two selection events of one kind (`Superseding.CopyOwesOffers`, `Superseding.PasteOwesOffers`); such runs
  exist (`NeglectedOffer.NeglectingRunExists`).
- It ignores `global_remove`, and is first to break a judged rule if it binds a global that was withdrawn before the first
  sync came back. For a paste this is the only way (`ConformantRuns.PasteConformsIff`, `WithdrawnGlobal.WithdrawingRunExists`).
- A type named by more than 65519 bytes does not fit its `offer` request: the 16-bit length wraps and the stream loses
  its framing. For a copy this is the only other way (`ConformantRuns.CopyConformsIff`, `BlamedCopy.BlamedRunExists`).
- `paste` ignores the result of the flush that should ship its pipe's write end. If the kernel's next answer to a send,
  interruptions apart, is a failure, the process keeps that end open, and exactly then its read end can never report the
  end of the file (`PasteRuns.WriteEndKeptIff`, `PasteRuns.PasteEndsIffShipped`); such runs exist (`KeptWriteEnd.KeepingRunExists`).
- The two Wayland pastes agree however events are batched exactly if no type of the selected offer is announced after its
  selection (`DataControl.AgreeIffNothingLate`).
- `read_property` trusts the 32-bit count of bytes left: of a property that is a multiple of 4 MiB beyond 4 GiB it
  returns a proper prefix only (`X11Server.ReadTerminates`, `X11Server.ReadStopsShort`).
- An X11 paste reads the atoms STRING and `text/plain` both as the type text/plain but always asks for STRING, and likewise
  for UTF8_STRING; so it asks for a target that is not listed exactly when such a type was listed only by the atom spelled
  like it (`X11Paste.TargetIsListedIff`, `X11Paste.SpelledPlainIsAskedForString`).
- An X11 paste of a type named `INCR` yields no bytes, since the requestor takes the property's type for the
  announcement of an incremental transfer (`X11Identity.CopyThenPaste`).

## Model

| member | source | states |
|---|---|---|
| Mime.FirstWhere | src/core/mime.cpp:41-48 | A scan returns the first element that satisfies its test, and nothing exactly when none does. |
| Mime.ScansTest | src/core/mime.cpp:8-58 | The scans' tests and the test for text, against the literal names. |
| Mime.ChooseMimeIsStableArgMin | src/core/mime.cpp:37-50 | On every nonempty list, the successive scans return m exactly when m is the first element of least rank on one scale (exact, prefix either way, the UTF-8 text type, `UTF8_STRING`, `text/`, rest); the result is a member, and an exact preference wins. |
| Wire.EncodedArgsAreAligned | src/wire/wire.h:11-18 | Every argument list encodes to whole words, so a message's length is a multiple of 4. |
| Wire.AlignedPadding | src/wire/wire.cpp:21-224 | The writer pads by the alignment of its whole buffer, the reader by `pad4` of the string's length; the two agree. |
| Wire.PatchedLength | src/wire/wire.cpp:227-235 | Shifting the 32-bit total leaves its low 16 bits above the opcode, whatever the total. |
| Wire.PeekOfHeader | src/wire/wire.cpp:271-279 | What framing reads of any encoded message, too long ones included: the total modulo 65536, or 0 if that is below 8 or not yet there. |
| Wire.FramesIffFits | src/wire/wire.cpp:227-279 | A message is found whole at the front of a stream exactly when it has fewer than 65536 bytes. |
| Wire.MessageLayout | src/wire/wire.cpp:201-235 | What is at which byte of a message: id, opcode, total modulo 65536, each with its low byte first, and the payload. |
| Wire.StringLayout | src/wire/wire.cpp:219-225 | A string on the wire: its length with the terminator, the text, then zero bytes, at least one, to a multiple of four. |
| Wire.StringRequestFrames | src/wire/wire.cpp:219-279 | A request with one string frames correctly exactly when the string has at most 65519 bytes. |
| Wire.DecodeOfEncoding | src/clipboard/handcrafted.cpp:139-145 | Splitting the two header words of any finished message gives back object, opcode and payload. |
| Wire.FrontMessage | src/clipboard/handcrafted.cpp:135-147 | The front of a stream that starts with an encoded message is that message, and consuming it leaves the rest. |
| Wire.ArgsRoundTrip | src/wire/wire.cpp:201-269 | For every list of u32, i32 and string arguments, NUL bytes included, the reader returns the same arguments and stops at the end of the payload. |
| Wire.CursorStaysInPayload | src/wire/wire.cpp:239-269 | On every payload whatever and every sequence of reads, the cursor only advances and never leaves the payload. |
| Wire.ParseAllOfEncodeAll | src/wire/wire.cpp:201-279 | Parsing a stream of messages followed by an incomplete one returns exactly the messages and that tail. |
| Wire.Writer.U32 | src/wire/wire.cpp:209-213 | Appends one unsigned argument; the unfinished message stays well formed. |
| Wire.Writer.I32 | src/wire/wire.cpp:215-217 | Appends one signed argument. |
| Wire.Writer.Str | src/wire/wire.cpp:219-225 | Appends one string argument, with NUL and the padding loop. |
| Wire.Writer.Align | src/wire/wire.cpp:224 | The loop pads with zero bytes to exactly the next multiple of four. |
| Wire.Writer.Finalize | src/wire/wire.cpp:227-235 | The finished bytes are the wire form of the request that was assembled, and the writer is empty. |
| Wire.Reader.U32 | src/wire/wire.cpp:244-253 | Reads a word and advances, or reports 0 on underrun and stays. |
| Wire.Reader.I32 | src/wire/wire.cpp:255-257 | Reads a word as a signed number. |
| Wire.Reader.Str | src/wire/wire.cpp:259-269 | Reads a string without its NUL and skips the padding; on a bad length it returns the empty string and has consumed the length only. |
| Wire.ReadBack | src/wire/wire.cpp:201-269 | A reader object run over a writer object's payload returns the written arguments and is then at eof. |
| Connections.FlushConserves | src/wire/wire.cpp:94-137 | For every sequence of send results, what was sent followed by what is queued is what was queued before, in bytes and in descriptors; success is exactly both queues being empty. |
| Connections.FlushFdBound | src/wire/wire.cpp:94-137 | k successful sends carry min(28k, all) descriptors; the "fds without payload" exit is taken exactly when the descriptors outlast the bytes. |
| Connections.FdsRideOnFirstSend | src/wire/wire.cpp:109-134 | At most 28 queued descriptors all ride on the first successful send and on no later one. |
| Connections.NothingSentIff | src/wire/wire.cpp:123-128 | A flush with something to send sends nothing exactly when the first answer that is not an interruption is a failure, or there is none. |
| Connections.Connection.Flush | src/wire/wire.cpp:94-137 | The loop in place: queues, sends and locally closed descriptors are as the flush function says. |
| Connections.Connection.WaitReadable | src/wire/wire.cpp:139-148 | True exactly when poll reports input. |
| Connections.Connection.Pump | src/wire/wire.cpp:150-185 | Appends one chunk's bytes and descriptors to the input queues, or changes nothing and reports 0 or -1. |
| Connections.Connection.InConsume | src/wire/wire.cpp:187-190 | Drops at most what is there from the front. |
| Connections.Connection.PopFd | src/wire/wire.cpp:192-197 | Takes the oldest delivered descriptor, or reports -1. |
| Connections.Connection.Close | src/wire/wire.cpp:31-42 | Closes each queued descriptor of both directions once and empties the queues. |
| Dispatching.RunWaitsSafely | src/clipboard/handcrafted.cpp:129-163 | For any dispatcher, even one that queues replies, whenever a run blocks its goal is open, both output queues are empty and no complete message is buffered; it returns true exactly when it stopped at the goal. |
| Dispatching.RunPreserves | src/clipboard/handcrafted.cpp:129-163 | Whatever every well-framed message preserves holds after every run, whatever kernel and peer do. |
| Dispatching.RunAccounts | src/clipboard/handcrafted.cpp:129-163 | Through every run, the bytes sent and queued are together the encoding of exactly the requests made, in order. |
| Clients.Client.AllocId | src/clipboard/handcrafted.cpp:99-102 | Hands out the next id and advances the 32-bit counter. |
| Clients.Client.RegisterObject | src/clipboard/handcrafted.cpp:104-106 | Enters one object into the table. |
| Clients.Client.DispatchUntil | src/clipboard/handcrafted.cpp:129-163 | The loop in place computes the run function: same result, same object table, state, queues and history. |
| Clients.Client.DispatchBuffered | src/clipboard/handcrafted.cpp:133-151 | The inner loop dispatches complete messages until the goal holds or none is left, and says whether there was one. |
| Clients.Client.AwaitInput | src/clipboard/handcrafted.cpp:153-160 | One wait and one pump; false on a negative poll, an error or an end of the stream. |
| Clients.Client.Dispatch | src/clipboard/handcrafted.cpp:139-147 | One message goes to the dispatcher, which takes a descriptor from the queue exactly when it asks for one. |
| Transport.FrontPacket | src/wire/wire.cpp:170-197 | If the input shows a complete message, it is the peer's next one, and if that carries a descriptor, it is the next in the queue, never -1. |
| Transport.RunTransports | src/clipboard/handcrafted.cpp:129-163 | Safety, for every run, cut off or not: however the stream is chunked, it dispatches a prefix of the peer's messages in order, each whole and with its own descriptor; at its goal it stands where a one-shot reading stands, with a faithful remainder. |
| Transport.RunsAgree | src/clipboard/handcrafted.cpp:129-163 | Two runs over the same messages, chunked and sent differently, end with the same table, state and history. |
| Completion.RunCompletes | src/clipboard/handcrafted.cpp:129-163 | Completeness, exactly: a run that gets the whole stream and whose flushes succeed ends as the one-shot reading ends, with the same state and log, and if it misses its goal it has dispatched every message; with a failing flush it fails. |
| Completion.PhasesComplete | src/clipboard/handcrafted.cpp:312-596 | The same for whole programs: status, table, state and log are those of the one-shot story, or some flush of a wait failed and the run is cut off. |
| Completion.SilentRun | src/clipboard/handcrafted.cpp:129-163 | A wait whose dispatcher queues nothing, as all here, flows exactly if its goal is met already or its first flush succeeds, and sends nothing more after it. |
| Completion.WillingFlows | src/wire/wire.cpp:94-137 | As many successful sends, before the first failure, as bytes to send are enough for every flush of such a program. |
| Transport.SentStreamIsFaithful | src/wire/wire.cpp:94-185 | Packets with at most 28 descriptors, flushed by one side through any partial sends and received by the other in any chunks, the descriptors with the first of them as the kernel delivers one send's, form a faithful stream: the two halves of `Connection` compose. |
| Phases.PhasesTransport | src/clipboard/handcrafted.cpp:312-596 | Safety of whole programs of several `dispatch_until` calls, which stop early and leave input behind: a run tells the story the messages alone determine, and one that is cut off tells a beginning of it. |
| Phases.PhasesAccount | src/clipboard/handcrafted.cpp:312-596 | Through a whole program, what was sent and is queued encodes the requests made. |
| Handcrafted.PickSeat | src/clipboard/handcrafted.cpp:328-342 | A numeric selector picks the seat of that index, an empty or named one the first; none is picked exactly when that index is beyond the seats. |
| Handcrafted.NumberPicksSeat | src/clipboard/handcrafted.cpp:328-342 | The selector that writes n in decimal, leading zeros or not, picks seat n if there is one and none otherwise. |
| Handcrafted.NumericIsNumber | src/clipboard/handcrafted.cpp:328-332 | Every selector made of digits is some number written that way. |
| Handcrafted.NamePicksFirst | src/clipboard/handcrafted.cpp:328-376 | A selector with anything but digits in it picks the first seat and insists on its name; an empty or numeric one takes any name. |
| Handcrafted.DeletedIsIgnored | src/clipboard/handcrafted.cpp:261-308 | After `delete_id`, whatever arrives for that id changes nothing, in a copy and in a paste. |
| Backend.SendGetRegistry | src/clipboard/handcrafted.cpp:184-191 | Allocates and registers the registry and queues `get_registry` for it. |
| Backend.SendSync | src/clipboard/handcrafted.cpp:193-201 | Allocates and registers a callback and queues `sync` for it. |
| Backend.SendBind | src/clipboard/handcrafted.cpp:206-218 | Queues `bind` with its polymorphic new id. |
| Backend.RunBootstrap | src/clipboard/handcrafted.cpp:312-376 | bootstrap in place is the run of its two phases and the test of the seat's name; which seat that binds, `BootstrapStory` and `NumberPicksSeat` say. |
| Backend.OfferSelection | src/clipboard/handcrafted.cpp:446-481 | Source, device, one offer per type and the selection are queued in this order and flushed; `CopyEntryJudged` says what they mean to a compositor. |
| Backend.AskForData | src/clipboard/handcrafted.cpp:556-589 | From the lookup of the offer to the flushed `receive`, every early exit included. |
| Backend.HandcraftedBackend.Copy | src/clipboard/handcrafted.cpp:382-487 | copy in place returns the verdict on the run of the copy program. |
| Backend.HandcraftedBackend.Paste | src/clipboard/handcrafted.cpp:491-596 | paste in place fills the result with the list and type its run found, and with the bytes drained from its pipe if it asked for them. |
| Compositor.JudgeEncoded | src/wire/wire.cpp:201-269 | A compositor that decodes a request by the interface's signature judges exactly the arguments the client wrote. |
| Compositor.OfferJudged | src/clipboard/handcrafted.cpp:466-471 | An offer on an unused source is in order exactly when its text has at most 65519 bytes. |
| Conformance.CopyKeepsAgree | src/clipboard/handcrafted.cpp:390-432 | Whatever a rule-abiding compositor sends, handling it keeps client and compositor agreed on the objects (copy). |
| Conformance.PasteKeepsAgree | src/clipboard/handcrafted.cpp:498-528 | The same for paste; each recorded offer and type is one the compositor announced. |
| Conformance.SourceOffersJudged | src/clipboard/handcrafted.cpp:466-471 | The whole list of offers is in order exactly when each type fits its message. |
| ConformantRuns.CopyEntryJudged | src/clipboard/handcrafted.cpp:446-480 | The requests of a copy, from source to selection, are all admitted exactly when every type fits; then the compositor has recorded the new source as the selection of the kind asked for, and of no other, and both sides agree afterwards. |
| ConformantRuns.BootstrapConforms | src/clipboard/handcrafted.cpp:312-376 | A bootstrap is first to break a judged rule exactly when it binds a withdrawn global; otherwise, if it completes, it has bound a seat and a manager and used ids 2 to 6. |
| ConformantRuns.CopyConformsIff | src/clipboard/handcrafted.cpp:382-487 | A copy is first to break one of the judged rules for requests (dense ids, known objects, globals still there, offers before the one set_selection, primary only with version 2) exactly when its bootstrap binds a withdrawn global, or it reaches its offers with a compositor that kept the rules and some type exceeds 65519 bytes; what was sent encodes the judged requests. |
| ConformantRuns.PasteConformsIff | src/clipboard/handcrafted.cpp:491-596 | A paste is first to break one of the judged rules for requests exactly when its bootstrap binds a withdrawn global; `receive` names an announced offer and one of its announced types. |
| BlamedCopy.CopyBlamedIff | src/clipboard/handcrafted.cpp:434-481 | With an honest compositor that withdraws nothing and whose messages come through, a copy is first to break a judged rule exactly when these messages let it past the checks, the kernel takes the requests of bootstrap, and some type exceeds 65519 bytes. |
| BlamedCopy.BlamedRunExists | src/clipboard/handcrafted.cpp:446-481 | For every list with such a type there is a run, with a completed bootstrap, in which the copy breaks the rule. |
| WithdrawnGlobal.WithdrawingRunExists | src/clipboard/handcrafted.cpp:280-292 | For every paste there is a run in which it binds a seat it was told is gone. |
| Superseding.MemoryIsLog | protocols/wlr-data-control-unstable-v1.xml:102-130 | For every log of a client whose requests have arguments, the compositor's memory of devices, offers, current selections and offers owed is what the log itself says. |
| Superseding.CopyOwesOffers | protocols/wlr-data-control-unstable-v1.xml:116-130 | In every copy run in which nobody broke a judged rule, the superseded offers left undestroyed are exactly those named by the earlier of two selection events of one kind. |
| Superseding.PasteOwesOffers | protocols/wlr-data-control-unstable-v1.xml:163-172 | The same for every paste run, for regular and primary selections. |
| NeglectedOffer.NeglectingRunExists | src/clipboard/handcrafted.cpp:390-432 | For every copy whose types can be offered there is a run in which nobody breaks a judged rule and an offer is left undestroyed. |
| ConformantRuns.SentBytesDecode | src/clipboard/handcrafted.cpp:184-218 | Once all is flushed, the bytes that left parse to exactly the requests made. |
| SyncBarrier.WaitForSync | src/clipboard/handcrafted.cpp:261-308 | A wait ends exactly at the first `done` of its own callback; every earlier event and no later one has taken effect. |
| SyncBarrier.FirstWait | src/clipboard/handcrafted.cpp:315-317 | The globals known after the first wait are exactly the seat and manager globals advertised before the first barrier. |
| SyncBarrier.SecondWait | src/clipboard/handcrafted.cpp:319-360 | Only the second callback ends the second wait; by then the last seat name sent before it is known, and the bound globals are the chosen ones. |
| SyncBarrier.BootstrapStory | src/clipboard/handcrafted.cpp:312-376 | The waits of bootstrap complete exactly when both barriers arrive, a manager and a seat were advertised before the first, and the selector picks a seat; then its state and requests are fixed by the events before the barriers. |
| CopyRuns.ServingRun | src/clipboard/handcrafted.cpp:390-432 | Over any events that spare the source, serving stops exactly if oneshot sees a send or two cancels come, at the first such point, and has counted every send and cancel and answered each send on its own descriptor. |
| CopyRuns.CopyReturns | src/clipboard/handcrafted.cpp:390-487 | In every run over a faithful stream: the first cancel alone never ends a copy, it stops at the first point where it is over, and it returns true exactly when a send came up to there, false if it does not complete. A run that is not cut off completes exactly when the messages say so, and one that gets the whole stream exactly when they do and its waits' flushes succeed. |
| CopyRuns.CopyFdsAccounted | src/clipboard/handcrafted.cpp:392-400 | In every copy run, whatever its end, the descriptors received are, in order, those handed to `serve_send`, each once, then those still queued for the closing of the connection; none waits to be sent. |
| PasteRuns.WaitForTarget | src/clipboard/handcrafted.cpp:550-554 | The wait ends exactly with the first selection of the requested kind or `finished`, in the state the events up to it determine. |
| PasteRuns.RecordIsTale | src/clipboard/handcrafted.cpp:501-526 | The record found for an offer holds exactly the types announced for it after the offer, in order. |
| PasteRuns.PasteStory | src/clipboard/handcrafted.cpp:498-596 | Read in one go, a list of messages lets paste succeed exactly when the stated condition on the messages holds, and determines the result fields in any case. |
| PasteRuns.PasteReturns | src/clipboard/handcrafted.cpp:498-596 | In every run over a faithful stream that is not cut off, successful or not: `available` is the list, in order, of the offer named by the first selection of the requested kind, empty if there is none, and the type is the preferred one of it. Such a run succeeds exactly when the messages say so, and one that gets the whole stream exactly when they do and its waits' flushes succeed. |
| PasteRuns.WriteEndKeptIff | src/clipboard/handcrafted.cpp:577-590 | In every paste run that asks for the data, the pipe's write end is still queued, and so open, when the drain starts, exactly when the kernel's next answer to a send, interruptions apart, is a failure. |
| PasteRuns.PasteEndsIffShipped | src/clipboard/handcrafted.cpp:589-590 | In every such run, some scheduling of the transfer shows paste the end of the file exactly if that send succeeds. |
| KeptWriteEnd.KeepingRunExists | src/clipboard/handcrafted.cpp:577-590 | For every type of up to 1000 bytes there is a run that completes its waits, asks for the data, and keeps the write end. |
| DataControl.WaitEndsBehindTarget | src/clipboard/data_control.cpp:186-195 | However the trace is batched, the wait has handled some first n events, with n behind the first target event. |
| DataControl.LibPicks | src/clipboard/data_control.cpp:76-114 | On traces that select once, the library client ends up with the offer of the handcrafted fold and its types, plus those announced later in the batch. |
| DataControl.AgreeIffNothingLate | src/clipboard/data_control.cpp:186-211 | On traces that select once, both implementations pick the same offer and list, hence the same type, for every batching exactly if no type of that offer is announced after its selection. |
| DataControl.NothingLateAgrees | src/clipboard/data_control.cpp:186-211 | Without a late type they agree for the batching at hand. |
| DataControl.LateTypeShows | src/clipboard/data_control.cpp:76-103 | Every late type separates them when the trace comes in one batch. |
| DataControl.LateTypeSeparatesThem | src/clipboard/data_control.cpp:76-103 | The smallest such trace, with both lists. |
| DataControl.LibState.FindProxy | src/clipboard/data_control.cpp:84-89 | Returns a pointer into the list to the first offer of a proxy, or null. |
| DataControl.LibState.OnDataOffer | src/clipboard/data_control.cpp:90-97 | Adds a new offer object; the pointers held stay valid. |
| DataControl.LibState.OnOfferMime | src/clipboard/data_control.cpp:76-81 | Appends the type to the first offer of that proxy, in place, seen through the pointers held. |
| DataControl.LibState.OnSelection | src/clipboard/data_control.cpp:98-103 | Points the regular selection at the offer, resolved on arrival. |
| DataControl.LibState.OnPrimarySelection | src/clipboard/data_control.cpp:104-109 | The same for the primary selection. |
| DataControl.LibState.OnFinished | src/clipboard/data_control.cpp:110-114 | Notes that the device is gone. |
| DataControl.LibState.Wait | src/clipboard/data_control.cpp:186-195 | Batches are dispatched whole until the goal holds or the connection ends. |
| Relay.CopyIsRead | src/clipboard/handcrafted.cpp:446-481 | From the bytes of a copy that came to its offers, a compositor reads exactly its types, in order, and that its source was set, once, as the selection of the kind asked for. |
| Relay.AnnouncementSelects | src/clipboard/handcrafted.cpp:501-526 | A paste told of these types reads the offer with exactly them, in order. |
| Relay.PasteIsRead | src/clipboard/handcrafted.cpp:580-589 | From the bytes of a paste a compositor reads one request, for the preferred type of the relayed offer. |
| Relay.CopyThenPasteRelayed | src/clipboard/handcrafted.cpp:382-596 | Through a compositor that relays what it reads off both clients' bytes, the kind of selection included, whatever the chunks and partial sends: the paste completes and lists exactly the copy's types, asks for the preferred one, the copy answers that request on its descriptor, the paste can see the end of the file, and when it does its bytes are the payload exactly if `serve_send` wrote it all. |
| RelayedRun.RelayedRunExists | src/clipboard/handcrafted.cpp:382-596 | For every type of up to 1000 bytes, every payload and every preference there are two such connections. |
| Transfer.ServeSend | src/clipboard/transfer.cpp:14-42 | The write loop leaves exactly what the writes before the first failure do not cover; it finished exactly when nothing is left, and timed out exactly when that failure is a full pipe that stayed full. |
| Transfer.RetriesChangeNothing | src/clipboard/transfer.cpp:20-41 | Interrupted writes, and full pipes that became writable, change nothing about how the loop ends. |
| Transfer.ServeRunIs | src/clipboard/transfer.cpp:14-42 | Everything is written exactly when the counts before the first failure add up to it; otherwise the rest is what they do not cover. |
| Transfer.DrainFd | src/core/fd.cpp:25-45 | Growing and cutting back the buffer returns exactly the bytes read before end of file or error. |
| Transfer.DrainStopsAt | src/core/fd.cpp:25-45 | What the read loop returns is all the chunks before the first end of file or error, in order, interruptions apart. |
| Transfer.PipeDelivers | src/clipboard/transfer.cpp:14-42 | For every capacity and interleaving, drained and in-pipe bytes are a prefix of the payload; at end of file the reader holds the whole payload exactly when the writer finished. |
| Transfer.RunProjects | src/core/fd.cpp:25-45 | In every interleaving, whatever the kernel answers next, `serve_send` goes on from where the writer stands, and the drained bytes are what `drain_fd` returns for the answers it saw. |
| Transfer.DrainFdReturnsPayload | src/core/fd.cpp:25-45 | At end of file, what `drain_fd` returns is the payload exactly when `serve_send`'s loop, on the answers it saw, wrote it all. |
| Transfer.CanAlwaysDeliver | src/clipboard/transfer.cpp:20-41 | No deadlock: from every point of a transfer in which neither side gave up and nobody else holds a write end, some continuation delivers everything. |
| Transfer.HeldPipeNeverEnds | src/core/fd.cpp:28-43 | While some other process, the reader's own for one, holds a write end, no reading is ever an end of file. |
| Descriptors.Fd.Reset | src/core/fd.cpp:11-14 | Closes the descriptor held, if any, once, and takes over the new number. |
| Descriptors.Fd.Release | src/core/fd.h:27 | Gives the number away without closing it and holds none. |
| Descriptors.Fd.MoveFrom | src/core/fd.h:16-23 | Move assignment closes the old descriptor, takes the other's and leaves it empty; self-assignment does nothing. |
| Descriptors.FlushBalances | src/wire/wire.cpp:130-134 | A flush, failed or not, closes exactly the descriptors its successful sends carried, and the ledger stays balanced. |
| Descriptors.WriteEndStaysOpen | src/wire/wire.cpp:94-137 | A single queued descriptor is still open after a flush exactly when no byte can carry it or the kernel's first real answer is a failure. |
| Descriptors.LedgerStaysBalanced | src/core/fd.h:9-33 | Over every sequence of pipes, moves, releases, resets, queueing, flushes, pumps, pops and serves: each open descriptor has one holder, none is closed twice, and each was closed once per opening or is open. |
| Descriptors.NothingLeaks | src/wire/wire.cpp:31-42 | After any such sequence with no raw number in hand, close and the destructors leave nothing open, and everything ever opened was closed exactly once. |
| X11Server.Interner.Intern | src/clipboard/x11.cpp:43-51 | A known name keeps its atom, a new one gets the next number and nothing else changes, and None is answered exactly when a new name finds the numbers used up. |
| X11Server.LoadAtoms | src/clipboard/x11.cpp:66-89 | Every cached atom is the server's for its name; all are known unless the server's numbers are used up. |
| X11Server.PassKeepsStep | src/clipboard/x11.cpp:364-393 | While the loop runs, four times the offset is the number of bytes gathered, a multiple of 4 MiB, and these are the value's first ones; it stops exactly at the length that 32-bit counts of the rest lead to. |
| X11Server.ReadTerminates | src/clipboard/x11.cpp:361-395 | On every value a property can hold the loop ends, within one request per 4 MiB begun, and returns the value exactly unless its length is a multiple of 4 MiB beyond 4 GiB. |
| X11Server.ReadStopsShort | src/clipboard/x11.cpp:389-392 | At 4 GiB and 4 MiB the 32-bit count of the rest is 0 after the first reply, and only 4 MiB are returned. |
| X11Owner.BuildTargets | src/clipboard/x11.cpp:164-232 | The lists are parallel and related by interning; the names are those of TARGETS, the non-text types and, for text, UTF8_STRING that the server has atoms for, each once, in order: all of them if the server had numbers left for them. |
| X11Owner.InternNonText | src/clipboard/x11.cpp:192-207 | The first pass: which types are textual, and for each other the server's atom, None only when its numbers are used up. |
| X11Acquire.AcquireSelection | src/clipboard/x11.cpp:417-454 | Succeeds exactly with some type and the server's confirmation, for PRIMARY (atom 1) or the atom named CLIPBOARD; with numbers left on the server, the owner it makes is the one `ServeHandsOut` and `CopyThenPaste` start from. |
| X11Owner.ListedNameIs | src/clipboard/x11.cpp:245-251 | Looking an atom up in the parallel lists gives its own name, and nothing for the meta targets or an unlisted atom. |
| X11Owner.AdvertisedIffAnswered | src/clipboard/x11.cpp:235-252 | A target is answered exactly when it is advertised, or is TIMESTAMP, or is STRING or TEXT and there is a textual type. |
| X11Serve.AnswerRequest | src/clipboard/x11.cpp:484-536 | One request, branch by branch, yields the specified property write and notification; `ContentIsDue` says which. |
| X11Serve.ServeSelection | src/clipboard/x11.cpp:458-592 | The event loop in place issues the X requests of its run and returns its verdict. |
| X11Serve.ServeAnswersAll | src/clipboard/x11.cpp:464-590 | Every run answers each request taken exactly once, echoing requestor, selection and target, with the property written just before; oneshot serves at most one data request and ends with it. |
| X11Serve.ContentIsDue | src/clipboard/x11.cpp:484-536 | A request gets a property exactly when it is for the owner's selection and its target is advertised, is TIMESTAMP, or is STRING or TEXT of a text: the list of atoms, the owner's time, or the payload under the target's type; it counts as served exactly in the last case. |
| X11Serve.ServeHandsOut | src/clipboard/x11.cpp:464-590 | In every run, request by request: a due one has that property written on the requestor's window, under the property it names or else its target, and is told so; any other is told None and nothing is written. |
| X11Serve.FalseIffClearedUnserved | src/clipboard/x11.cpp:586-591 | The result is false exactly when a SelectionClear arrives before any request for data. |
| X11Paste.TurnIsOnePass | src/clipboard/x11.cpp:466-590 | Turn by turn, the owner of the composed world issues what `serve_selection` issues for the same events and stops where it stops. |
| X11Paste.TakingCommutes | src/clipboard/x11.cpp:332-347 | A step of the others between an event's arrival and its being taken is as good as one right after. |
| X11Paste.Requestor.RequestAndWait | src/clipboard/x11.cpp:325-357 | Converts, which without an owner is refused at once, then takes events until a notification or the timeout. |
| X11Paste.Requestor.ReadProperty | src/clipboard/x11.cpp:361-395 | The offset loop returns the stored value as far as 32-bit counts lead it, nothing for INCR or a missing property, and the property is deleted by the reply that says nothing is left. |
| X11Paste.Requestor.Types | src/clipboard/x11.cpp:677-688 | Translates the advertised atoms in order, skipping None and the meta targets. |
| X11Paste.TypeOfIsByName | src/clipboard/x11.cpp:677-688 | The type an atom stands for, by the atom's name. |
| X11Paste.TargetIsListedIff | src/clipboard/x11.cpp:677-704 | Whatever atoms an owner lists, a paste asks for each type read off them by an atom that stands for it, and for a listed one exactly unless the type is `text/plain`, plain or with the UTF-8 charset, and was listed only by the atom spelled so. |
| X11Paste.SpelledPlainIsAskedForString | src/clipboard/x11.cpp:699-704 | An owner that lists TARGETS and the atom `text/plain` is asked for STRING. |
| X11Paste.PasteEndsBy | src/clipboard/x11.cpp:650-721 | How a paste ends in any world, read off the first answer: what is no list of targets, what leaves nothing to choose, and that the type asked for is the first of least rank. |
| X11Paste.Requestor.Paste | src/clipboard/x11.cpp:650-721 | The whole paste in place, every exit included. |
| X11Identity.MovesKeepIdle | src/clipboard/x11.cpp:484-536 | While no request of ours is under way, no steps of others notify us or touch our property. |
| X11Identity.WaitDelivers | src/clipboard/x11.cpp:325-357 | Exactly when a wait is answered: the owner's loop survives what is queued before our request and gets a turn for each of it and one more; then it ends with the owner's verdict and content, otherwise in the timeout. |
| X11Identity.RequestDelivers | src/clipboard/x11.cpp:325-357 | The same from the conversion on: without an owner it is refused at once, whatever happens later. |
| X11Identity.AtomsRoundTrip | src/clipboard/x11.cpp:507-675 | The atom list survives its way through a 32-bit property. |
| X11Identity.TypesOfCandidates | src/clipboard/x11.cpp:173-689 | What the requestor lists for what the owner advertises: the non-text types, each once, in order, then the UTF-8 text type if any was textual. |
| X11Identity.TargetsAnswer | src/clipboard/x11.cpp:506-512 | The answer to TARGETS decodes to exactly that list. |
| X11Identity.DataAnswer | src/clipboard/x11.cpp:520-534 | Each listed type leads back to a target the owner answers with its bytes. |
| X11Identity.CopyThenPaste | src/clipboard/x11.cpp:458-721 | For every payload, type list, preference and interleaving, before, during and between the requests, the exact outcome: if the owner hears both requests, the usable types and exactly its bytes for the preferred one (none for a type named INCR); otherwise failure at the request it does not hear, at once if the selection is nobody's, else in the timeout. |
| X11Identity.PeacefulPasteCompletes | src/clipboard/x11.cpp:650-721 | An owner that keeps its selection, and in oneshot mode is not asked for the data by others first, hears both requests whatever else happens, given turns for everything queued and asked before, and one more, in each wait. |

## Left out

- System calls are scripts of answers: a script that runs out is a failed send, a negative poll or a closed connection. `connect`, `fork`, `setsid` and signals are not modelled.
- Logging, timing, `describe_window` and the service times reported; the X11 timeout strikes when the modelled world has no moves left.
- Window creation and the round trip that verifies ownership: its answer is a parameter of `AcquireSelection`.
- src/cli, src/main.cpp, src/clipboard/factory.cpp, src/wayland/state.cpp, src/clipboard/data_device.cpp, scripts and build files: option parsing, routing and glue.
- The libwayland calls of src/clipboard/data_control.cpp; its handlers and its wait are modelled as the second implementation of paste.
- `guess_mime` and `write_all`: independent helpers that would only add easy members.
- Receiver-side limits: control data is never truncated, a chunk has 1 to 4096 bytes and at most 28 descriptors; the kernel attaches a descriptor no later than the last byte of its message (`Faithful`, derived for a sender's flush of at most 28 descriptors by `SentStreamIsFaithful`). A peer that queues more may send some after the last byte of their message.
- CopyReturns: assumes that the compositor deletes none of the objects still in use (`BootSpared`, `Spared`) and attaches a descriptor exactly to `send` events (`MatchedPhases`); both are promises of the protocol, and without the first the dispatcher really ignores later events.
- PasteReturns: assumes the same, and that offers get ids of the server's range (`LawfulTrace`). The bytes a paste returns are what its pipe delivers; whether another client fills the pipe is the subject of `Transfer`.
- ConformantRuns.PasteConformsIff: the verdict blames whoever breaks a judged rule first, so nothing is claimed after a compositor has broken one; the same holds of CopyConformsIff, CopyOwesOffers and PasteOwesOffers. The judged rules are those for requests; rules about what to do on an event are judged for superseded offers only. That the client neither reacts to `finished` by destroying its device nor destroys a cancelled source is not judged.
- BlamedCopy.CopyBlamedIff: a compositor that withdraws globals is covered by CopyConformsIff only.
- The destroy requests of manager, device and source: the handcrafted client sends none, and the modelled compositor does not know them. It knows the one of an offer.
- A numeric seat selector too large for `stoul` counts as out of range; in the source the conversion throws. The counters `served` and `cancel_count` do not overflow.
- Inside a copy, the bytes written for a `send` event are those of `Transfer.ServeSend`; the copy run records on which descriptor each send was answered, in order.
- X11Owner.BuildTargets: needs type names below 65536 bytes, since InternAtom carries a 16-bit length.
- X11Identity.CopyThenPaste: needs nonempty type names below 65536 bytes, a payload below 2^32 bytes, and a target list that `read_property` returns whole, as every one of at most 2^30 targets is; the X server's own limit on request size is not part of this model. INCR transfers are not implemented by the source either.
- X11Paste.Requestor.RequestAndWait: other clients do not send us a SelectionNotify of their own or convert on behalf of our window. A selection that is lost has no owner afterwards; a client that takes it over would answer with its own data.
- X11Paste.Requestor.ReadProperty: the world does not move between the requests of one read. By `MovesKeepIdle`, steps of the others could not change our property then; they may happen before and after.
- X11Paste.Requestor.Paste: the chosen type's atom is looked up where the source interns it; a listed type always has one.
- A GetProperty request that fails for other reasons than its offset: the server always replies.
