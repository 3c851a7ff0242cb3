# i-link, verified model

i-link is an IO-Link master stack: layered state machines that talk to one device
per port. This project models the layers that carry data and proves what they
promise, in Dafny 4.11. Check it with `dafny verify dfyconfig.toml`.

The model has the layers of the stack:

- **Data link layer.** `Isdu` is the ISDU transfer syntax with a reference
  receiver. `IsduHandler` is the ISDU state machine as a step function,
  `IsduSafety` accounts for every confirmation over all runs, and `IsduTransfer`
  proves that requests and responses survive segmentation. `IsduFailure` says when a
  transfer fails and what the device and the layer above are told. `EventHandler` walks
  the event memory. `OnRequest` decides which of ISDU, events and master commands
  a message serves, and `Interleaving` shows that the ISDU handler does not notice
  the others; `EventInterleaving` shows the same of the Event handler. `IsduBounds`
  says which transfers leave the ISDU buffer. `MessageHandler` sends and repeats
  messages. `Transmitter`, `IsduUnit`, `EventUnit` and `DataLink` are the same handlers
  in the source's own form: classes over buffers that are filled in place, each method
  proved equal to a step of the specification.
- **Application layer.** `ApplicationLayer` and `AlEvents`, with the class
  `ApplicationLayerUnit`. `ClientService` is both layers together, from a client's
  request over the segments to its callback; `ClientFailure` is the same for transfers
  that fail and for direct parameters.
- **Data Storage.** `DataStorage` has the transition table, its actions, and
  `React`, what an event comes to with all the events it raises; `TableFollows`
  proves that the table does that. `DataStorageSafety` is about every run,
  `DataStorageTransfer` about what is moved, `DataStorageStartup` about what a startup
  decides. `DataStorageUnit` is the class with the dispatcher loop and the 2048-byte
  store.
- **System Management.** `SystemManagement` and `SystemManagementUnit` cover port
  startup, `SystemManagementExchange` is all that a startup reads, writes, reports and
  requests, `MSequence` the choice of M-sequence.
- **Master.** `JobPool` is the pool of jobs and its mailboxes. `JobReference` puts
  the transition table of the application layer beside it, and shows that the job the
  table's actions look into is always the one that runs.

Threads, timers and the device are inputs: a trigger, a reply, an error or an
expired timer may come at any step unless a lemma says otherwise.

Several promises do not hold for all inputs. For those the project gives the exact
condition:

- An extended response in one-byte messages is read too early if and only if the
  request's second byte is 0, 1, 2 or 16 (`IsduTransfer.ResponseRoundTrip`).
- A request is confirmed a second time only if the handler is activated again while
  the message handler still holds the transport command
  (`IsduSafety.AdvanceBalances`, `IsduSafety.StaleCommandConfirmsAgain`).
- A transfer leaves the 241-byte ISDU buffer if and only if its request or response,
  rounded up to whole segments, is longer: that is over 224 bytes in messages of 32,
  over 240 in messages of 2 or 8, over 241 in messages of 1
  (`IsduBounds.TransferWithinExactly`, `IsduBounds.RoundsWithinLengths`).
- A master command that is requested between the two messages of another command's
  round stops all on-request data, and nothing else that is legal does
  (`OnRequest.StarvedExactly`), until a further command is requested
  (`OnRequest.FreedExactly`).
- Communication is given up after three missing or broken replies to a message if no
  failure was on record when it was sent and repeated
  (`MessageHandler.LostAfterThreeFailures`). Startup never clears that record, so there
  any call without a reply then counts (`MessageHandler.LostInStartupExactly`,
  `MessageHandler.LostWithoutFailure`).
- In PREOPERATE the turns of master and device alternate exactly until a reply finds
  the event flag up, the ISDU handler idle and OPERATE not requested; then the handler
  never transmits again and reads no event (`MessageHandler.RunAlternatesExactly`,
  `MessageHandler.StalledForGood`, `EventInterleaving.RepliesReadNothing`). The flag is
  that of the last reply in OPERATE. The rounds of `Interleaving` and
  `EventInterleaving` are those of alternating turns.
- A short checksum reply at the end of an upload makes Data Storage issue two
  requests at once, and nothing else does
  (`DataStorageSafety.ShortChecksumMakesTwoRequests`).
- A Data Storage transfer has an outcome unless an error arrives in a state whose
  table has no row for it, or the break command fails
  (`DataStorageSafety.TransferEndsInOneOutcome`).
- An error confirmation during a device restart leaves the port in restart
  (`SystemManagement.ErrorsEndStartup`).
- A negative response with code 0x0000 is reported as success
  (`ApplicationLayer.SuccessExactly`).
- A timeout of a transfer reaches its client as error type 0x1100 if and only if the
  client writes; a client that reads gets 0x8000
  (`ClientFailure.TimeoutReachesClientExactly`).
- A timeout leaves the timer on. A later transfer that an abort or a lost connection
  interrupts while its request is sent is reported as a timeout exactly if the timer of
  an earlier one is still on and its time is up (`IsduFailure.TimeoutExactly`,
  `IsduFailure.StaleTimer`).
- An M-sequence of type 2_V passes on the cycle time only if operate code 4 comes with
  octets both ways or operate code 0 with bits; else the list keeps the time it had
  before, which is 0 (`MSequence.PopulateValueList`).
- An event set is taken for an upload request exactly if it, or what earlier sets
  left behind its end, has one (`AlEvents.ReportedUnlessUploadRequested`).
- A message of 32 on-request octets behind 31 or 32 octets of process data is longer
  than its 64-byte buffer, and no other is (`MSequence.PopulateValueList`).

Two comments of the source differ from its code, and the model follows the code: the
confirmation of events carries the control byte of its own message as data, and a
process data output of "invalid" is confirmed like a change to operate.

## Model

| member | source | states |
|---|---|---|
| Bytes.ChecksumCancels | src/iolink_dl.c:236-251 | appending its XOR makes the XOR of any message 0 |
| Bytes.FlagIsBit | src/iolink_dl.c:2286-2299 | flag k of a status byte is its bit k |
| Bytes.BitsAreDigits | src/iolink_dl.c:2286-2299 | the eight flags, weighted with powers of two, sum to the byte |
| Isdu.ParseEncode | src/iolink_dl.c:3057-3175 | a receiver reads every encodable request back from its encoding, whatever follows it |
| Isdu.EncodeChecksum | src/iolink_dl.c:3157-3159 | the XOR of a whole encoded request is 0 |
| Isdu.EncodedLengthParses | src/iolink_dl.c:281-298 | the length parser accepts every encoded request and gives its length: 3 to 15 in short form, at least 17 in extended form, never 16 |
| Isdu.EncodeLayout | src/iolink_dl.c:3119-3155 | service and length, address and data stand where the source puts them |
| IsduHandler.StepKeepsInv | src/iolink_dl.c:1754-2071 | with alternating messages, every step keeps state, segment and length fields consistent, and leaves the 241-byte buffer by no more than 16 bytes |
| IsduBounds.WithinExactly | src/iolink_dl.c:1788-2036 | a step neither depends on nor changes memory behind the 241-byte buffer if and only if the segment it sends or stores ends there, and the payload it confirms does |
| IsduBounds.TransferWithinExactly | src/iolink_dl.c:1788-2036 | a transfer stays within the 241 bytes if and only if request and response, each rounded up to whole segments, do; one whose length is misread ends before, unless its second byte is taken for the last and announces more than 242 |
| IsduBounds.RoundsWithinLengths | src/iolink_dl.c:1995-2010 | that is 241 bytes in messages of 1 byte, 240 in messages of 2 or 8, 224 in messages of 32 |
| IsduBounds.EighthSegmentLeavesBuffer | src/iolink_dl.c:1995-2010 | in messages of 32 bytes, the eighth segment of a response that has announced 225 bytes leaves the buffer |
| IsduBounds.LongResponseLeavesBuffer | src/iolink_dl.c:1904-2036 | so does every transfer with a response of 225 bytes in messages of 32 |
| IsduSafety.StepAccounts | src/iolink_dl.c:1644-2071 | a step confirms the request it held, or keeps it, or is the one shutdown that abandons it |
| IsduSafety.AdvanceBalances | src/iolink_dl.c:1644-2071 | an input keeps requests = confirmed + dropped + pending if and only if a handler that is activated does not still hold the transport command |
| IsduSafety.ConfirmedOnce | src/iolink_dl.c:1644-2071 | in every run, requests made are those confirmed, dropped or pending, so none is confirmed twice |
| IsduSafety.TransferEndsConfirmed | src/iolink_dl.c:1644-1752 | every step from a transfer to idle gives exactly one confirmation and clears command and segment count |
| IsduSafety.ReceivedAnswersRequest | src/iolink_dl.c:333-367 | a confirmation from reception has a service code of the direction of the request |
| IsduSafety.ShutDownBeforeStart | src/iolink_dl.c:1774-1787 | a request that is shut down before it starts is confirmed and leaves the transport command behind |
| IsduSafety.UnreleasedIsStale | src/iolink_dl.c:1754-1772 | every activation of a handler that still holds the transport command leads to that state |
| IsduSafety.StaleCommandConfirmsAgain | src/iolink_dl.c:1788-1802 | activated in that state, the handler starts the old request again and confirms it a second time |
| IsduTransfer.RequestRoundTrip | src/iolink_dl.c:1788-1902 | the segments sent, START then COUNT 1 to 15, 0, 1 and so on, are as many as needed; a receiver that joins them reads the request back, and the rest is zero |
| IsduTransfer.ResponseRoundTrip | src/iolink_dl.c:1715-2036 | the client gets one confirmation, after the last segment, with exactly the payload, service code and checksum verdict of the response, for any number of busy replies, if and only if the length is not misread |
| IsduTransfer.AnsweredTooEarly | src/iolink_dl.c:1956-1971 | when the length is misread, a confirmation comes after the first or second byte |
| IsduFailure.LegalHeaders | src/iolink_dl.c:333-367 | the headers accepted are 0x00, 0x01, and 0xC1 to 0xCF and 0xD1 to 0xDF for a read, 0x41 to 0x4F and 0x51 to 0x5F for a write |
| IsduFailure.FailsExactly | src/iolink_dl.c:1858-2036 | a transfer fails if and only if it is aborted, communication is lost, no response came in time, or the reply awaited is no service or an illegal header; the device is read with ABORT by that step exactly if the master's message is due |
| IsduFailure.FailureReported | src/iolink_dl.c:1644-1713 | a failure that is due emits one read with control byte 0xFF and one confirmation without data: timeout iff the time is up, else no communication iff it is lost, else aborted iff an abort is pending, else illegal iff the header is, with its service code, else invalid; the handler is idle and released |
| IsduFailure.FailsWithinTwo | src/iolink_dl.c:1691-1713 | a transfer that fails is reported so, once, with this message or the next |
| IsduFailure.ShutDownFails | src/iolink_dl.c:1691-1700 | a handler shut down meanwhile confirms that there is no communication, or nothing if the failure had been noted, and sends nothing |
| IsduFailure.SilentDeviceTimesOut | src/iolink_dl.c:1788-1985 | after a whole request and any number of busy replies, when the time is up, the device is told to abort and a timeout is confirmed, with this message or the next |
| IsduFailure.AlwaysTimed | src/iolink_dl.c:392-414 | in every run the timer is on while a response is awaited and off while one is received |
| IsduFailure.TimeoutExactly | src/iolink_dl.c:1664-1669 | an interruption is reported at once as a timeout exactly if the time is up and, in the wait for a response, nobody has aborted; never in a response; and while a request is sent only for a timer left on |
| IsduFailure.StaleTimer | src/iolink_dl.c:1912-1916 | after a timeout the next request, interrupted by a lost connection while it is sent, is reported as a timeout |
| IsduFailure.TransferOnWire | src/iolink_dl.c:1868-2002 | the control bytes of a transfer are 0x60 to 0x6F with the segment due, 0xF0, and 0xE0 to 0xEF |
| IsduFailure.IdleOnWire | src/iolink_dl.c:1788-1831 | those of an idle handler are 0x70 with the first segment, 0xA0 and 0x20 plus the address of a direct parameter, and 0xF1 |
| IsduFailure.DirectAccess | src/iolink_dl.c:1832-1848 | a direct parameter read is confirmed with the byte received, a write without error, and the command is done with |
| IsduFailure.NotTaken | src/iolink_dl.c:3061-3088 | a request is taken exactly if there is communication, its index is at least 2 and the handler idle; else the first of these that fails is confirmed and nothing changes |
| Transmitter.ControlByteDecodes | src/iolink_dl.c:2719-2720 | direction, channel and address are read back from the control byte |
| Transmitter.EveryByteIsControl | src/iolink_dl.c:2719-2720 | every byte is the control byte of exactly one request |
| Transmitter.MessageTypes | src/iolink_dl.c:2719 | the message type of M-sequence types 0, 1_x and 2_x is 0x00, 0x40 and 0x80 |
| Transmitter.Transmitter.constructor | src/iolink_dl.c:422-455 | the on-request part follows the process data, and both fit the buffer |
| Transmitter.Transmitter.WriteHeader | src/iolink_dl.c:2719-2720 | writes control byte and message type, and nothing else |
| Transmitter.Transmitter.WriteData | src/iolink_dl.c:2725-2741 | copies the data behind the process data, padded with zeros, and nothing else |
| Transmitter.Transmitter.Request | src/iolink_dl.c:2677-2749 | refuses a length over 32 or an address over 31 without effect; else the buffer shows the request and process data are unchanged |
| Transmitter.Transmitter.UpdateProcessData | src/iolink_dl.c:2751-2787 | replaces the process data; header and on-request data are unchanged |
| Transmitter.Transmitter.Prepare | src/iolink_dl.c:1145-1179 | what is sent is control byte, message type, process data, and for a write the on-request data padded to its length |
| IsduUnit.IsduUnit.constructor | src/iolink_dl.c:3498-3537 | a handler starts inactive with an empty buffer |
| IsduUnit.IsduUnit.CalcChkPdu | src/iolink_dl.c:236-251 | the loop computes the XOR of the first bytes of the buffer |
| IsduUnit.IsduUnit.BuildFront | src/iolink_dl.c:3097-3150 | service, length and address are written as the syntax has them |
| IsduUnit.IsduUnit.Build | src/iolink_dl.c:3114-3164 | the buffer holds exactly the encoded request and zeros behind it; memory after it is unchanged |
| IsduUnit.IsduUnit.TransportReq | src/iolink_dl.c:3057-3175 | an acceptable request is built and made pending; otherwise it is answered at once with the reason and nothing changes |
| IsduUnit.IsduUnit.ErrorState | src/iolink_dl.c:1644-1689 | one call is the error step of the specification, whose abort and reasons `IsduFailure.FailureReported` pins |
| IsduUnit.IsduUnit.EnterErrorState | src/iolink_dl.c:1691-1713 | reports at once on a master message or when shut down, else in the next round |
| IsduUnit.IsduUnit.Complete | src/iolink_dl.c:1715-1752 | confirms payload, service code and checksum verdict of the response in the buffer |
| IsduUnit.IsduUnit.IdleMessage | src/iolink_dl.c:1788-1831 | the message of an idle handler: the first segment, a direct parameter access, or idle |
| IsduUnit.IsduUnit.IdleState | src/iolink_dl.c:1774-1856 | the whole new state and the services of an idle step |
| IsduUnit.IsduUnit.SendSegmentAt | src/iolink_dl.c:1868-1878 | sends exactly the segment asked for |
| IsduUnit.IsduUnit.StoreSegment | src/iolink_dl.c:1930-1934 | the received data replace that segment and nothing else; if the segment ends within the 241 bytes, the memory behind them is untouched |
| IsduUnit.IsduUnit.RequestState | src/iolink_dl.c:1858-1902 | the whole new state and the services of a step that sends |
| IsduUnit.IsduUnit.FirstSegmentState | src/iolink_dl.c:1936-1973 | busy, refused, illegal, complete or begun, by the first byte |
| IsduUnit.IsduUnit.WaitState | src/iolink_dl.c:1904-1985 | the whole new state and the services of a step that waits |
| IsduUnit.IsduUnit.ResponseState | src/iolink_dl.c:1987-2036 | the whole new state and the services of a step that receives |
| IsduUnit.IsduUnit.Step | src/iolink_dl.c:2038-2071 | one call of the ISDU handler is one step of its specification, and the transmit buffer shows the service it asks for |
| EventHandler.SlotsAreTheFlagged | src/iolink_dl.c:2295-2313 | the slots walked are exactly those flagged |
| EventHandler.SlotsAreAnnounced | src/iolink_dl.c:2295-2313 | they are the slots k below 6 whose bit k is set in the status code, in ascending order |
| EventHandler.AnnouncedAreSlots | src/iolink_dl.c:2295-2313 | and no other list of slots is |
| EventHandler.SlotsAscend | src/iolink_dl.c:2295-2313 | they are walked in ascending order |
| EventHandler.HandlerStep | src/iolink_dl.c:2147-2513 | every step, with any bytes and triggers, keeps the walk on a flagged slot with read plus remaining slots equal to the count |
| EventHandler.ReadsWhatItCounted | src/iolink_dl.c:2385-2397 | the branch for a mismatch between events counted and read is unreachable |
| EventHandler.ReadoutWithDetails | src/iolink_dl.c:2280-2476 | with bit 7 of the status code set, a readout reads address 0 and then 3k+1 to 3k+3 for every slot k whose bit is set, in order, and indicates exactly what is stored there, counting down what is left |
| EventHandler.PlainBatchMeans | src/iolink_dl.c:2435-2468 | the events of a status code without details are those of its bits 0 to 4 that are set: code 0xFF80 but 0x6320 for bit 2 and 0xFF10 for bit 4; a notification for bit 0, a warning for bit 1, else an error; each with the number left |
| EventHandler.ReadoutWithoutDetails | src/iolink_dl.c:2314-2334 | with bit 7 clear one round suffices, and exactly those events are indicated |
| EventHandler.ReadoutConfirmed | src/iolink_dl.c:2192-2206 | the next message of the master after a readout is one write to address 0 of the diagnosis channel |
| EventHandler.NoSlotFlagged | src/iolink_dl.c:2280-2313 | with bit 7 set and none of bits 0 to 5, the status code is read again for ever, without an indication |
| EventUnit.EventUnit.constructor | src/iolink_dl.c:3498-3537 | a handler starts inactive |
| EventUnit.EventUnit.SignalDetails | src/iolink_dl.c:2416-2433 | the loop indicates the stored events in order, each with the number left |
| EventUnit.EventUnit.SignalPlain | src/iolink_dl.c:2435-2468 | the loop indicates the flagged events, each with the number left, down to 0 |
| EventUnit.EventUnit.CountSlots | src/iolink_dl.c:2295-2313 | the loop counts the flagged slots and finds the first |
| EventUnit.EventUnit.ReadStatus | src/iolink_dl.c:2280-2335 | the whole new state and the indications for a status code, whose flags `Bytes.FlagIsBit` pins |
| EventUnit.EventUnit.Advance | src/iolink_dl.c:2371-2383 | the loop finds the next flagged slot, or the end |
| EventUnit.EventUnit.ReadMemory | src/iolink_dl.c:2337-2405 | the whole new state and the indications for a byte of event memory |
| EventUnit.EventUnit.Confirm | src/iolink_dl.c:2192-2206 | the confirmation writes address 0 of the diagnosis channel, its data being the control byte |
| EventUnit.EventUnit.IdleMessage | src/iolink_dl.c:2165-2233 | confirms the last readout or starts a new one from empty records |
| EventUnit.EventUnit.Step | src/iolink_dl.c:2478-2513 | one call of the Event handler is one step of its specification |
| OnRequest.RoundServesOne | src/iolink_dl.c:2533-2643 | every round serves exactly one of a pending command, events and ISDU; ISDU always gets both messages of its round |
| OnRequest.StarvedExactly | src/iolink_dl.c:2568-2603 | a round leaves the handler stuck if and only if a command is requested between the messages of a round that writes one |
| OnRequest.StarvedServesNobody | src/iolink_dl.c:2568-2603 | a handler that is stuck passes no message on in a round without requests, and stays stuck |
| OnRequest.FreedExactly | src/iolink_dl.c:2073-2145 | through a round, a handler that is stuck stays so if and only if no request in it frees it: any accepted request does, but after a code VALID or INVALID it takes two |
| OnRequest.StuckWhileNoneFrees | src/iolink_dl.c:2568-2603 | so it stays stuck through any rounds of which none frees it |
| OnRequest.ValidCodesStarve | src/iolink_dl.c:3177-3194 | the codes VALID and INVALID are accepted and leave it stuck after their round, with the command handler idle |
| OnRequest.FlagOnActivation | src/iolink_dl.c:2548-2552 | with the event flag set on activation, ISDU and events share a round |
| Interleaving.AdvanceTraced | src/iolink_dl.c:2533-2643 | a round extends the ISDU handler's own trace by one round if it is ISDU's, and else leaves that handler alone |
| Interleaving.GoesOn | src/iolink_dl.c:2533-2643 | after any run another round is possible, with any reply and any event flag |
| Interleaving.Transparent | src/iolink_dl.c:2533-2643 | the ISDU rounds of any run are a run of the ISDU handler alone |
| Interleaving.RequestSurvives | src/iolink_dl.c:1788-1902 | a request is read back by the receiver whatever events and commands come between its segments |
| Interleaving.ResponseSurvives | src/iolink_dl.c:1904-2036 | a response is confirmed exactly as if nothing came between its segments |
| EventInterleaving.AdvanceServes | src/iolink_dl.c:2533-2643 | while the event flag is up, a round writes a command and leaves the Event handler alone, or is a whole round of the Event handler |
| EventInterleaving.Transparent | src/iolink_dl.c:2533-2643 | in any run the Event handler is where its own rounds alone lead it, and has emitted what those do |
| EventInterleaving.ReadoutSurvives | src/iolink_dl.c:2280-2476 | a readout of event memory is indicated once, with exactly the slots whose bits are set, whatever commands are written meanwhile |
| EventInterleaving.RepliesReadNothing | src/iolink_dl.c:1006-1033 | replies passed on without a message of the master between them leave an idle Event handler as it is, so nothing is read |
| DataLink.DataLink.constructor | src/iolink_dl.c:3498-3537 | a port starts with all handlers inactive |
| DataLink.DataLink.CommandHandler | src/iolink_dl.c:2073-2145 | the whole new state of the command handler, and the one write it sends |
| DataLink.DataLink.ControlReq | src/iolink_dl.c:3177-3194 | accepts the four control codes and no other; a command that still waits is sent at once, and nothing else is; neither ISDU nor events are touched |
| DataLink.DataLink.DevicemodeReq | src/iolink_dl.c:3196-3266 | refused with a state conflict during startup and without confirmation for an unknown mode, without effect; else the command for the mode is pending, one that waits is sent at once, and in preoperate going inactive is confirmed at once and any other mode wakes the message handler |
| DataLink.DataLink.IsduTurnStep | src/iolink_dl.c:2533-2566 | the new state, and who is served |
| DataLink.DataLink.CommandTurnStep | src/iolink_dl.c:2568-2603 | the new state, and who is served |
| DataLink.DataLink.EventTurnStep | src/iolink_dl.c:2605-2643 | the new state, and who is served |
| DataLink.DataLink.Step | src/iolink_dl.c:2645-2672 | one call of the on-request handler is one step of its specification, passed on to the handler it is granted to and to no other |
| MessageHandler.GivenUpExactly | src/iolink_dl.c:885-924 | no message is sent more than three times, and a call gives communication up exactly if the message has been sent three times and is taken for failed |
| MessageHandler.LostAfterThreeFailures | src/iolink_dl.c:848-1104 | if no failure was on record whenever the message was sent or repeated, communication is given up exactly when three replies to it were missing or broken |
| MessageHandler.EveryRunIsTallied | src/iolink_dl.c:848-1104 | in every run the failures counted are the transmissions before the last, and the last if it is taken for failed |
| MessageHandler.ObservedByEmission | src/iolink_dl.c:795-1104 | the tally starts anew exactly when the handler transmits, and looks at the record again exactly when it repeats |
| MessageHandler.StartupKeepsRecord | src/iolink_dl.c:848-883 | startup never clears a failure on record, and repeats messages only with one |
| MessageHandler.RecordFails | src/iolink_dl.c:848-883 | a message is taken for failed by exactly the calls that bring no reply while a failure is on record or reported |
| MessageHandler.LostInStartupExactly | src/iolink_dl.c:848-924 | in startup, communication is given up exactly after three calls that ended a transmission; with a failure on record when the message was sent those are the calls that brought no reply |
| MessageHandler.StartupRunIsCounted | src/iolink_dl.c:848-924 | the count holds over every run of startup |
| MessageHandler.LostWithoutFailure | src/iolink_dl.c:848-924 | so communication is given up though no reply to the message was missing or broken |
| MessageHandler.StepConfirmsOnce | src/iolink_dl.c:795-924 | a step of startup confirms the pending read or write or keeps it |
| MessageHandler.EveryRequestConfirmedOnce | src/iolink_dl.c:795-924 | in any run of startup, every read and write is confirmed exactly once |
| MessageHandler.ConfirmedWithReply | src/iolink_dl.c:848-883 | when the reply to a message is there, a pending read is confirmed with exactly the byte received and a pending write, both without error; no other call confirms anything without error |
| MessageHandler.ValuesAreReceived | src/iolink_dl.c:795-924 | in every run of startup the values of the reads confirmed without error are those of the replies that ended them, in order |
| MessageHandler.RefusedExactly | src/iolink_dl.c:2835-2920 | a read or write is taken exactly in startup and for a valid address; else it is confirmed with a state conflict or a value out of range |
| MessageHandler.PreoperateKeepsInv | src/iolink_dl.c:979-1104 | in preoperate too, a message has been sent once and once more for every retry |
| MessageHandler.OneTurnAStep | src/iolink_dl.c:926-1053 | a call gives the on-request handler at most one turn: the master's with a new message, the device's while a reply is there |
| MessageHandler.TurnsAlternateExactly | src/iolink_dl.c:979-1053 | a turn is out of turn exactly if the handler is stalled, and it is stalled exactly after a reply that finds the event flag up, the ISDU handler idle and OPERATE not requested |
| MessageHandler.RunAlternatesExactly | src/iolink_dl.c:979-1053 | in every run of preoperate turns alternate exactly if no reply before the last call stalls the handler |
| MessageHandler.FlagDownAlternates | src/iolink_dl.c:979-1053 | with the event flag of the last reply in OPERATE down they alternate in every run, whatever the replies say |
| MessageHandler.StalledForGood | src/iolink_dl.c:1006-1033 | a stalled handler gives the device's turn with every call and never transmits again, until OPERATE is requested or the ISDU handler leaves idle |
| MessageHandler.MessageUnit.constructor | src/iolink_dl.c:795-838 | startup begins with nothing pending |
| MessageHandler.MessageUnit.ReadWriteReq | src/iolink_dl.c:2835-2920 | a read or write is confirmed at once, as refused, or is pending |
| MessageHandler.MessageUnit.Step | src/iolink_dl.c:1363-1443 | a call in startup confirms the pending service, a read with the byte received, or keeps it; no message is sent more than three times, and communication is lost exactly after the third |
| MessageHandler.MessageUnit.StepPreoperate | src/iolink_dl.c:1363-1443 | a call in preoperate gives at most one turn, the master's exactly when it transmits and the device's exactly while a reply is there; no message is sent more than three times, and communication is lost exactly after the third |
| ApplicationLayer.BusyTurnsAway | src/iolink_al.c:314-341 | a request is turned away with the record untouched if and only if another is being served |
| ApplicationLayer.OneStepCalls | src/iolink_al.c:314-467 | every input calls one callback, or takes over one client |
| ApplicationLayer.EveryClientCalledOnce | src/iolink_al.c:314-692 | for any interleaving of clients, everyone who asked has been called back once, but for the one being served |
| ApplicationLayer.FailureIsNeverSuccess | src/iolink_al.c:179-312 | no timeout, abort, checksum error or illegal response reaches a client as NONE |
| ApplicationLayer.SuccessExactly | src/iolink_al.c:179-312 | a client sees NONE if and only if the response is right and positive, or negative with code 0x0000 |
| ApplicationLayer.ClientSeesDeviceError | src/iolink_al.c:202-217 | a negative response of two bytes gives the client those bytes |
| ClientService.ClientServed | src/iolink_al.c:314-467 | the whole way: from the request over the segments and any number of busy replies, nobody but later clients is called back, each at once and turned away, until the last segment; then the client is, once, with what the response means: its payload if right, the device code if negative |
| ClientService.ClientServedBesideOthers | src/iolink_al.c:1120-1185 | the same with events and master commands between the messages |
| ClientService.AnswerIsSuccessExactly | src/iolink_al.c:179-312 | that is success exactly if the XOR of the response is 0 and it is positive, or negative with code 0x0000 |
| ClientService.SuccessNeedsRightResponse | src/iolink_al.c:179-312 | whatever happens to a transfer, a client sees success only if the device has just completed a response whose bytes XOR to 0 and whose service code answers the request |
| ClientService.RefusedClientIsTold | src/iolink_dl.c:3057-3096 | a request that the data link layer does not take is called back at once, once, and never as a success |
| ClientFailure.FailedClientTold | src/iolink_al.c:179-312 | a client whose transfer fails is called back once, without data: a reader with 0x8000, or 0x5700 for the header 0xD0; a writer with 0x1100 for a timeout, 0x8000 for lost communication or an abort, 0x5700 for an illegal header, 0x1000 else, but for the header 0x40 as if it were a device error |
| ClientFailure.TimeoutReachesClientExactly | src/iolink_al.c:220-227 | a timeout reaches the client as 0x1100 if and only if it writes |
| ClientFailure.SilentDeviceTold | src/iolink_al.c:314-467 | the whole way to a timeout: from the request over its segments and any number of busy replies nobody but later clients is called back; when the time is up the client is, once |
| ClientFailure.ErrorTypes | src/iolink_al.c:269-312 | the error type of every status |
| ClientFailure.ServiceChosen | src/iolink_al.c:343-403 | a read of index 0 or 1 is a direct parameter read, a write of index 1 a direct parameter write, every index from 2 on a transfer, and a write of index 0 is refused |
| ClientFailure.PageReadServed | src/iolink_al.c:343-467 | a client that reads index 0 or 1 is called back with the byte the device replies to a read of that address |
| ClientFailure.PageWriteServed | src/iolink_al.c:343-467 | one that writes index 1 has its first byte written to address 1 and is called back with success |
| ClientFailure.PageErrorTold | src/iolink_al.c:882-911 | an error of a direct parameter access reaches its client as the error type of that status |
| ClientFailure.BusyTold | src/iolink_al.c:314-341 | a client is told 0x4036 if and only if another is being served |
| ApplicationLayerUnit.ApplicationLayerUnit.constructor | src/iolink_al.c:951-959 | nothing is served and no event collected |
| ApplicationLayerUnit.ApplicationLayerUnit.Request | src/iolink_al.c:343-403 | the client is called back or is the one served from now on; while another is served it is turned away and the record is unchanged |
| ApplicationLayerUnit.ApplicationLayerUnit.ReadParamConfirmed | src/iolink_al.c:882-890 | the client being served, and no other, is called back with the byte read, as a success exactly if there was no error |
| ApplicationLayerUnit.ApplicationLayerUnit.WriteParamConfirmed | src/iolink_al.c:892-911 | the client being served, and no other, is called back, as a success exactly if there was no error |
| ApplicationLayerUnit.ApplicationLayerUnit.Copy | src/iolink_al.c:1140-1147 | copies the data, if it fits, and changes nothing behind it |
| ApplicationLayerUnit.ApplicationLayerUnit.IsduConfirmed | src/iolink_al.c:1120-1185 | the client being served, and no other, is called back, with the data copied into the record, and as a success only if there was no error |
| ApplicationLayerUnit.ApplicationLayerUnit.EventIndicated | src/iolink_al.c:853-875 | the whole new set, and the indication when it is complete |
| ApplicationLayerUnit.ApplicationLayerUnit.EventResponded | src/iolink_al.c:713-737 | an answered set is no longer pending and the count starts anew; what was collected stays behind |
| AlEvents.EventInd | src/iolink_al.c:853-875 | each event of a set is counted |
| AlEvents.SetIndicatedOnce | src/iolink_al.c:702-875 | a set is indicated once, complete and in order, if nothing is pending when it begins, and not at all otherwise |
| AlEvents.EventMemoryReachesDiagnosisUnit | src/iolink_dl.c:2280-2476 | from event memory to AL_Event_ind: one indication with exactly the slots whose bits are set in the status code |
| AlEvents.ReportedUnlessUploadRequested | src/iolink_al.c:1203-1240 | a set is reported if and only if neither it nor what stands behind its end asks for an upload |
| AlEvents.StaleUploadRequest | src/iolink_al.c:1215-1223 | an upload request is acted on again by a later set that has none |
| DataStorage.TableFollows | src/iolink_ds.c:641-855 | every row of the table, followed by what its event comes to, is what the specification says, and less is left to do, so the dispatcher ends |
| DataStorage.RowTaken | src/iolink_ds.c:813-855 | taking a row brings the dispatcher nearer the same goal |
| DataStorage.ReadsDigits | src/iolink_ds.c:880-883 | a size or checksum is the number whose base-256 digits, high byte first, are the four bytes read |
| DataStorageUnit.DataStorageUnit.constructor | src/iolink_ds.c:1148-1157 | Data Storage starts without a valid set |
| DataStorageUnit.DataStorageUnit.UploadAction | src/iolink_ds.c:440-480 | the next parameter of the list, or the end of it |
| DataStorageUnit.DataStorageUnit.WriteParamAction | src/iolink_ds.c:520-543 | writes the record at the position, taken off byte by byte |
| DataStorageUnit.DataStorageUnit.Raise | src/iolink_ds.c:813-855 | the dispatcher loop ends, with the state and requests an event comes to |
| DataStorageUnit.DataStorageUnit.ParseIndexList | src/iolink_ds.c:914-945 | the loop reads the list up to index 0 |
| DataStorageUnit.DataStorageUnit.Append | src/iolink_ds.c:946-977 | appends index, subindex, length and data if they fit, and else changes nothing |
| DataStorageUnit.DataStorageUnit.ReadConfirmed | src/iolink_ds.c:858-1019 | the whole new state and the requests after a read, with sizes and checksums as `DataStorage.ReadsDigits` has them |
| DataStorageUnit.DataStorageUnit.WriteConfirmed | src/iolink_ds.c:1021-1063 | the whole new state and the requests after a write |
| DataStorageUnit.DataStorageUnit.Configure | src/iolink_ds.c:1108-1140 | the whole new state after a new configuration |
| DataStorageSafety.AnswerProceeds | src/iolink_ds.c:858-1063 | an answer that the table has a row for leaves one fitting request and less to do, or none and the outcome |
| DataStorageSafety.StepIsSafe | src/iolink_ds.c:641-1063 | no step makes a second AL request while one is pending, and state, request and session always fit |
| DataStorageSafety.RunObeysProtocol | src/iolink_ds.c:641-1063 | in any run, a start is followed only by its end or a break, and parameters are written only inside a download |
| DataStorageSafety.ServicesLeaveTransfersAlone | src/iolink_ds.c:641-753 | startup, upload and delete never change a running transfer |
| DataStorageSafety.ShortChecksumMakesTwoRequests | src/iolink_ds.c:988-998 | two requests at once if and only if the final checksum reply of an upload is too short |
| DataStorageSafety.TransferEndsInOneOutcome | src/iolink_ds.c:295-1063 | every transfer ends within a bounded number of answers, in exactly one DS_Ready or DS_Fault and back in waiting, if and only if no answer swallows the outcome |
| DataStorageSafety.AcceptedEndsInOneOutcome | src/iolink_ds.c:641-1063 | every startup or upload accepted in waiting ends within 5002 answers in exactly one DS_Ready or DS_Fault, if and only if no answer swallows it; a device of another identity is a fault at once |
| DataStorageTransfer.UploadStores | src/iolink_ds.c:440-1019 | after an upload the store is exactly the concatenation of the records that fit, in list order, valid, with identity and the number read as checksum, each asked for once |
| DataStorageTransfer.AllKept | src/iolink_ds.c:946-977 | if all records fit, all are kept |
| DataStorageTransfer.WriteBackNext | src/iolink_ds.c:520-611 | each confirmed write leads to the next record, with the position strictly growing, or to the end |
| DataStorageTransfer.DownloadWritesBack | src/iolink_ds.c:520-620 | a download writes exactly the stored items, in order, between its two commands |
| DataStorageTransfer.RestoreIsBackup | src/iolink_ds.c:440-1063 | a download after an upload writes back what was read, as far as there was room |
| DataStorageTransfer.SizeChecked | src/iolink_ds.c:385-402 | a startup goes on to the state property if and only if the size read is at most 2048 |
| DataStorageTransfer.StartupCompares | src/iolink_ds.c:360-518 | a startup with a valid set leads through the checks of identity, size and state to a download, if and only if the port is configured for one and the number read as checksum differs from the set's |
| DataStorageTransfer.RestoredAtNextStartup | src/iolink_ds.c:440-1063 | from the end of an upload through the checks of the next startup, what is written is what the upload read, as far as there was room |
| DataStorageStartup.StartupDecides | src/iolink_ds.c:360-518 | what every startup asks and comes to: a fault for a missing or too large size, a missing state property or a locked device; an upload if the device asks and the port is configured for it, or if no set is valid; a download if configured and the checksums differ; ready otherwise |
| DataStorageStartup.LockedExactly | src/iolink_ds.c:404-418 | locked is bits 1 and 2 of the state property, an upload request bit 7 |
| DataStorageStartup.StrangerRefused | src/iolink_ds.c:345-383 | a device of another identity than the set's is a fault at once, and nothing is read |
| DataStorageStartup.DeletedIsNotRestored | src/iolink_ds.c:258-271 | after a deletion no startup, with any device, comes to a download |
| DataStorageStartup.BrokenTransferFaults | src/iolink_ds.c:281-328 | an error in a transfer breaks it off, with the fault of its direction once the break is written |
| SystemManagement.ErrorsEndStartup | src/iolink_sm.c:705-713 | an error leads to an inactive port if and only if the device is not being restarted |
| SystemManagement.Progress | src/iolink_sm.c:886-1002 | every confirmation without error brings startup nearer its end |
| SystemManagement.StartupSettles | src/iolink_sm.c:561-1002 | startup settles within 32 confirmations after at most one restart, in the state and with the fault that the device's page calls for; identifiers are the big-endian bytes read |
| SystemManagementExchange.StartupExchange | src/iolink_sm.c:561-1002 | everything a startup emits, in order, within 34 confirmations: the addresses read, MASTER IDENT, for a restart the configured revision, device id bytes and DEVICE IDENT, the second round, and at the end cycle time, 0x9A or 0x99, fault and mode as the verdict calls for |
| SystemManagementExchange.StartupReportsOnce | src/iolink_sm.c:2087-2121 | one mode is requested, once: PREOPERATE for an accepted device and for a fault of one that is not of revision 1.0, OPERATE for an accepted device of revision 1.0 and for one of the wrong identity, INACTIVE for one that is too slow; a fault is reported once |
| SystemManagementExchange.MasterCommands | src/iolink_dl.c:3196-3266 | a mode, and a process data output control, stand for the master command of the specification, and for the same that System Management writes |
| SystemManagementUnit.SystemManagementUnit.constructor | src/iolink_sm.c:2155-2161 | a port starts inactive |
| SystemManagementUnit.SystemManagementUnit.Confirmed | src/iolink_sm.c:1973-2121 | a confirmation keeps what is known of the device true to its page and brings startup nearer its end; what it asks for is in `RunExchange` |
| SystemManagementUnit.SystemManagementUnit.RunStartup | src/iolink_sm.c:561-1002 | the port settles within 32 confirmations after at most one restart, with the verdict its page calls for |
| SystemManagementUnit.SystemManagementUnit.RunExchange | src/iolink_sm.c:561-1002 | the requests, the fault and the mode of a whole startup are exactly those of `SystemManagementExchange.StartupExchange` |
| MSequence.SetType2V | src/iolink_sm.c:1382-1402 | a type 2_V list has the lengths described; legal descriptors always get one |
| MSequence.SetFixedType | src/iolink_sm.c:1519-1609 | with operate code 0: type 0 without process data, 2_1 to 2_4 for one or two octets one way, 2_5 for one each way, 2_V for up to two, 1_1 for more |
| MSequence.SetLegacy | src/iolink_sm.c:1436-1503 | types and lengths of a device of an earlier revision |
| MSequence.SetOperate | src/iolink_sm.c:1504-1663 | types and lengths of a device of revision 1.1, exactly which combinations are accepted, and where the cycle time is not passed on |
| MSequence.PopulateValueList | src/iolink_sm.c:1404-1669 | on-request length 1, 2, 8 or 32 and process data at most 32 for all inputs; types and lengths as described for legal descriptors; exactly when the message fits 64 bytes, and when the cycle time is passed on |
| JobPool.InitiallyConserved | src/iolink_main.c:524-539 | 40 and 10 jobs start in their pools |
| JobPool.StepConserves | src/iolink_main.c:158-337 | every step keeps every job in exactly one place, returns it to its own pool, and keeps the order of posting |
| JobPool.RunConserves | src/iolink_main.c:158-337 | so does every interleaving of threads |
| JobPool.PostNeverFindsMailboxFull | src/iolink_main.c:304-315 | a post never finds the mailbox full |
| JobPool.ReturnNeverFindsPoolFull | src/iolink_main.c:173-238 | a returned job finds room in its pool |
| JobPool.Master.constructor | src/iolink_main.c:524-539 | the pools are full, the mailbox empty |
| JobPool.Master.Fetch | src/iolink_main.c:254-292 | a job is taken from the pool asked for |
| JobPool.Master.PostJob | src/iolink_main.c:304-315 | the job is last in the mailbox |
| JobPool.Master.RunNext | src/iolink_main.c:164-171 | the main thread gets the job posted first |
| JobPool.Master.Return | src/iolink_main.c:182-238 | the job is back in the pool its type names |
| JobReference.TableServes | src/iolink_al.c:514-692 | the rows a request or confirmation leads through give the state and ask the service of the specification in `ApplicationLayer` |
| JobReference.RequestFollowsOnce | src/iolink_al.c:314-403 | a request looks into its job exactly once, served or turned away, and the machine then awaits an event |
| JobReference.OthersFollowNothing | src/iolink_al.c:882-938 | a confirmation or an abort never looks into the saved job |
| JobReference.RowsAreDispatched | src/iolink_al.c:648-692 | rows taken one by one end, after at most two, in the state of the dispatcher loop |
| JobReference.RunningIsNowhereElse | src/iolink_main.c:158-237 | a job that runs is in no pool, no mailbox and with no other thread |
| JobReference.FollowedOnlyWhileRunning | src/iolink_al.c:844-851 | in every interleaving, with other threads between any two rows of the table, the saved job is looked into only while it is the job that runs |
| JobReference.ReferenceOutlivesJob | src/iolink_main.c:216-222 | after the callback the saved reference names a job that is back in its pool |
| JobReference.Machine.constructor | src/iolink_al.c:951-959 | nothing is served and no job saved |
| JobReference.Machine.Raise | src/iolink_al.c:648-692 | the dispatcher loop ends, after the rows of the specification |
| JobReference.Machine.Requested | src/iolink_al.c:844-851 | saves the job, then looks into it once |

## Left out

- Physical layer, MAX14819 driver, OSAL, interrupts and sample applications: the bytes and errors they deliver are inputs.
- Durations: whether the ISDU response time or a cycle timer has run out is an input of the step.
- Interleaved process data (M-sequence type 1_1), and the process data input path.
- The message handler in OPERATE; its rounds are the rounds of the on-request handler.
- Changes of the on-request length during a transfer: it is fixed for one transfer.
- IsduHandler.StepKeepsInv: the 241-byte buffer and the memory a last, partly used segment reaches are one buffer of 257 bytes; that this memory holds the timer, the direction and the Event handler is not modelled, so what is proved of transfers is so of those that `IsduBounds.TransferWithinExactly` finds within the buffer.
- ClientService.ClientServed: a write whose negative response carries more than 241 bytes of data is left out; its error is taken from what an earlier service left in the record.
- IsduSafety.ConfirmedOnce: configuration finds no trigger pending, and parameter services do not overwrite a running transport command.
- DataStorageTransfer.UploadStores: the index list has at most 69 entries and a final index 0, and does not list the index list itself.
- DataStorageSafety.StepIsSafe: a port is configured only while no AL request is pending; SMI_ParServToDS is not modelled.
- DataStorage: rows whose events are never posted (CLEAR, DISABLE, ENABLE_COM, ENABLE_NO_C), and the memory behind the 2048-byte store beyond what a last record could reach.
- DataStorageTransfer.RestoreIsBackup: says nothing of a store whose upload was broken off; the source keeps it valid.
- ApplicationLayer.EveryClientCalledOnce: AL_Abort is modelled only in `JobReference`, and the data link layer confirms each request once.
- AlEvents.EventInd: a seventh event of a set is a precondition here, as it is an assertion in the source.
- SystemManagement: serial number check, operate, fallback and the DI and DO modes; identifiers are put together by addition instead of bitwise or.
- JobPool.StepConserves: the exit message, and the job type of AL_Event_req, for which the main loop has no case; threads post jobs with a type of the pool they took them from.
- MessageHandler.EveryRequestConfirmedOnce: the read of the minimum cycle time that the transceiver answers itself, and changes of mode while no message is under way, in startup and in preoperate.
- MessageHandler.PreoperateKeepsInv: what OPERATE does once a reply has led there, and the confirmation that a lost connection gives a master command.
- Configuration management, process data exchange, on-request data exchange and master identification: small checks of requests.
- Logging, string tables and thread creation.
