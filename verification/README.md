# Quosh: a verified model of local echo, reconnecting sessions and their codecs

Quosh is a remote shell in the manner of Mosh. This project models its three cores and two
smaller ones, and proves what they are for.

**Local echo** (`Frames`, `Overlays`, `Prediction`, `LocalEcho`, and the theorems in
`PredictionInvariants`, `SettledTyping`, `LineSplice`, `EpochOrder`, `EpochGate`, `EpochMoves`, `Painting`,
`CleanCull`, `LineEditor`, `LineEditorRuns`). The predictor is a class whose methods edit overlays in
place; each is proved to compute, on the whole state, a function of `Prediction`. About those
functions it is proved that prediction is exact against an ideal line editor over whole runs,
that the shift loops are an insertion and a deletion in a line, that a prediction is drawn
exactly when its own epoch was confirmed, and that speculation is never taken for evidence.

**The session protocol** (`ClientNet`, `Messages`, `Chains`, `Transport`, `Pending`,
`SessionOwner`, `ClientState`, `ClientRuns`, `ClientExactness`, `QuoshClient`, `Protocol`,
`HandlerRuns`, `Draining`). Client,
transport handler, write queue and owner loop are classes proved against functions. `Protocol` puts them
into one state machine with lossy connections, old and new handlers side by side, full command
queues and lost, repeated and reordered screens, and proves exactly-once delivery in order,
the absence of gaps, that delivery can be completed from every state in which the owner lives,
and the order of screen versions. `ClientExactness` carries the exactness of prediction over to
runs of the client.
`ClientRuns.StepMoves` and `ClientRuns.RecvControlIsRun`, `HandlerRuns` and the owner's arms tie
the objects to that machine: each of their methods, and each turn of their loops, is one or more of
its events or none.

**Buffers and codecs** (`Bytes`, `Framing`, `Feeding`, `Link`, `Utf8`, `ScreenCodec`).
Partial writes and arbitrary reads are invisible; the QS2 screen format round-trips and
accepts no payload that is longer or shorter than it should be.

**Smaller cores**: `Cbor`, the recursive reader of CBOR data items, and `CertChain`, the
rotating certificates that clients pin.

Conventions. A class keeps its state in fields; its `View()` is the value that the
specification functions work on, and each method says what the new view is. Histories that the
program does not keep (bytes handed out, messages accepted, finished chunks) are fields that
only specifications read. Runs are sequences of events; an event whose guard does not hold
does not happen. Sequence numbers, versions, epochs and milliseconds are natural numbers
without wrap-around, except where a codec gives them a width. Parameters stand for what the
program gets from outside: the acts its escape-sequence parser emits for a byte, the clock,
the reading of a compressed screen, the send interval derived from the round-trip time, and
the grid limit `MAX_CELL_COUNT` and the randomness of signatures.

Old handlers. A replaced handler checks that it is current before it reads a frame but not
before it hands over a waiting record; the model lets old handlers do both at any time, and the
theorems hold all the same.

## Model

| member | source | states |
|---|---|---|
| LocalEcho.Predictor.constructor | crates/quosh-predict/src/lib.rs:237-258 | a new predictor has no overlays, epoch 1, nothing confirmed and a send interval of 250 ms |
| LocalEcho.Predictor.NewUserByte | crates/quosh-predict/src/lib.rs:304-353 | one typed byte changes the whole state as `Prediction.NewUserByte` says: reconcile with the display, then apply the acts the parser emits |
| LocalEcho.Predictor.DoAct | crates/quosh-predict/src/lib.rs:310-366 | each act moves, edits or becomes tentative exactly as specified |
| LocalEcho.Predictor.InitCursor | crates/quosh-predict/src/lib.rs:376-404 | a cursor overlay of the current epoch exists afterwards, started at the newest one or at the frame cursor |
| LocalEcho.Predictor.Backspace | crates/quosh-predict/src/lib.rs:406-476 | the in-place left shift computes the whole new state of `Prediction.BackspaceKey` |
| LocalEcho.Predictor.EraseCells | crates/quosh-predict/src/lib.rs:428-475 | the shifting loop of a backspace, with and without overwrite |
| LocalEcho.Predictor.PredictChar | crates/quosh-predict/src/lib.rs:478-570 | a typed character: refused range, insertion before the last column, or the wrap |
| LocalEcho.Predictor.ShiftRight | crates/quosh-predict/src/lib.rs:498-539 | the loop that moves overlays right, from the right end: every cell takes what its left neighbour showed |
| LocalEcho.Predictor.TypeCells | crates/quosh-predict/src/lib.rs:494-560 | the row of the cursor after the shift and the typed cell |
| LocalEcho.Predictor.WrapChar | crates/quosh-predict/src/lib.rs:491-570 | a character in the last column starts two epochs and jumps to the next line |
| LocalEcho.Predictor.NewlineCarriageReturn | crates/quosh-predict/src/lib.rs:572-598 | cursor to column 0 of the next row, or the bottom row blanked when it scrolls |
| LocalEcho.Predictor.BlankRow | crates/quosh-predict/src/lib.rs:588-594 | every cell of the bottom row predicted blank |
| LocalEcho.Predictor.GetOrMakeRow | crates/quosh-predict/src/lib.rs:773-787 | finds the row overlay or appends a fresh one of the right width |
| LocalEcho.Predictor.KillEpoch | crates/quosh-predict/src/lib.rs:600-623 | drops cursors and cells of the epoch and later ones, and starts from the confirmed cursor |
| LocalEcho.Predictor.UpdateTriggers | crates/quosh-predict/src/lib.rs:638-653 | display triggers with their hysteresis |
| LocalEcho.Predictor.Credit | crates/quosh-predict/src/lib.rs:675-688 | what a confirmed cell does to the confirmed epoch and the glitch repair |
| LocalEcho.Predictor.CullCell | crates/quosh-predict/src/lib.rs:662-709 | one cell judged: kept, credited, cleared, its epoch killed or everything reset |
| LocalEcho.Predictor.CullRow | crates/quosh-predict/src/lib.rs:657-711 | one row of cells judged in reading order, up to the first that abandons everything |
| LocalEcho.Predictor.CullRows | crates/quosh-predict/src/lib.rs:655-712 | all rows, taken out of the object while they are walked |
| LocalEcho.Predictor.CullCursors | crates/quosh-predict/src/lib.rs:714-722 | a refuted newest cursor resets everything, otherwise only waiting cursors stay |
| LocalEcho.Predictor.Cull | crates/quosh-predict/src/lib.rs:627-723 | the whole reconciliation equals `Prediction.Cull` |
| LocalEcho.Predictor.Apply | crates/quosh-predict/src/lib.rs:726-744 | the painted frame equals `Prediction.Apply` |
| LocalEcho.Predictor.Active | crates/quosh-predict/src/lib.rs:293-300 | true exactly when some cursor or active cell overlay exists |
| PredictionInvariants.DoActOrdered | crates/quosh-predict/src/lib.rs:304-366 | typing keeps the shape and the order: rows distinct and as wide as the screen, cursors in bounds with nondecreasing deadlines, no active cell due after the newest cursor |
| PredictionInvariants.KillEpochOrdered | crates/quosh-predict/src/lib.rs:600-623 | killing an epoch keeps that invariant |
| PredictionInvariants.CullCellOrdered | crates/quosh-predict/src/lib.rs:662-709 | judging one cell keeps it |
| PredictionInvariants.CullValid | crates/quosh-predict/src/lib.rs:627-723 | reconciliation keeps it, and afterwards every overlay is on the screen and waits for an unacknowledged message |
| PredictionInvariants.NewUserByteValid | crates/quosh-predict/src/lib.rs:304-353 | so does a typed byte |
| PredictionInvariants.ActiveMeansCursor | crates/quosh-predict/src/lib.rs:293-300 | without a cursor overlay there is no active cell overlay |
| PredictionInvariants.SpeculationIsNoEvidence | crates/quosh-predict/src/lib.rs:304-309 | once every overlay waits, reconciling with any frame of the same size, the speculative display included, confirms and refutes nothing |
| SettledTyping.DoActSettled | crates/quosh-predict/src/lib.rs:304-598 | every overlay that an act creates waits for the message being typed |
| SettledTyping.KeystrokeSettled | crates/quosh-predict/src/lib.rs:304-353 | the reconciliation at the start of a keystroke resolves nothing, and afterwards every overlay still waits |
| LineSplice.InsertSplices | crates/quosh-predict/src/lib.rs:498-560 | seen as a line, typing yields what was left of the column, the character, and the rest one to the right, the last column unknown, over any mix of active, inactive and unknown cells |
| LineSplice.DeleteSplices | crates/quosh-predict/src/lib.rs:439-475 | backspace yields the line without the character, the last two columns unknown |
| LineSplice.TypingRewrites | crates/quosh-predict/src/lib.rs:478-565 | typing changes the cursor row and the cursor and no other row |
| LineSplice.ErasingRewrites | crates/quosh-predict/src/lib.rs:406-476 | backspace changes the cursor row and the cursor and no other row |
| LineSplice.BackspaceUndoesTyping | crates/quosh-predict/src/lib.rs:406-570 | a character typed and taken back restores cursor and line, but for the last two columns, even if the display was repainted in between |
| EpochGate.CorrectIsEvidence | crates/quosh-predict/src/lib.rs:109-141 | a cell is judged correct if and only if it is due, known, visible, shown by the frame and different from everything it replaced |
| EpochGate.StepConfirms | crates/quosh-predict/src/lib.rs:675-679 | the confirmed epoch never falls, and rises only to an epoch for which the screen gave such evidence in that step |
| EpochGate.RunConfirmsMonotonically | crates/quosh-predict/src/lib.rs:675-679 | over any run it is nondecreasing, and never ahead of the prediction epoch when the state was valid and nobody took back how many messages were typed |
| EpochGate.UnconfirmedStaysDark | crates/quosh-predict/src/lib.rs:142-165 | as long as no screen confirms anything of an epoch or a later one, every frame is drawn as if none of their overlays existed |
| EpochOrder.DoActGrows | crates/quosh-predict/src/lib.rs:304-598 | whatever an act predicts is due with the message being typed and belongs to the present epoch or a later one |
| EpochOrder.CullKeeps | crates/quosh-predict/src/lib.rs:627-723 | if live overlays are due in the order of their epochs and none is older than the confirmed epoch, that is so after a reconciliation: confirming an epoch leaves nothing older behind |
| EpochOrder.TypingKeeps | crates/quosh-predict/src/lib.rs:304-366 | and after a keystroke |
| EpochGate.StepInOrder | crates/quosh-predict/src/lib.rs:304-723 | every operation of the predictor keeps that order |
| EpochGate.TrustedByOwnEpoch | crates/quosh-predict/src/lib.rs:674-679 | after any run a live overlay is not tentative if and only if some screen, in the run or before it, confirmed a prediction of its own epoch, which is then the newest confirmed one |
| EpochGate.DrawnByOwnEpoch | crates/quosh-predict/src/lib.rs:142-165 | so every frame is drawn as if the overlays of all other epochs did not exist |
| EpochGate.DrawnOnlyWhenConfirmed | docs/12-prediction.md:121-125 | from a start without overlays, a prediction is drawn if and only if a screen of the run confirmed a prediction of its own epoch |
| EpochMoves.NewlineRows | crates/quosh-predict/src/lib.rs:572-598 | a new line touches no row, except that the bottom row is predicted to scroll away blank unless it holds a link |
| EpochMoves.EnterStartsAnEpoch | crates/quosh-predict/src/lib.rs:328-331 | after Enter the cursor is at the start of the next line, in an epoch later than every overlay so far, and hidden until a screen confirms something as late |
| EpochMoves.WrapMovesCursor | crates/quosh-predict/src/lib.rs:561-570 | a character in the last column sends the cursor to the next line two epochs on, hidden |
| EpochMoves.WrapTypesCell | crates/quosh-predict/src/lib.rs:491-560 | and the last column is known to show the character, one epoch on, the rest of the line as it was |
| EpochMoves.KilledEpochIsGone | crates/quosh-predict/src/lib.rs:600-623 | a refuted epoch and all later ones disappear, earlier overlays stay untouched, and a cursor starts again where the screen has it, in an epoch still to be confirmed |
| EpochMoves.RepairIsPaced | crates/quosh-predict/src/lib.rs:680-706 | a screen repairs at most one glitch token however much it confirms, none within 150 ms of the last repair, and there are never more than 20 |
| Painting.Applied | crates/quosh-predict/src/lib.rs:142-165 | each position of a painted frame in terms of the one overlay over it, and its cursor: that of the newest cursor overlay that is not tentative, else of the frame; all as in the frame when predictions are not shown |
| CleanCull.NothingRefuted | crates/quosh-predict/src/lib.rs:627-723 | reconciling with a frame that refutes no overlay removes exactly the due ones and keeps the rest: cells in the rendition of the server, cursors in order |
| LineEditor.InsertFaithful | crates/quosh-predict/src/lib.rs:478-552 | typing keeps the overlays in step with an ideal line editor |
| LineEditor.RuboutFaithful | crates/quosh-predict/src/lib.rs:406-476 | so does backspace |
| LineEditor.ActFaithful | crates/quosh-predict/src/lib.rs:304-366 | so does every key |
| LineEditorRuns.KeyMidway | crates/quosh-predict/src/lib.rs:304-353 | one key, from its reconciliation with the display to its edit |
| LineEditorRuns.ScreenAgrees | crates/quosh-predict/src/lib.rs:109-141 | a screen that shows the editor after a message no older than the acknowledged one refutes no cell overlay and no cursor overlay |
| LineEditorRuns.ScreenGood | crates/quosh-predict/src/lib.rs:627-723 | and what reconciliation leaves is still in step |
| LineEditorRuns.NeverRefuted | crates/quosh-predict/src/lib.rs:304-723 | against an ideal one-row line editor no reconciliation ever judges an overlay wrong, cell or cursor, for every interleaving of messages with late, skipped and partly acknowledged screens, ticks, link speeds and resets |
| LineEditorRuns.ClearedExact | crates/quosh-predict/src/lib.rs:287-291 | the one condition is on resets: dropping all overlays keeps the hypothesis of the run theorem if and only if the editor has not changed since the acknowledged message |
| LineEditorRuns.ShowsTheFuture | docs/12-prediction.md:14-21 | once its epoch is trusted, the display shows the line and cursor the remote will show after everything typed, but for columns known to be unknown |
| LineEditorRuns.FirstScreen | crates/quosh-predict/src/lib.rs:237-258 | a new predictor that has seen one screen satisfies the hypothesis of the run theorem |
| Framing.SplitEncoded | crates/quosh-proto/src/lib.rs:208-242 | an encoded frame is cut off again, whatever follows |
| Framing.SplitPartial | crates/quosh-proto/src/lib.rs:217-228 | an incomplete legal frame is waited for, never refused |
| Framing.SplitInverts | crates/quosh-proto/src/lib.rs:219-242 | conversely whatever is cut off was legal and is what its bytes encode |
| Framing.ParseInChunks | crates/quosh-proto/src/lib.rs:230-242 | parsing what arrived and later the rest is parsing it at once |
| Framing.ChunkingIsInvisible | crates/quosh-client/src/lib.rs:232-243 | for every split of the stream into reads exactly the frames sent come out, in order, and exactly the unfinished tail is kept |
| Framing.ParseConserves | crates/quosh-proto/src/lib.rs:230-242 | frames and rest together are the bytes |
| Framing.Receiver.TakeFrame | crates/quosh-proto/src/lib.rs:230-242 | one frame cut off a buffer in place |
| Framing.Receiver.Receive | crates/quosh-client/src/lib.rs:236-241 | the receive loop computes the whole parse |
| Feeding.OutBuf.Queue | crates/quosh-proto/src/lib.rs:20-22 | bytes join the back of the buffer |
| Feeding.OutBuf.AdvanceBy | crates/quosh-proto/src/lib.rs:49-58 | written bytes leave the front; more than there are empty it |
| Feeding.FrameFeed.PumpNext | crates/quosh-proto/src/lib.rs:76-92 | an idle stream starts the next control frame, else the screen, else the last frame |
| Feeding.FrameFeed.Screened | crates/quosh-proto/src/lib.rs:94-97 | a newer screen replaces one that waits |
| Feeding.FrameFeed.Controlled | crates/quosh-proto/src/lib.rs:102-114 | a control frame is taken when nothing waits, else within the byte cap; the result says which |
| Feeding.FrameFeed.Finish | crates/quosh-proto/src/lib.rs:116-121 | the last frame discards queued control frames |
| Feeding.FrameFeed.Written | crates/quosh-proto/src/lib.rs:135-138 | written bytes leave and the next frame starts |
| Feeding.StepValid | crates/quosh-proto/src/lib.rs:73-139 | each operation keeps bytes out a prefix of whole frames, the control byte count exact and capped, nothing queued on an idle stream, and changes the control frames taken by exactly the one it accepted |
| Feeding.FeedIsALog | crates/quosh-proto/src/lib.rs:73-139 | over any run the bytes out are a prefix of whole frames, and accepted control frames leave once, in order, unless a last frame discarded them |
| Feeding.ScreenBeforeFinal | crates/quosh-proto/src/lib.rs:76-121 | in any run a last frame is started only when no screen and no control frame waits, and the screen that left before it is the newest one pushed, however late |
| Feeding.FinalDrains | crates/quosh-proto/src/lib.rs:85-91 | once only writes follow, exactly the pending screen and then the last frame go out, however the bytes are written |
| Link.NextSound | crates/quosh-proto/src/lib.rs:73-242 | a send, a write of any size or the arrival of any part keeps the stream sound |
| Link.StreamIsAQueue | crates/quosh-proto/src/lib.rs:73-242 | end to end, feed, wire and receive buffer are a first-in first-out queue of frames |
| Messages.InputRoundTrip | crates/quosh-proto/src/lib.rs:312-327 | an input message is read back as sent, if its number fits 64 bits |
| Messages.NumberRoundTrip | crates/quosh-proto/src/lib.rs:374-387 | so is an acknowledgement |
| Messages.ResizeRoundTrip | crates/quosh-proto/src/lib.rs:329-344 | so is a resize, if its axes fit 16 bits |
| Messages.InputIsLegal | crates/quosh-proto/src/lib.rs:312-317 | every input a client may queue makes a frame below the frame limit |
| Pending.PendingWrites.Input | crates/quosh-server/src/session.rs:50-61 | queues a numbered chunk or refuses it at the hard cap, and keeps the byte count exact |
| Pending.PendingWrites.Generated | crates/quosh-server/src/session.rs:65-88 | replies join a reply chunk at the back or start one; an empty reply queues nothing |
| Pending.PendingWrites.Advance | crates/quosh-server/src/session.rs:98-117 | written bytes finish the first chunks and enter the next, and exactly the numbers of finished messages are recorded, in order |
| Pending.AdvanceShape | crates/quosh-server/src/session.rs:98-117 | the finished chunks are the first ones, the next one is entered, and the others are untouched |
| Pending.AdvanceEchoAck | crates/quosh-server/src/session.rs:122-142 | the checkpoint becomes the newest message finished at least 50 ms ago and the settled ones leave the history |
| Pending.AdvanceConserves | crates/quosh-server/src/session.rs:98-117 | writing takes exactly the written bytes off the front of what remains |
| Pending.PushGeneratedValid | crates/quosh-server/src/session.rs:65-88 | replies go behind everything queued; unread stays the number of remaining bytes |
| Pending.UnreadMeansWork | crates/quosh-server/src/session.rs:90-95 | unread bytes exist if and only if the write buffer is non-empty |
| Pending.GuardedPushSucceeds | crates/quosh-server/src/session.rs:410-415 | below the soft limit an input of legal size is never refused |
| SessionOwner.OwnerLoop.OnInput | crates/quosh-server/src/session.rs:409-419 | only the next number is taken; the failing branch cannot be reached |
| SessionOwner.OwnerLoop.OnOutput | crates/quosh-server/src/session.rs:373-394 | replies are queued and a screen published, or the session ends at the hard cap |
| SessionOwner.OwnerLoop.OnWritten | crates/quosh-server/src/session.rs:395-405 | the whole owner state after a partial write |
| SessionOwner.OwnerLoop.OnSettle | crates/quosh-server/src/session.rs:456-465 | the checkpoint advances and the frame is published again only if it moved |
| SessionOwner.OwnerLoop.PublishFrame | crates/quosh-server/src/session.rs:499-515 | the next version carries the present checkpoint |
| SessionOwner.NextValid | crates/quosh-server/src/session.rs:355-467 | every arm of the loop keeps the byte, echo and screen invariants |
| SessionOwner.OwnerRuns | crates/quosh-server/src/session.rs:327-475 | over any run the checkpoint, the accepted messages and the screens only grow, and accepting input never ends the session |
| SessionOwner.TerminalGetsInputsInOrder | crates/quosh-server/src/session.rs:36-118 | written plus remaining bytes are all chunks in order; without the replies these are exactly the accepted messages, numbered from 1 |
| SessionOwner.EchoedIsWritten | crates/quosh-server/src/session.rs:26-28 | a message at or below the checkpoint, and each before it, was written to its last byte at least 50 ms earlier |
| SessionOwner.PublishedEcho | crates/quosh-server/src/session.rs:499-515 | no published screen carries a checkpoint beyond what was accepted |
| Transport.Session.ClaimTransport | crates/quosh-server/src/session.rs:231-236 | each transport gets a number of its own |
| Transport.Session.Acknowledge | crates/quosh-server/src/session.rs:248-250 | the acknowledged version is a maximum |
| Transport.Session.OfferInput | crates/quosh-server/src/session.rs:260-272 | queued, busy at 32 commands, or refused when empty, too long or closed |
| Transport.Session.OfferResize | crates/quosh-server/src/session.rs:274-281 | the same for a resize within the legal sizes |
| Transport.Session.OfferAck | crates/quosh-server/src/session.rs:283-286 | an acknowledgement counts even when the queue is full |
| Transport.Handler.Control | crates/quosh-server/src/transport.rs:414-461 | every kind of control frame, from a current or a replaced handler |
| Transport.Handler.ReadFrames | crates/quosh-server/src/transport.rs:355-378 | the whole effect of draining the receive buffer |
| Transport.Handler.HandOver | crates/quosh-server/src/transport.rs:380-391 | the whole effect of draining waiting records |
| Transport.Handler.BytesWaiting | crates/quosh-server/src/transport.rs:347-353 | the cost of the waiting records, 32 bytes each besides their data |
| Transport.Handler.Leave | crates/quosh-server/src/transport.rs:327-335 | the last screen goes ahead of the exit, and a replaced handler sends neither |
| Transport.DrainConserves | crates/quosh-server/src/transport.rs:355-378 | inputs move from buffer to queue in order and none is lost; draining stops only when replaced, short of a frame, or at an input over the cap |
| Transport.DrainBounded | crates/quosh-server/src/transport.rs:351-370 | the queue never exceeds its cap by more than one record |
| Transport.BusyGoesInOrder | crates/quosh-server/src/transport.rs:380-391 | exactly as many records as the desk has room for are handed over, from the front, each once |
| QuoshClient.Client.constructor | crates/quosh-client/src/lib.rs:94-133 | the new client |
| QuoshClient.Client.PumpOut | crates/quosh-client/src/lib.rs:169-186 | sends a pending acknowledgement, then the first unsent message if nothing is in flight, and marks each as sent only if the feed took it |
| QuoshClient.Client.BeginConnection | crates/quosh-client/src/lib.rs:198-219 | a new transport replays from the start: nothing counts as sent, the unacknowledged messages stay |
| QuoshClient.Client.ApplyScreen | crates/quosh-client/src/lib.rs:349-359 | a newer screen judges the predictions and is then shown |
| QuoshClient.Client.ApplySharedScreen | crates/quosh-client/src/lib.rs:319-347 | stale screens are ignored, an older context is an error, a changed one drops all predictions first |
| QuoshClient.Client.HandleFrame | crates/quosh-client/src/lib.rs:245-304 | every kind of control frame |
| QuoshClient.Client.RecvControl | crates/quosh-client/src/lib.rs:232-243 | every complete frame of the buffer is handled in order, until one is fatal |
| QuoshClient.Client.RecvDatagram | crates/quosh-client/src/lib.rs:306-317 | shared and ordinary datagrams; what cannot be used is ignored |
| QuoshClient.Client.DropAcked | crates/quosh-client/src/lib.rs:271-275 | exactly the messages newer than the acknowledgement stay |
| QuoshClient.Client.QueueInput | crates/quosh-client/src/lib.rs:362-366 | the next number, the prediction, and the message at the end of the unacknowledged ones |
| QuoshClient.Client.FeedPredict | crates/quosh-client/src/lib.rs:368-390 | message `seq` is predicted to be due at `seq`; pasted text drops predictions; a context that forbids them has none |
| QuoshClient.Client.Reset | crates/quosh-client/src/lib.rs:227-230 | predictions and display are dropped, the screen is kept |
| QuoshClient.Client.SetSize | crates/quosh-client/src/lib.rs:392-398 | a resize is sent while connected |
| QuoshClient.Client.RequestHangup | crates/quosh-client/src/lib.rs:402-405 | the hang-up is the last frame |
| QuoshClient.Client.OnTick | crates/quosh-client/src/lib.rs:407-442 | reconciles if predictions are active, pumps, and pings when due |
| QuoshClient.Client.RefreshDisplay | crates/quosh-client/src/lib.rs:444-452 | the display is the screen with the predictions painted on, or nothing |
| ClientRuns.StepSane | crates/quosh-client/src/lib.rs:169-452 | every operation, and every single frame of a read, keeps: predictor well-formed, every overlay waiting, display equal to recomputation, policy obeyed |
| ClientRuns.RecvControlIsRun | crates/quosh-client/src/lib.rs:232-243 | one read of the reliable stream is a run over the complete frames of the buffer, up to a fatal one: it keeps all that, makes only moves of the session protocol, lets no prediction epoch fall, and leaves no overlay of another context |
| ClientRuns.DisplayIsRecomputed | crates/quosh-client/src/lib.rs:444-452 | after any run the cached display equals applying the predictions to the confirmed frame, and equals the confirmed frame when prediction is off or disallowed |
| ClientRuns.TypingResolvesNothing | crates/quosh-client/src/lib.rs:368-390 | in every client run the reconciliation inside each keystroke, run on the speculative display, resolves no overlay |
| ClientRuns.DisallowedHasNone | crates/quosh-client/src/lib.rs:368-371 | after any run a context that forbids prediction has no overlay |
| ClientRuns.StaleChangesNothing | crates/quosh-client/src/lib.rs:294-336 | on every path, control frame or datagram, shared or ordinary: a screen that is not newer, has a regressing epoch, or lacks the context of a shared session changes nothing at all, and any other becomes the confirmed one |
| ClientRuns.StepContext | crates/quosh-client/src/lib.rs:333-344 | in every step the prediction epoch stays or rises, and a changed context leaves no overlay of another one |
| ClientRuns.ContextNeverRegresses | crates/quosh-client/src/lib.rs:327-344 | over any run the prediction epoch never regresses |
| ClientRuns.StepMoves | crates/quosh-client/src/lib.rs:169-366 | in every step the client makes one of the moves of the session protocol; screens, contexts and reconnects leave `unacked` alone |
| ClientRuns.RunMoves | crates/quosh-client/src/lib.rs:169-366 | and so does every step of every run |
| ClientRuns.PumpSends | crates/quosh-client/src/lib.rs:169-186 | the frames a pump hands to the feed are exactly an acknowledgement and the first unsent message, each marked as sent if and only if it was taken; an input is handed to an idle feed only and is in flight at once, so a last frame discards none |
| ClientExactness.StepFollows | crates/quosh-client/src/lib.rs:169-452 | while the user of a client edits one remote line, every event of the client moves its predictor as the runs against the line editor have it: a message its keys, a screen of another context a reset and a screen, a stale screen nothing |
| ClientExactness.ClientNeverRefuted | crates/quosh-client/src/lib.rs:345-390 | so in every such run of the client no reconciliation judges an overlay wrong |
| ClientExactness.ClientShowsTheFuture | crates/quosh-client/src/lib.rs:444-452 | and once its predictions are trusted and shown, the display of the client is the line and cursor the remote will show, but for columns known to be unknown |
| ClientExactness.FirstScreenFollows | crates/quosh-client/src/lib.rs:349-360 | the first screen puts a client there, whatever was typed before it, if the editor has not changed since the message that the screen acknowledges |
| ClientNet.NewestWins | crates/quosh-proto/src/lib.rs:499-506 | the newest of any list of screens wins, whatever their order and repetition |
| Chains.Move | crates/quosh-server/src/transport.rs:380-391 | handing a message from a gapless stream to the queue it continues leaves both gapless |
| Chains.Take | crates/quosh-server/src/session.rs:409-419 | taking or dropping the first command leaves the queue gapless above the new last number |
| Chains.Extend | crates/quosh-client/src/lib.rs:181-185 | sending a message within reach keeps a stream gapless |
| Chains.ExtendOnlyIf | crates/quosh-client/src/lib.rs:181-185 | and only such a message does |
| HandlerRuns.DrainIsReads | crates/quosh-server/src/transport.rs:355-378 | draining the receive buffer never fails and is a run of the protocol: one read for each frame taken |
| HandlerRuns.HandOverIsEvents | crates/quosh-server/src/transport.rs:380-391 | draining the waiting records is a run of the protocol: one hand-over for each record there is room for, whether or not the handler was replaced |
| Protocol.DoKeeps | crates/quosh-client/src/lib.rs:169-219 | every event, of client, handlers or owner, keeps the invariant: no gap above what is accepted, nothing sent on a living connection lost, acknowledgements and versions never ahead |
| Protocol.ExactlyOnce | crates/quosh-client/src/lib.rs:271-275 | in every run the accepted messages are the first ones queued, each once, in order, and every message is accepted or still unacknowledged at the client |
| Protocol.NoGap | crates/quosh-server/src/session.rs:409-419 | every input the owner takes off its queue is the next one or exactly a duplicate |
| Protocol.QuietMeansDone | crates/quosh-server/src/transport.rs:190-221 | when every queue of a live connection is drained, nothing is unacknowledged and everything typed was accepted |
| Protocol.TerminalHasAll | crates/quosh-server/src/session.rs:395-405 | and once the owner has written its queue, the terminal has got exactly what was typed, with replies only between messages |
| Draining.TurnWorks | crates/quosh-server/src/transport.rs:355-391 | while the connection works and something is left to do, the piece of work nearest to the terminal can be done, and then strictly less is left |
| Draining.CanFinish | crates/quosh-client/src/lib.rs:169-219 | so finitely many steps without a keystroke, a connection or a failure bring about that everything typed has reached the terminal and the client knows it was accepted |
| Draining.ReconnectFinishes | docs/03-protocol.md:20 | whatever was lost before, opening a connection and its handshake suffice for that, as long as the owner lives and the client did not hang up |
| Protocol.ScreenSandwich | crates/quosh-server/src/session.rs:248-250 | last acknowledged version, client version and owner version are in that order, and the client shows the frame and checkpoint published under its version |
| Protocol.BehindMeansResync | crates/quosh-server/src/transport.rs:260-266 | while the client is behind, the guard on repeating the newest screen is open, and its arrival brings the client up to date |
| Protocol.EchoWithinSent | crates/quosh-server/src/session.rs:499-515 | no screen acknowledges a message the client has not queued, which `ClientRuns` assumes |
| ScreenCodec.Decode | crates/quosh-proto/src/lib.rs:537-611 | the cursor-driven decoder accepts and refuses exactly as specified, with the same errors |
| ScreenCodec.ReadEntriesAt | crates/quosh-proto/src/lib.rs:589-602 | the loop over overflow entries |
| ScreenCodec.RoundTrip | crates/quosh-proto/src/lib.rs:508-611 | every screen in range comes back with its texts cut to 65535 bytes; with short UTF-8 texts it comes back unchanged |
| ScreenCodec.AsciiTitleExact | crates/quosh-proto/src/lib.rs:518-521 | a plain title survives if and only if it is at most 65535 bytes |
| ScreenCodec.ExactLength | crates/quosh-proto/src/lib.rs:603-605 | no accepted payload is a proper prefix of another: a byte more or less is refused |
| ScreenCodec.CompressedRoundTrip | crates/quosh-proto/src/lib.rs:478-497 | a compressed screen is read back if and only if its raw form is within 8 MiB |
| ScreenCodec.OrdinaryIsNotShared | crates/quosh-proto/src/lib.rs:183-185 | what decodes as an ordinary screen never starts with the shared magic |
| ScreenCodec.SharedRoundTrip | crates/quosh-proto/src/lib.rs:442-476 | policy and screen of a shared screen are read back together |
| Cbor.ReadPrinted | crates/quosh-server/src/webauthn.rs:325-378 | every tree the writer can print is recovered, whatever follows it |
| Cbor.ReadExtends | crates/quosh-server/src/webauthn.rs:325-378 | bytes behind an item change nothing but the rest |
| Cbor.ReadSuffix | crates/quosh-server/src/webauthn.rs:325-378 | what is left is the buffer without a non-empty prefix |
| Cbor.CutShortFails | crates/quosh-server/src/webauthn.rs:302-378 | a printed item cut short anywhere is refused |
| Cbor.HeadRoundTrip | crates/quosh-server/src/webauthn.rs:472-487 | a head is read back if and only if its argument fits 32 bits; a larger one is cut off to its low 32 bits |
| Cbor.NegativeExact | crates/quosh-server/src/webauthn.rs:332 | a negative integer means what it says if and only if its argument fits 63 bits |
| CertChain.CertStore.Lookup | crates/quosh-trust/src/lib.rs:115-135 | the cached certificate, or the one on disk, or a new one |
| CertChain.CertStore.LoadOrGenerate | crates/quosh-trust/src/lib.rs:137-161 | a minted certificate is written, then old files are pruned |
| CertChain.Directory.RemoveBefore | crates/quosh-trust/src/lib.rs:165-183 | exactly the files of epochs before the previous one go |
| CertChain.CertStore.LookupMany | crates/quosh-trust/src/lib.rs:92-94 | the certificates of a window, in order, the clock read anew for each |
| CertChain.CertStore.constructor | crates/quosh-trust/src/lib.rs:70-96 | a start keeps the directory and its anchor, clamps the length to 1..64 and tops up the window, the clock read anew for each certificate |
| CertChain.CertStore.ForwardHashes | crates/quosh-trust/src/lib.rs:197-202 | the hashes of the current and the following epochs, the clock read anew for each |
| CertChain.CurrentWindow | crates/quosh-trust/src/lib.rs:99-110 | the current certificate is valid now if and only if the clock is at most five minutes behind the anchor |
| CertChain.Overlap | crates/quosh-trust/src/lib.rs:107-110 | a certificate stays valid through its epoch and a day less the slack into the next |
| CertChain.PinsSurvive | crates/quosh-trust/src/lib.rs:112-183 | over any run of lookups and restarts with a clock that never goes back, the certificate of every epoch that can still be served is what it was |
| CertChain.ServedIsPinned | crates/quosh-trust/src/lib.rs:185-202 | the certificate served is valid and among the hashes handed out less than `len` epochs ago, whatever happened in between |

## Left out

- QUIC, sockets, `select!`, process and terminal handling, signals and file permissions: replaced by events and by a map for the directory; a write or a connection may stop at any point.
- The handshake and authentication (`auth.rs`, `enroll.rs`, `devices.rs`, `helper.rs`), banners, titles, painting as escape sequences, the browser client and the command line: user interface and glue.
- The inside of `vte`, `unicode-width`, the terminal emulator, LZ4, ECDSA and SHA-256, which the repository takes from elsewhere: LZ4 is any lossless compressor behind a size prefix, a certificate stands for its hash.
- Frames.Cell: a cell is a record of style, two width flags and content instead of twelve bytes; colours beyond `copy_renditions` keeping the text are not modelled.
- Frames.Frame: the cursor is inside a non-empty grid, as `Emulator::snapshot` clamps it; the predictor is not modelled on other frames.
- LocalEcho.Predictor.Cull: the `retain` that drops rows beyond the screen is not repeated, because the resize before it leaves none.
- LocalEcho.Predictor.NewUserByte: the rewriting of an SS3 prefix to CSI and the direct treatment of DEL happen before the escape-sequence parser, and are part of the acts that stand for its output.
- QuoshClient.Client.BeginConnection: the times of the last byte and of the last ping, and the outage banner, are not part of the model.
- QuoshClient.Client.HandleFrame: the smoothing of the round-trip time is floating point and left out; the resulting interval is a parameter. The time of the last byte is not kept.
- QuoshClient.Client.OnTick: whether a ping is due is a parameter; the detection of a dead link and the outage banner are left out.
- Protocol: bytes are not modelled there, because `Link.StreamIsAQueue` shows that a control stream is a queue of messages; a hang-up discards queued control frames, but an input is handed only to an idle feed and is never among them. Screens are modelled as arriving or not, on either path, in any order, which is more than the feed allows. It is not claimed that the acknowledged version catches up, since a client does not acknowledge again a screen it already holds.
- Transport.Handler: the arms of the outer loop are events of `Protocol`; waiting for more input while the queue is full is a guard on the event that reads.
- SessionOwner.OwnerLoop: the final drain of terminal output after the loop is not modelled, only the screen published after it.
- Transport.LegalSize: the limit on the number of cells is a parameter, since its value is not in this repository.
- ScreenCodec.RoundTrip: reading text that is not UTF-8 is any function that leaves UTF-8 alone.
- Cbor.ReadCbor: the limits of the machine's stack on deeply nested items are not modelled.
- CertChain: the identity key, its legacy migration and the atomic writing of files are left out; files are assumed to hold what was written.
- Listing, attaching and reaping of idle sessions: these filter a list and compare timers.
