# Verified models of Xfuzz

A Dafny 4.11 model of the parts of Xfuzz whose correctness rests on a loop invariant, an interleaving
or a byte encoding, with proofs of what those parts promise. `dafny verify dfyconfig.toml` checks it
all. Each module follows one component:

| module | component |
|---|---|
| Tracer | the one-shot breakpoint tracer: a patched machine simulating the original one |
| Relocation | the same blocks reported wherever a program and its libraries are loaded |
| Bus, Lives | the lossy, coalescing event bus, one subscription under every interleaving, and the life of each event on it |
| CallTable, Answers | DevTools calls and replies: many callers, one reader, and how each call ends |
| AuditLog, Ledger | the hash-chained audit log, its length-prefixed encoding, and what a verified log is |
| WebSocket, WireFormat, Endings | RFC 6455 framing and reassembly, what is on the wire bit by bit, and every way in which reading ends |
| Seccomp | the denylist-to-BPF compiler against an interpreter |
| Scope, PublicBlocks | CIDR ranges, the public-address test against a table of blocks, and the scope guard |
| EventStream, StreamLines | server-sent events (WHATWG HTML Living Standard, section 9.2.6), from the server's loop to the client's callback, and line by line |
| Series, Resolution | the multi-resolution metrics series, and what each level holds in numbers |
| Tails | two "last n bytes" buffers against one specification |
| CorpusSync, Journeys | deduplication, queueing and fan-out of discoveries, and the way of each digest |
| Trim, Selecting | trimming, and what it finds |
| Substitution, Stages, Drawing | comparison operands, the execution budget across stages, and how far each stage goes |
| Attained | runs that end exactly at the budget's limits |
| Words | machine words and numbers as bytes |

Code that changes state is a class or a loop proved against a function of the old state; the
properties are lemmas about those functions, over all inputs, runs or interleavings. The outside world
is a parameter: the processor and kernel of a traced program are a machine given by functions, the
hash is any function whose digests are not empty, the fuzzing target and the clock are a tape of
answers, and concurrent components take one step per locked region.

Where the code does less than its comments say, the code is modelled as it is and the exact condition
under which it does what they say is proved:

- A breakpoint still planted when the traced image is replaced stays in the map, and a trap of the new
  image at that address is taken for it. The report is right if and only if no run of a replacing
  image meets one (`Tracer.Session.TraceRun`; it happens in `Tracer.StaleBreakpoint`, and cannot under
  conditions to be checked before the run, `Tracer.NeverStaleBeforehand`).
- `Validate`'s two-endpoint test lets through prefixes that contain public addresses. They are exactly
  0.0.0.0/0, 0.0.0.0/1, 192.0.0.0/2, their IPv4-mapped forms, ::/0, ::/80 and fc00::/6
  (`Scope.EndpointTestExact`); a public destination is permitted if and only if a rule with an
  admissible port has one of those that is not mapped (`Scope.PublicPermittedExactly`).
- A text or binary frame in the middle of a fragmented message starts over instead of failing. The data
  comes back whole if and only if no such frame follows data that is not empty
  (`WebSocket.WholeExactly`, `WebSocket.RestartDiscards`).
- Of two events of one kind published at once, the one with the older sequence number may be the one
  kept pending: the highest number is pending if and only if it was published last
  (`Bus.HighestPendsExactly`, `Bus.OlderNumberMayStay`).
- "Too soon for this level, and therefore too soon for every coarser one" is not so: a next report can
  contradict it if and only if the finer level's last point is ahead of the coarser one's by more than
  the difference of their intervals, which it never is with reports on the second
  (`Series.CanMissExactly`, `Series.EverySecondNeverMisses`, `Series.TooSoonOnlyForTheFinest`).
- The merged metrics history is keyed by the wall clock, while levels compare by the monotonic one;
  nothing is lost if and only if no two snapshots share a wall-clock time
  (`Series.PointsAreTheUnion`, `Series.SteppedBackLoses`).
- A truncated audit log is evident until the next append, which records a new head over what is left:
  after it the log verifies if and only if what was left is a chain (`AuditLog.AppendVerifies`).
- The peer tail's marker is wrong if and only if one write filled the buffer to the byte and nothing
  else was written (`Tails.MarkerWrongExactly`).
- A digest is offered to the others unless its save fails, and then to nobody, whatever is reported later
  (`CorpusSync.NothingIsForgotten`, `CorpusSync.FailedSaveIsFinal`), although the comment on `Send` says
  that the next round carries the same entries; a command that does not fit an outbox is likewise gone.

## Model

| member | source | states |
|---|---|---|
| Tracer.ContWithFollows | internal/platform/trace_linux.go:178-230 | From any resumption to the next stop the patched program executes, instruction for instruction, what the unpatched one does; a trap at a planted address is the only extra instruction, and it stands for entering that block; a stop of a replaced image on an address still planted means that the run meets a stale breakpoint. |
| Tracer.RunsAlike | internal/platform/trace_linux.go:155-172 | Up to the next stop every instruction is executed alike, patched or not, because no planted address lies inside one. |
| Tracer.ContFollows | internal/platform/trace_linux.go:178-230 | Instructions executed alike and an explained stop explain the whole stretch. |
| Tracer.FetchUnpatched | internal/platform/trace_linux.go:155-172 | Planting changes no instruction that holds no planted address. |
| Tracer.NothingBehindMatters | internal/platform/trace_linux.go:155-172 | An executed instruction is its own bytes and nothing behind them, so a breakpoint behind it changes nothing. |
| Tracer.ContBeforeTarget | internal/platform/trace_linux.go:133-142 | Until the process is the target no block counts as entered, whatever signals and execs happen. |
| Tracer.FirstEntriesMeaning | internal/platform/trace_linux.go:252-277 | The reported list is exactly the watched addresses executed, without repeats, ordered by first execution. |
| Tracer.PlantedMeaning | internal/platform/trace_linux.go:143-172 | A breakpoint belongs exactly at the mapped addresses, no traps of the program’s own, of the blocks given: at the block itself in a program at a fixed address, wherever it seems to be mapped; at the load base and the block in a position-independent one, and nowhere if there is no base. |
| Tracer.EnteredMeaning | internal/platform/trace_linux.go:252-277 | A block counts as entered exactly when it was given, has such a place, and the program executes it while the image lasts, whatever helper the run begins in. |
| Relocation.SameHitsAtAnyBase | internal/platform/trace_linux.go:270-276 | A program whose own instructions, and those of its libraries, are position-independent yields the same hit sequence wherever it and, separately, its libraries are loaded; either run may begin in a helper. |
| Relocation.LibrariesMoveApart | internal/platform/trace_linux.go:270-276 | Such programs exist whose libraries move by another offset than they do: on a processor that has a fall-through instruction, a program that calls a library and is called back meets every assumption, runs through the library and yields the same hits at both places. |
| Relocation.CallingMoves | internal/platform/trace_linux.go:270-276 | Every program of that processor is position-independent, however its mappings are moved, each as a whole. |
| Relocation.SameHitsFromTarget | internal/platform/trace_linux.go:270-276 | The same for runs that begin in the target itself. |
| Relocation.FirstEntriesMoved | internal/platform/trace_linux.go:252-277 | First entries move with the program, wherever each of its mappings is placed. |
| Relocation.PlantableRebased | internal/platform/trace_linux.go:155-172 | A block is plantable at one base exactly when it is at the other, and different blocks stay different. |
| Tracer.Finishes | internal/platform/trace_linux.go:196-203 | When a run on track ends, it is the untraced run with breakpoint stops erased, no stale breakpoint was met, and the hits are the blocks entered. |
| Tracer.SignalPassedOn | internal/platform/trace_linux.go:205-229 | A signal of the program’s own, SIGTRAP included, is delivered and the run stays the untraced one. |
| Tracer.BreakpointErased | internal/platform/trace_linux.go:252-277 | Undoing a breakpoint of the running image keeps the simulation: code, saved bytes, hits, remaining blocks and remaining stale traps all stay as they should be. |
| Tracer.BreakpointUndone | internal/platform/trace_linux_amd64.go:24-29 | Putting the saved byte back and rewinding by one gives the original program at the block’s first instruction, with one trap fewer. |
| Tracer.ImageReplaced | internal/platform/trace_linux.go:216-221 | After an exec of the armed process the run goes on untouched and no further block is reported. |
| Tracer.ExecBeforeTarget | internal/platform/trace_linux.go:133-142 | An exec before arming leaves the run where arming may begin. |
| Tracer.Arming | internal/platform/trace_linux.go:133-176 | Arming starts the simulation: every plantable block holds a trap and nothing else changed; without a load base nothing is planted. |
| Tracer.StaleHit | internal/platform/trace_linux.go:252-277 | A trap of a replaced image at an address still planted is taken for a breakpoint, and from then on the hits are those due and one more. |
| Tracer.StaysDerailed | internal/platform/trace_linux.go:252-277 | No later hit takes that back. |
| Tracer.StaleBreakpoint | internal/platform/trace_linux.go:252-263 | Such runs exist: a replacing image that executes a trap of its own at a stale breakpoint dies of it untraced and runs on to a normal exit under the tracer. |
| Tracer.FiredIsNotStale | internal/platform/trace_linux.go:263-264 | A breakpoint that fired before the image was replaced does no harm: the new image may trap at its address. |
| Tracer.NeverStaleBeforehand | internal/platform/trace_linux.go:133-176 | What a caller can check before the run: no breakpoint goes stale if the target’s own instructions never replace it, or if no image that can replace it has a trap of its own where a breakpoint is planted. |
| Tracer.Session.Plant | internal/platform/trace_linux.go:155-171 | One breakpoint: skipped if unmapped or already a trap; otherwise the saved byte is the original and not a trap. |
| Tracer.Session.PlantAll | internal/platform/trace_linux.go:155-173 | Planting a list, duplicates included, plants exactly the plantable set. |
| Tracer.Session.Arm | internal/platform/trace_linux.go:135-174 | Arms once, only when the process is the target, and then plants exactly where a breakpoint belongs. |
| Tracer.Session.Hit | internal/platform/trace_linux.go:252-277 | True exactly for a planted and mapped address one byte back; then the byte is restored, the counter rewound, the entry removed and the link-time address appended. |
| Tracer.Session.OnSignal | internal/platform/trace_linux.go:205-229 | A signal that fires a breakpoint is swallowed and shrinks the planted map; any other is to be delivered. |
| Tracer.Session.Signaled | internal/platform/trace_linux.go:205-229 | A signal stop keeps a run on track, derails it at a stale breakpoint, or leaves it derailed; either nothing of the allowance comes back or a breakpoint is gone. |
| Tracer.Session.Turn | internal/platform/trace_linux.go:185-230 | One stop: the run stays on track or stays derailed, and either executes something or shrinks the planted map; if it ends, it ends as it should. |
| Tracer.Session.TraceRun | internal/platform/trace_linux.go:77-232 | The hits are the blocks the untraced run enters while the first image that is the target lasts, in first-entry order, if and only if no image that replaces it executes a trap of its own at an address still planted; then the traced run with breakpoint stops erased is the untraced one, visit for visit and with the same end. In every run no block given, mapped and executed is missing, and there are at most as many hits as breakpoints. |
| Bus.StepAccounted | internal/daemon/bus.go:186-321 | Every step of any goroutine keeps each offered event in exactly one place, the queue, the pending map and what was received saying the same, and the dropped count equal to the events given up. |
| Bus.StepReasoned | internal/daemon/bus.go:217-321 | Events are superseded only by later ones of their kind, only undroppable ones are retried, and an event is discarded only because of the close. |
| Bus.StepSane | internal/daemon/bus.go:164-178 | No step sends on or closes a closed channel; while open, the timer is set exactly when an event is pending, and exactly one flush is then to come. |
| Bus.RunKeeps | internal/daemon/bus.go:186-321 | The invariants hold after every interleaving from any state that has them. |
| Bus.EveryInterleaving | internal/daemon/bus.go:186-321 | They hold in every reachable state of a new subscription. |
| Lives.LifeStep | internal/daemon/bus.go:164-321 | Where each step takes each event, by its kind: only metrics and coverage are superseded while open; a finding or an event about a campaign is always tried again, any other is queued, lost on a full queue or discarded after the close. |
| Lives.Born | internal/daemon/bus.go:217-239 | Where an event begins: discarded after the close, held if it is metrics or coverage and there is an interval, and on its way otherwise. |
| Lives.FirstInFirstOut | internal/daemon/bus.go:279-321 | Events are received in the order in which they were queued. |
| Lives.GivenUpOnlyLate | internal/daemon/bus.go:279-321 | In every run a finding, or an event about a campaign, is given up only at its deadline, after an attempt that found the queue full while the subscription was open. |
| Lives.NeverSuperseded | internal/daemon/bus.go:217-239 | In every run events of other kinds than metrics and coverage are never held back and never superseded. |
| Lives.NeverRetried | internal/daemon/bus.go:279-285 | In every run only findings and events about a campaign are tried again. |
| Lives.ArrivesIfRead | internal/daemon/bus.go:300-321 | An event that is being tried again arrives if the reader empties the queue: the next attempt queues it, and it is received. |
| Lives.CancelCloses | internal/daemon/bus.go:164-178 | Close can always be called, closes, and loses nothing that is queued. |
| Lives.ClosedForGood | internal/daemon/bus.go:164-178 | In every run, after a close nothing more is queued, what is published is discarded, and what was queued can still be read. |
| Lives.ChecksAreNeeded | internal/daemon/bus.go:266-278 | What the checks under the lock are for: once closed, every region does nothing, and the channel’s own operations would panic. |
| Bus.EveryLossOverflowed | internal/daemon/bus.go:279-321 | In every run each event given up made an attempt that found the queue full while the subscription was open. |
| Bus.LossIsOverflow | internal/daemon/bus.go:279-321 | An event is given up only by a step in which it found the queue full, or after such a step. |
| Bus.PublishHighest | internal/daemon/bus.go:217-239 | Delivering a coalescable event leaves the highest number of its kind pending if and only if its number is not below those delivered before. |
| Bus.HighestPendsExactly | internal/daemon/bus.go:186-239 | After any run, what is pending of a kind is the highest numbered of that kind if and only if the last published of the kind is; publishing a kind in order of number is enough. |
| Bus.OlderNumberMayStay | internal/daemon/bus.go:186-204 | A run that fails the condition: two concurrent publishers leave the older number pending. |
| Bus.PublishPlaces | internal/daemon/bus.go:217-239 | Delivering moves at most one event, from pending to superseded by the new one of its kind, and places the new one. |
| Bus.PublishKeeps | internal/daemon/bus.go:217-239 | Delivering keeps the accounts: every event in one place, and what is queued, pending and received saying the same. |
| Bus.Subscription.constructor | internal/daemon/bus.go:127-150 | A depth of zero becomes 64; the new subscription is the initial state of the model. |
| Bus.Subscription.Deliver | internal/daemon/bus.go:217-239 | The locked part of deliver, arming the timer exactly when the first coalesced event is held. |
| Bus.Subscription.Flush | internal/daemon/bus.go:241-258 | Hands over every pending event once and leaves none, the timer cleared. |
| Bus.Subscription.TrySend | internal/daemon/bus.go:292-296 | The non-blocking channel send: queued, or full, or a panic on a closed channel. |
| Bus.Subscription.Send | internal/daemon/bus.go:279-297 | An ordinary event is queued, or counted as dropped, or ignored after the close. |
| Bus.Subscription.Attempt | internal/daemon/bus.go:301-313 | One attempt for an undroppable event, under the lock. |
| Bus.Subscription.Close | internal/daemon/bus.go:164-178 | Closes once; a second close does nothing. |
| AuditLog.EncodingInjective | internal/store/audit.go:177-192 | The length-prefixed encoding determines every hashed field. |
| AuditLog.FieldInjective | internal/store/audit.go:186-190 | A field cannot run into what follows it. |
| AuditLog.TamperEvident | internal/store/audit.go:136-170 | Two logs that verify against one recorded head are equal, or two different encodings with one digest are handed back; so any edit, reorder, removal or truncation under an unchanged head is reported. |
| AuditLog.ChainStep | internal/store/audit.go:142-158 | The chain extends exactly as far as each entry is sound, and never past the first that is not. |
| AuditLog.AppendVerifies | internal/store/audit.go:62-105 | After an append the log verifies exactly when the entries before it formed a chain, whatever head was recorded: a truncation is evident until the next append and not afterwards. |
| AuditLog.AppendsVerify | internal/store/audit.go:62-105 | Every log built by appends verifies. |
| AuditLog.Store.Audit | internal/store/audit.go:62-105 | Appends one entry that continues the numbering and the chain, and moves the head to it. |
| AuditLog.Store.VerifyAudit | internal/store/audit.go:136-170 | Returns the length of the longest valid prefix; succeeds exactly when the whole log verifies against the head; each fault names what is wrong. |
| Ledger.VerifiesExactly | internal/store/audit.go:136-170 | A log verifies exactly when its entries are numbered from one, each records the digest of the one before it and of its own contents, and the head is the digest of the last. |
| Ledger.EncodingIs | internal/store/audit.go:177-192 | What is hashed, byte by byte: number and time in eight little-endian bytes each, in two’s complement, then actor, action, detail and previous digest, each behind its length in eight bytes, and nothing more. |
| Ledger.EveryRecordIsKept | internal/store/audit.go:62-105 | Entry i of a log built by appends holds what was recorded as the i-th. |
| CallTable.StepGood | internal/cdp/cdp.go:111-259 | Every step of reader and callers keeps: replies only to the call they number, reader sends to empty open channels, no waiting caller without something to wake it, an empty table after failure. |
| CallTable.RunGood | internal/cdp/cdp.go:111-259 | That invariant holds after every interleaving. |
| CallTable.EveryInterleaving | internal/cdp/cdp.go:111-162 | The reader never blocks and never hits a closed channel, and an answered call holds the reply that carries its number. |
| Answers.ReplyArrives | internal/cdp/cdp.go:111-162 | A reply to a call still in the table, read, handed over and collected, is the call’s answer. |
| Answers.NeverRefused | internal/cdp/cdp.go:111-241 | In every run a call that was handed its reply holds it, has it as its answer, or has been given up by its caller; it is never refused. |
| Answers.RefusedExactly | internal/cdp/cdp.go:224-232 | In every run a call is refused only if no reply was handed to it and its channel was closed, the connection having failed. |
| Answers.AnswerWasHanded | internal/cdp/cdp.go:111-162 | In every run an answer is a message that the reader held for that call, with its number, and handed over. |
| Answers.StrayIsDropped | internal/cdp/cdp.go:127-134 | A late reply, or a message for nobody who waits, changes nothing. |
| Answers.CallStep | internal/cdp/cdp.go:189-241 | What each step makes of each call. |
| Answers.CallIsAnswered | internal/cdp/cdp.go:189-241 | From any state of an open connection whose reader is free: a new call, its reply read, handed over and collected, is answered by that reply. |
| Answers.ClosingStops | internal/cdp/cdp.go:250-259 | Closing leaves every waiting call as it is; in every run after it no call is taken on any more. |
| Answers.FirstErrorKept | internal/cdp/cdp.go:150-156 | The error reported is the first that broke the connection, whatever happens later. |
| CallTable.StepSettles | internal/cdp/cdp.go:189-202 | Numbers are never used twice, and what became of a call never changes. |
| CallTable.OutcomesAreFinal | internal/cdp/cdp.go:179-241 | Over any later run, an answered, refused or abandoned call stays so, and a closed connection admits none. |
| CallTable.NobodyIsLeftWaiting | internal/cdp/cdp.go:150-162 | Once failure has run its course the table stays empty and every caller still waiting has a reply or a closed channel. |
| CallTable.ClosingEnds | internal/cdp/cdp.go:150-162 | The course of a failure is as many closes as calls were pending. |
| CallTable.ReaderStops | internal/cdp/cdp.go:111-162 | From every state of a run a broken socket brings the reader to that end, by steps of its own. |
| CallTable.EveryoneCollects | internal/cdp/cdp.go:214-241 | From there each waiting caller’s own step, and no other, leaves nobody waiting. |
| CallTable.NobodyNeedWait | internal/cdp/cdp.go:111-241 | So from every state of a run a broken socket can be followed by steps of the reader and then of the callers that leave nobody waiting, the table closed and empty. |
| CallTable.Conn.Register | internal/cdp/cdp.go:189-202 | A fresh, larger number and a place in the table, unless closed. |
| CallTable.Conn.Take | internal/cdp/cdp.go:127-134 | The reader takes exactly the answered call out of the table. |
| CallTable.Conn.Forget | internal/cdp/cdp.go:243-247 | Removes one call. |
| CallTable.Conn.Fail | internal/cdp/cdp.go:150-162 | Takes every pending call, keeps the first error, closes. |
| CallTable.Conn.Close | internal/cdp/cdp.go:250-259 | Only the first close closes the socket. |
| WebSocket.MaskedTwice | internal/cdp/ws.go:208-213 | Masking undoes itself. |
| WireFormat.XorIs | internal/cdp/ws.go:208-213 | Exclusive or: each bit of the result is set exactly where one operand has it set and the other has not. |
| WireFormat.MaskedBytes | internal/cdp/ws.go:208-213 | Byte i of a masked payload is the exclusive or of the payload’s with the first, second, third or fourth mask byte, as i leaves 0, 1, 2 or 3 when divided by four. |
| WireFormat.WrittenIs | internal/cdp/ws.go:185-223 | What the client writes, bit by bit and byte by byte: FIN and the opcode, the mask bit, the shortest length form that fits, the most significant byte first, the mask, the payload under it, and nothing more (RFC 6455, section 5.2). |
| WireFormat.AnswerIs | internal/cdp/ws.go:240-246 | A ping is answered by a final frame of opcode 10 that carries what the ping did, under the next mask. |
| WireFormat.WireIs | internal/cdp/ws.go:268-318 | The same of any frame that a peer may send and that is read back: masked or not, in any length form. |
| WireFormat.BeValueIsWorth | internal/cdp/ws.go:288-296 | The length read is the number whose most significant byte comes first. |
| Words.BeRoundTrip | internal/cdp/ws.go:194-198 | A big-endian number written in enough bytes is read back. |
| WebSocket.ParseWire | internal/cdp/ws.go:268-318 | Any frame a peer may send, masked or not, in any of the three length forms that fit, is read back, and reading stops at its last byte. |
| WebSocket.WriteRead | internal/cdp/ws.go:185-223 | Reading what was written gives FIN, the opcode and the payload and consumes exactly the bytes written, if and only if the opcode has four bits and the payload is within the cap (RFC 6455, sections 5.2 and 5.3). |
| WebSocket.Reassembly | internal/cdp/ws.go:230-265 | A message within the cap, cut into any fragments with pings and pongs anywhere between them, is returned whole, each ping answered once and in order, and reading stops at the message boundary (RFC 6455, sections 5.4 and 5.5). |
| WebSocket.AnyDataFrames | internal/cdp/ws.go:230-265 | Whatever text, binary and continuation frames come before the first final one, in whatever order, with pings and pongs anywhere: the message returned is what the last text or binary frame and those after it hold, or all of it if there is none. |
| WebSocket.WholeExactly | internal/cdp/ws.go:250-253 | So the data comes back whole if and only if no text or binary frame follows data that is not empty. |
| WebSocket.RestartDiscards | internal/cdp/ws.go:250-253 | A final text or binary frame in the middle of a message discards whatever was gathered. |
| WebSocket.Bounded | internal/cdp/ws.go:258-264 | On any stream whatever, a returned message is at most twice the frame cap. |
| Endings.EndsExactly | internal/cdp/ws.go:236-264 | After any frames that leave a message unfinished: a close frame is an end of the stream, an unknown opcode a failure, and so is a message grown beyond the cap before it is final; the pings before are answered (opcodes 0 to 10 of RFC 6455, section 5.2). |
| Endings.EndsUnreadable | internal/cdp/ws.go:232-235 | So is whatever follows that cannot be read as a frame. |
| Endings.CutFrame | internal/cdp/ws.go:268-306 | A stream that stops anywhere inside a frame is a short read. |
| Endings.RefusedFrame | internal/cdp/ws.go:274-302 | A frame with a reserved bit set, or announcing more than the cap, is refused whatever follows. |
| WebSocket.Conn.ApplyMask | internal/cdp/ws.go:208-213 | The masking loop computes the exclusive or with the repeated mask, in a copy. |
| WebSocket.Conn.WriteFrame | internal/cdp/ws.go:185-223 | Header, mask and masked payload as one frame of the right length form, or as much of it as the connection takes, and then a failure. |
| WebSocket.Conn.Send | internal/cdp/ws.go:214-222 | The two writes, each of which may stop short. |
| WebSocket.Conn.ReadFull | internal/cdp/ws.go:270-272 | All the bytes asked for, or none. |
| WebSocket.Conn.ReadSize | internal/cdp/ws.go:283-297 | The three length forms. |
| WebSocket.Conn.ReadBody | internal/cdp/ws.go:302-317 | The optional mask and the payload. |
| WebSocket.Conn.ReadFrame | internal/cdp/ws.go:268-318 | Parses one frame or reports the first fault. |
| WebSocket.Conn.Pong | internal/cdp/ws.go:238-245 | One more ping answered, in order, or a failure to. |
| WebSocket.Conn.Control | internal/cdp/ws.go:237-247 | A ping is answered and a pong ignored; an answer that cannot be written ends the reading. |
| WebSocket.Conn.ReadMessage | internal/cdp/ws.go:230-265 | The reading loop returns what the reassembly specification says and answers every ping, unless an answer cannot be written: then it fails there, with the answers before written. |
| Seccomp.ComparisonsDecide | internal/platform/sandbox_linux.go:449-467 | From the i-th comparison on, the program refuses exactly the calls listed from there on. |
| Seccomp.FilterDecides | internal/platform/sandbox_linux.go:435-467 | Interpreting the emitted program decides every call as the denylist means it; all jumps land inside the program. |
| Seccomp.ProgramIs | internal/platform/sandbox_linux.go:426-468 | The emitted program, instruction by instruction and in numbers, and what each load shows it. |
| Seccomp.DecisionIs | internal/platform/sandbox_linux.go:426-468 | What the denylist means in numbers: errno under 0x00050000 for a foreign architecture or a call whose number equals the low 32 bits of an entry, 0x7fff0000 for the rest. |
| Seccomp.BuildSeccompFilter | internal/platform/sandbox_linux.go:426-468 | Fails exactly for lists of more than 255 numbers; otherwise the program returns errno exactly when the architecture differs or the number is listed, and allow otherwise. |
| Scope.PrefixIsRange | internal/safety/scope.go:443-467 | A prefix contains exactly the addresses from its base to its last, and the last is the base plus 2^host - 1, for IPv4 and IPv6. |
| Scope.BlockOf | internal/safety/scope.go:443-467 | Masking and filling find the block of 2^host addresses around any address. |
| Scope.RangeMasks | internal/safety/scope.go:443-467 | Any address in that block masks to the same base. |
| Scope.StageStep | internal/safety/scope.go:455-457 | Setting one more host bit is the next stage of the bit loop. |
| Scope.SetLowBits | internal/safety/scope.go:454-464 | The in-place bit loop sets the low host bits of every byte and no other. |
| Scope.LastAddr | internal/safety/scope.go:443-467 | Computes the highest address of the prefix. |
| Scope.EndsDecide4 | internal/safety/scope.go:188-198 | For a masked IPv4 prefix of any length outside three, non-public ends mean that every address in it is non-public. |
| Scope.EndsDecide6 | internal/safety/scope.go:188-198 | The same for a masked IPv6 prefix outside ::/0, ::/80, fc00::/6 and the mapped forms of those three. |
| Scope.MappedBlock | internal/safety/scope.go:407-411 | A masked prefix based in the IPv4-mapped block holds exactly the mapped forms of an IPv4 prefix. |
| Scope.LastFromZero | internal/safety/scope.go:442-467 | A block at the unspecified address ends in a public address unless it has one, two, 2^48 or 2^128 addresses. |
| Scope.StraddlingFails | internal/safety/scope.go:188-198 | Each of those prefixes passes the test and contains a public address, which is handed back. |
| Scope.EndpointTestExact | internal/safety/scope.go:188-198 | For masked prefixes of either family and any length, the two-endpoint test is sound if and only if the prefix is not one of those. |
| PublicBlocks.PublicExactly | internal/safety/scope.go:406-441 | An address is public exactly when it is in none of the fourteen IPv4 blocks, 0.0.0.0/32 to 240.0.0.0/4, or the five IPv6 blocks, ::/128 to ff00::/8, that are listed; an address of ::ffff:0:0/96 is judged as the IPv4 address it stands for. |
| PublicBlocks.Public4 | internal/safety/scope.go:412-436 | The IPv4 table. |
| PublicBlocks.Public6 | internal/safety/scope.go:411-440 | The IPv6 table. |
| PublicBlocks.LoopbackExactly | internal/safety/scope.go:209 | Loopback is 127.0.0.0/8 and ::1/128. |
| PublicBlocks.PortsExactly | internal/safety/scope.go:393-403 | No ranges allow every port; otherwise each range adds the ports from its first to its last. |
| PublicBlocks.PermittedExactly | internal/safety/scope.go:196-239 | A destination, an IPv4-mapped one as the IPv4 address it stands for, is permitted exactly when loopback is allowed and it is in 127.0.0.0/8 or ::1/128, or some rule’s prefix contains it and its ports, if it names any, the port. |
| PublicBlocks.OneBitSet | internal/safety/scope.go:454-463 | Setting a host bit sets that bit and keeps the others. |
| Scope.PublicPermittedExactly | internal/safety/scope.go:181-225 | A scope validated without the acknowledgement permits some public destination if and only if one of its rules with an admissible port has one of those prefixes that is not IPv4-mapped; destinations are unmapped before they are checked, so a mapped rule permits nothing. |
| Scope.ValidatedScopeStaysPrivate | internal/safety/scope.go:181-225 | A validated scope without such a rule permits no public destination on any port. |
| Scope.LeakingRuleLeaks | internal/safety/scope.go:206-225 | Such a rule permits a public destination, which is handed back with its port. |
| Scope.EndsArePrivate | internal/safety/scope.go:189-197 | The two-endpoint test of one rule. |
| Scope.Guard.AllowPrefix | internal/safety/scope.go:138-141 | A prefix rule is masked as it is added. |
| Scope.Guard.AllowAddr | internal/safety/scope.go:142-145 | An address rule covers that address only. |
| Scope.Guard.AllowResolved | internal/safety/scope.go:147-166 | A name pins every address it resolved to, unmapped; it fails exactly while the scope stays empty. |
| Scope.Guard.Validate | internal/safety/scope.go:181-200 | Refuses a remote campaign without rules, and otherwise accepts exactly when acknowledged or every rule has private ends; reports the first rule that has not. |
| Scope.Guard.Check | internal/safety/scope.go:206-225 | Permits exactly loopback, if allowed, and what some rule covers on a port it allows; counts each decision once. |
| Scope.Guard.CheckAll | internal/safety/scope.go:257-269 | A name is in scope only if it resolves and every address it resolves to is; the addresses checked are counted, allowed or refused. |
| EventStream.ReadStream | internal/client/sse.go:15-50 | Frames with keep-alive comments anywhere between them are read back as exactly those frames, in order. |
| EventStream.CutStream | internal/client/sse.go:25-49 | A stream cut at any character yields exactly the frames written whole before the cut. |
| EventStream.SurvivesExactly | internal/api/events.go:90-99 | One frame comes back alone and unchanged if and only if kind and data fit on one line without outer white space and data is not empty. |
| EventStream.DataIsShorter | internal/client/sse.go:42-46 | Each data line costs more characters than it adds. |
| EventStream.KindsHaveNoNewline | internal/client/sse.go:39-40 | A kind that was read never holds a newline. |
| EventStream.UpTo | internal/client/sse.go:28-33 | The callback is called with a prefix of the frames, each call but the last approved, and stops short only at a refusal. |
| EventStream.ScannedIs | internal/client/sse.go:16-25 | Scanning stops at the first line of 64 MiB or more, and only there. |
| EventStream.LongLineCuts | internal/client/sse.go:16-49 | Such a line costs the frames from there on and no other. |
| EventStream.ToldIsDue | internal/api/events.go:50-74 | The loop writes the wanted events that can be marshalled, in order, and before a wanted event the drop count whenever it moved since last told. |
| EventStream.ClientHearsWhatIsDue | internal/api/events.go:50-86 | From server loop to client: over any wakes, and wherever the connection fails, the client reads the first of the frames that are due, and all of them if everything arrives and no line is too long. |
| EventStream.Field | internal/client/sse.go:36-46 | What one non-blank line does to the reader. |
| StreamLines.EventsInOrder | internal/api/events.go:50-74 | Drop notices apart, the frames due are the events of the campaign, or of all campaigns, that can be marshalled, in order. |
| StreamLines.CountIsKnown | internal/api/events.go:60-72 | A client that remembers the last drop notice knows the count as the last event of its campaign found it. |
| StreamLines.FieldLines | internal/client/sse.go:36-46 | A comment is ignored, an event line names the kind, and data lines add up with a newline between those that are not first. |
| StreamLines.EitherEnding | internal/client/sse.go:25-27 | Lines that end in CR LF are read as those that end in LF. |
| StreamLines.TrimIs | internal/client/sse.go:40-46 | A trimmed text is what is left between outer white space, which is the characters with the Unicode property White_Space (`SpacesAre`). |
| StreamLines.LongLinesAre | internal/client/sse.go:17-20 | The limit on a line is 64 MiB, counted from its start. |
| EventStream.ReadSSE | internal/client/sse.go:15-50 | The scan loop makes exactly those calls on what is scanned, and reports an error exactly when a line was too long and the callback had not stopped it before. |
| EventStream.Response.Write | internal/api/events.go:95-97 | All of the text, or as much as the connection takes and an error. |
| EventStream.Response.WriteSSE | internal/api/events.go:90-99 | Appends one frame as far as the connection takes it; what cannot be marshalled is skipped and is no failure. |
| EventStream.Response.KeepAlive | internal/api/events.go:78-84 | Appends the comment as far as the connection takes it. |
| EventStream.Response.OnWake | internal/api/events.go:52-84 | What one wake writes, and the drop count then reported; the loop is left only when the connection takes no more. |
| EventStream.Response.EventStream | internal/api/events.go:50-86 | What gets through is the front of what the loop writes over any wakes, as long as the connection takes it. |
| Series.LevelsHold | internal/metrics/series.go:59-98 | After any adds, clocks running backwards included, each level is strictly increasing with gaps of at least its interval, holds at most 120 points, none older than the retention before the newest snapshot ever offered, and only snapshots that were added. |
| Resolution.HoldsExactly | internal/metrics/series.go:59-98 | Of the snapshots it took, a level holds exactly those among its last 120 that the retention still covers. |
| Resolution.TakesExactly | internal/metrics/series.go:18-30 | A level takes a snapshot exactly when it and every finer one took none less than its interval before: 1, 15, 300 and 3600 seconds. |
| Series.Advance | internal/metrics/series.go:59-98 | One add keeps every level equal to its specification: the latest 120 unexpired of the greedy thinning of all snapshots added. |
| Series.TakenIsNewest | internal/metrics/series.go:66-74 | A snapshot that any level takes is newer than every snapshot offered before it. |
| Series.KeptNext | internal/metrics/series.go:66-74 | The break at the first level that is too soon makes each level thin what the finer one accepts. |
| Series.OneInstantOneSnapshot | internal/metrics/series.go:100-105 | One reading of the clock that snapshots are compared by identifies one snapshot across levels. |
| Series.CanMissExactly | internal/metrics/series.go:68-71 | After which reports a next one can be too soon for a level and due at a coarser one: exactly when the finer level’s last point is ahead of the coarser one’s by more than the difference of their intervals. |
| Series.LateReport | internal/metrics/series.go:66-74 | Which report brings that about: only one that the finer level takes and the coarser does not sets the one ahead of the other, by its distance from the coarser level’s last point. |
| Series.OnTheGridNeverMisses | internal/metrics/series.go:68-71 | A finer level that is whole intervals of its own ahead of the next never misses what that one is due. |
| Series.WholeSecondsNeverMiss | internal/metrics/series.go:68-71 | So with reports at whole seconds, whichever and in whatever order, the finest level never misses what the next is due. |
| Series.TooSoonYetDueExactly | internal/metrics/series.go:68-71 | The times at which a report is too soon for a level and due at a coarser one: from the coarser level’s next time to the finer one’s; it is then in neither. |
| Series.EverySecondNeverMisses | internal/metrics/series.go:59-74 | With reports exactly on the second no level ever misses what a coarser one is due, whenever the next report comes, and each level takes every so-many-th report. |
| Series.TooSoonOnlyForTheFinest | internal/metrics/series.go:68-71 | It does happen: after snapshots at 0 s and 14.5 s, one at 15.2 s is too soon for the first level and due at the second. |
| Series.PointsAreTheUnion | internal/metrics/series.go:106-127 | The merged history is strictly increasing, made of snapshots the levels hold, with one for every wall-clock time they hold; nothing is lost if and only if no two snapshots share a wall-clock time. |
| Series.SteppedBackLoses | internal/metrics/series.go:110-121 | It happens: of two snapshots a second apart, with the wall clock stepped back in between, the levels keep both under one wall-clock time. |
| Series.NoStepNothingLost | internal/metrics/series.go:106-127 | As long as the wall clock is not stepped against the monotonic one, nothing is lost. |
| Series.SortedIs | internal/metrics/series.go:132-141 | Sorting snapshots taken at different times gives the same snapshots in strictly increasing order. |
| Series.DedupeIs | internal/metrics/series.go:110-124 | Merging keeps one snapshot of every wall-clock time. |
| Series.History.constructor | internal/metrics/series.go:49-56 | Empty levels. |
| Series.History.Add | internal/metrics/series.go:59-80 | Adds the snapshot, stamped with the clock if it carries no time, and keeps every level as specified for the whole history. |
| Series.History.Offer | internal/metrics/series.go:66-78 | The levels before the first that is too soon take the snapshot, each cut to 120; the others do not change. |
| Series.History.Expire | internal/metrics/series.go:83-98 | Each level loses exactly its leading points before the cutoff. |
| Series.Merge | internal/metrics/series.go:116-123 | One level merged: wall-clock times already taken are skipped. |
| Series.Sift | internal/metrics/series.go:137-139 | The inner loop inserts one element into the sorted front by swaps. |
| Series.SortByTime | internal/metrics/series.go:132-141 | The insertion sort, in place, against its specification. |
| Series.History.Points | internal/metrics/series.go:106-127 | The sorted, deduplicated merge of the levels, coarsest first. |
| Tails.LastOfLast | internal/driver/web.go:395-398 | Only what was kept matters for what will be kept. |
| Tails.TurnOne | internal/driver/web.go:417-418 | Overwriting the oldest byte of a full ring and moving on drops it and appends the new one. |
| Tails.Ring.Put | internal/driver/web.go:412-420 | One byte into the ring. |
| Tails.Ring.Write | internal/driver/web.go:409-422 | After any writes the ring holds the last min(n, total) bytes of everything written, and has wrapped exactly when more than n were. |
| Tails.Ring.Raw | internal/driver/web.go:430-433 | Reads them back oldest first. |
| Tails.Shifting.Write | internal/safety/peer.go:145-160 | After any writes the shifting buffer holds the last min(limit, total) bytes; the marker is set exactly when more were written or one write filled the buffer. |
| Tails.Shifting.Text | internal/safety/peer.go:162-169 | The kept bytes and whether the marker goes before them. |
| Tails.MarkerWrongExactly | internal/safety/peer.go:148-152 | The marker claims a loss that did not happen exactly when one write filled the buffer to the byte and nothing else was written. |
| Tails.MarkerDependsOnTheCut | internal/safety/peer.go:148-158 | As many bytes as the buffer holds, in one write or cut anywhere into two: marked or not, with nothing lost either way. |
| CorpusSync.FreshIs | internal/daemon/campaign.go:819-830 | Deduplication keeps each new digest once and no seen one. |
| CorpusSync.StepLocated | internal/daemon/campaign.go:812-882 | Every step keeps each seen digest at exactly one place (being saved, unsaved for good, queued, taken, or in one broadcast), under its first reporter. |
| CorpusSync.StepCounted | internal/daemon/worker.go:399-470 | Every step keeps each broadcast offered, or still to be offered, once to each worker but one, and each offer either in the outbox, drained from it, or counted as dropped. |
| CorpusSync.EveryInterleaving | internal/daemon/campaign.go:812-882 | Both hold in every reachable state; in particular no digest is ever in two places. |
| CorpusSync.Run | internal/daemon/campaign.go:812-882 | The invariants hold after any actions in any order. |
| CorpusSync.OfferedToTheOthers | internal/daemon/campaign.go:866-882 | A flushed digest is in one broadcast only; when that is over it has been offered exactly once to every worker except its first reporter, and never to that one. |
| CorpusSync.OfferedIsAcceptedPlusDropped | internal/daemon/worker.go:408-414 | For each worker, offers made are those drained, those waiting and the dropped count. |
| CorpusSync.FailedSaveIsFinal | internal/daemon/campaign.go:846-849 | After a failed save a digest stays seen and is never queued or offered, whatever is reported later. |
| CorpusSync.NothingIsForgotten | internal/daemon/campaign.go:812-882 | When all is quiet, every digest ever reported has failed to save or has been offered to all the others. |
| CorpusSync.SomethingToDo | internal/daemon/campaign.go:812-882 | While anything is left to save, to flush or to send, some of it can be done, and less is left then. |
| CorpusSync.QuietIsReached | internal/daemon/campaign.go:812-882 | So from every state of a run, and whatever becomes of the saves, finitely many steps that the campaign takes by itself lead to that quiet. |
| Journeys.ReportedIsOffered | internal/daemon/campaign.go:812-882 | A digest that a worker reports for the first time, and whose save succeeds, can come to be offered once to every other worker, by steps that the campaign takes by itself. |
| Journeys.ReportStep | internal/daemon/campaign.go:819-840 | A report makes its digests seen, and saves the new ones under their reporter; nothing else changes. |
| Journeys.SaveStep | internal/daemon/campaign.go:841-853 | A save that succeeds queues what was saved under its reporter; one that fails queues nothing. |
| Journeys.TakeStep | internal/daemon/campaign.go:866-872 | A flush takes the whole queue, each reporter’s part under its reporter. |
| Journeys.SpreadStep | internal/daemon/campaign.go:873-882 | Each part becomes a broadcast of its entries to every worker but its reporter. |
| Journeys.SendStep | internal/daemon/worker.go:399-415 | A send offers the broadcast to its next worker: an outbox that holds fewer than 64 takes it, any other counts it, and no other outbox changes. |
| Journeys.DrainStep | internal/daemon/worker.go:417-432 | An outbox is drained from the front. |
| CorpusSync.SendCounted | internal/daemon/worker.go:399-415 | A send puts the command in the outbox or counts it. |
| CorpusSync.OthersAre | internal/daemon/worker.go:458-463 | A broadcast’s recipients are the workers but one, each once, in whatever order the table is visited. |
| CorpusSync.Supervisor.Send | internal/daemon/worker.go:399-415 | Queues below 64, counts at 64, reports an unknown worker. |
| CorpusSync.Supervisor.Broadcast | internal/daemon/worker.go:456-470 | Every worker but one receives the command once. |
| CorpusSync.Campaign.Admit | internal/daemon/campaign.go:819-830 | The first locked region. |
| CorpusSync.Campaign.OnCorpus | internal/daemon/campaign.go:812-853 | New digests are queued under their reporter exactly when the save succeeds; all are seen either way. |
| CorpusSync.Campaign.FlushSync | internal/daemon/campaign.go:866-882 | Empties the queue and broadcasts each reporter’s batch once to the others. |
| Journeys.FlushFills | internal/daemon/campaign.go:866-882 | A flush puts the batches of all other reporters into a worker’s outbox, in the order of the visit, as far as 64 messages, and counts the rest as dropped. |
| Trim.TrimmedIsSafe | internal/engine/engine.go:658-725 | Trimming returns a non-empty subsequence of the input, and of a deterministic target one with the same coverage and state signatures. |
| Trim.TrimmedSpends | internal/engine/engine.go:680-705 | Whatever the target answers from one execution to the next, trimming stays within its budget. |
| Trim.SweepKeeps | internal/engine/engine.go:680-713 | One pass keeps that. |
| Trim.SweepSpends | internal/engine/engine.go:680-705 | One pass never exceeds the budget. |
| Trim.WholeMeansMinimal | internal/engine/engine.go:679-722 | An input of four bytes or more that comes back whole with budget to spare, from a deterministic target that never fails, cannot lose any single byte. |
| Selecting.TrimmedToWhatMatters | internal/engine/engine.go:679-722 | If the target, which never fails, reaches the same places as long as the bytes of certain values are there, in order, an input of four bytes or more is trimmed to exactly those bytes, or to one byte if there are none, unless the budget runs out. |
| Selecting.TrimmedKeepsSignatures | internal/engine/engine.go:706-712 | What trimming returns for a deterministic target has the coverage and the states of the input. |
| Trim.Engine.Trim | internal/engine/engine.go:658-725 | The loop computes the specified result, counts every execution, and adds to TrimSaved exactly the bytes removed. |
| Trim.Engine.Pass | internal/engine/engine.go:680-713 | One pass at one width, every slice in bounds. |
| Substitution.FitsExactly | internal/engine/cmplog.go:281-287 | A value fits in w bytes exactly when it is below 256^w. |
| Substitution.ValueOfLe | internal/engine/cmplog.go:289-293 | Little-endian bytes read back as the number. |
| Substitution.BeIsReversed | internal/engine/cmplog.go:295-299 | Big-endian bytes are the little-endian ones reversed. |
| Substitution.ReadSpelled | internal/engine/cmplog.go:248-251 | Every spelling, bytes or text, stands for the number it was made from. |
| Substitution.PaddedWithZeros | internal/engine/cmplog.go:253-264 | A value that fits a narrower field is, at the logged width, those bytes and zeros. |
| Substitution.AtMostTwenty | internal/engine/cmplog.go:225-279 | At most twenty edits per comparison, two for memory, none for integers of unusable width. |
| Substitution.SubstitutionsBothWays | internal/engine/cmplog.go:243-247 | Every edit comes with its reverse. |
| Substitution.EverySpellingIsTried | internal/engine/cmplog.go:248-271 | For each byte order at the logged width and at each narrower one that holds both operands, and for decimal and hexadecimal, there is an edit from either operand to the other. |
| Substitution.NativeEditIsTheOperands | internal/engine/cmplog.go:240-248 | The first edits are the operands’ own bytes. |
| Substitution.Enumerate | internal/engine/cmplog.go:225-279 | The enumeration loop. |
| Substitution.Splice | internal/engine/cmplog.go:155-173 | A candidate exists exactly when the needle occurs, and contains the wanted bytes. |
| Substitution.SpliceBack | internal/engine/cmplog.go:171-173 | Splicing back restores the parent when the wanted bytes do not occur earlier. |
| Stages.HavocBound | internal/engine/stage.go:94-156 | The mutation stage ends where it began or at most one candidate’s cost past the budget. |
| Drawing.HavocGoesOn | internal/engine/stage.go:94-156 | The mutation stage takes one answer after the other, those without a candidate too, executes every candidate, and ends only with its energy spent, at a stop, at the budget, or with a candidate that ends the run. |
| Drawing.TryAllGoesOn | internal/engine/cmplog.go:142-200 | The edits of one comparison are asked for one after the other, each once, passing over those too narrow, changing nothing, tried before, or not found in the parent, until a candidate ends the run or the parent has had its 96. |
| Drawing.TryRecordsGoOn | internal/engine/cmplog.go:127-141 | The stage takes one comparison after the other, looking before each at whether to stop, at the 96 and at the budget. |
| Drawing.RoundIs | internal/engine/engine.go:500-541 | One round: the comparison stage if the target reports its comparisons, then the mutation stage with the energy of the seed, unless a candidate has ended the run. |
| Drawing.StageIs | internal/engine/cmplog.go:100-141 | The comparison stage runs a parent that is not empty once, and goes through its first 512 records if that went well. |
| Drawing.RunGoesOn | internal/engine/engine.go:465-541 | A run goes from round to round until something stops it, the budget is used up, or a stage ends it. |
| Stages.CmpStageBound | internal/engine/cmplog.go:75-203 | With or without an execution budget, the comparison stage executes at most 96 candidates per parent, makes no edit twice, only edits of at least two bytes that occur in the parent, and accounts for each in CmpExecs; with one, it overshoots by at most one comparison’s twenty candidates. |
| Stages.TryAllSane | internal/engine/cmplog.go:142-200 | One comparison’s edits keep that. |
| Stages.EvaluatedCost | internal/engine/engine.go:568-650 | Judging one candidate costs at least one execution and at most one plus the trim budget. |
| Stages.RunBound | internal/engine/engine.go:465-541 | Over any number of rounds and whatever the target answers, a run ends with at most max(start, M + T) executions without the comparison stage and max(start, M - 1 + 20 (1 + T)) with it. |
| Attained.LimitIsReached | internal/engine/engine.go:465-541 | Without the comparison stage that limit is attained, for every budget and every trim budget. |
| Attained.CmpLimitIsReached | internal/engine/engine.go:465-541 | With it too, for every budget from two on and every trim budget: a parent run and then twenty candidates of one comparison, each with a whole trim budget; however many rounds the run may have. |
| Attained.TwentyDifferent | internal/engine/cmplog.go:225-279 | One comparison can suggest twenty edits, all different. |
| Stages.Engine.Evaluate | internal/engine/engine.go:568-620 | Executes, counts, and trims what is interesting. |
| Stages.Engine.HavocRun | internal/engine/stage.go:94-156 | The mutation loop. |
| Stages.Engine.CmpRun | internal/engine/cmplog.go:75-203 | The comparison stage on one parent. |
| Stages.Engine.Compare | internal/engine/cmplog.go:127-202 | Its loop over comparisons. |
| Stages.Engine.Substitute | internal/engine/cmplog.go:142-200 | Its loop over edits. |
| Stages.Engine.TrySub | internal/engine/cmplog.go:146-187 | One edit: tried once, spliced at its first occurrence, judged. |
| Stages.Engine.RunFor | internal/engine/engine.go:465-541 | The loop for a given number of rounds, ending within the limit. |

## Left out

- Tracer.Session.TraceRun: assumes that code is neither read nor written by the program, that no executed instruction holds an address still planted behind its first byte, that SIGTRAP comes from trap bytes and exec events only, and that ptrace calls succeed; an image that is the target and replaces the target has its blocks neither planted nor counted, as in the source; starting the child, the first wait and its two early returns come before the model begins; the watchdog is a limit on instructions.
- Relocation.SameHitsAtAnyBase: a program is position-independent when its instructions and signal deliveries act alike wherever its mappings are placed; mappings that move apart do not touch, and the two runs reach the target with the same allowance left.
- AuditLog.TamperEvident: the hash is a parameter and a collision is handed back instead of assumed away; SHA-256 and the database transaction are not modelled.
- Scope.Guard.AllowResolved: takes the resolved addresses as a list; parsing of hosts and name resolution are not modelled, nor are audit entries and messages.
- EventStream.ReadSSE: takes characters where the client's reader takes bytes, in the data and in the limit on a line; outer white space is what strings.TrimSpace removes.
- EventStream.ClientHearsWhatIsDue: takes the JSON bodies as given texts without newlines or outer white space; a connection that fails takes a number of characters and no more.
- Series.History.Add: takes instants as signed 64-bit nanoseconds and gives every snapshot both readings of the clock; times whose Unix nanoseconds overflow, and a mixture of times with and without a monotonic reading, are not modelled.
- Tails.Ring.Raw: is the contents before the white space around them is trimmed.
- CorpusSync.EveryInterleaving: keeps the worker set fixed and leaves out restarts, the pipe behind an outbox, and every field of an entry but its digest.
- Bus.EveryInterleaving: follows one subscription, because subscriptions share nothing but the sequence number; filters by kind only decide what is offered.
- WebSocket.Conn.WriteFrame: masks are an arbitrary sequence; a write that takes every byte does not fail, and a mask that cannot be drawn is a write that takes nothing.
- Trim.Engine.Trim: decoding candidates through the codec is part of the executor; the reuse of one buffer between trims is not modelled.
- Stages.RunBound: runs without the concolic solver; other budgets, cancellation and deadlines are stops at arbitrary points, and scheduling, corpus and findings are not modelled.
- stageResult.merge: of a stage's result only how it ended is modelled; admissions and best scores do not bear on executions.
- Stages.CmpStageBound: the comparison records are whatever the target reported, in operands of 16 bytes.
- The handshake, the HTTP server, JSON, D-Bus, SQLite, sockets and pipes: replaced by sequences and parameters.
- Namespaces, mounts, cgroups, resource limits, job objects and terminals: thin wrappers over the kernel.
- Commands, API views, console, key tables, browser and desktop driving, mutators, codecs, schedulers and the state model: outside the components above.
